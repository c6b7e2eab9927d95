/**
 * The ticket logic of the Flask handlers in app.py, without the HTTP plumbing:
 * issuing a ticket on the dev path and on the payment path, the two endpoints
 * the Mirror kiosk calls, and the query behind the debug list of tickets.
 * The package catalog and the default event code are fixed inputs; the payment
 * verifier is a function parameter.
 */
module Service {
  import opened Wrappers
  import opened PyText
  import opened Schema
  import opened Models
  import Codes

  /** One entry of the package catalog. */
  datatype Package = Package(
    id: string,
    name: string,
    amountCents: int,
    prints: Option<int>,   // a package may leave `prints` out
    gif: bool,
    boomerang: bool,
    digitalAccess: bool)

  /**
   * `{p["id"]: p for p in PACKAGES}.get(id)`: the dictionary keeps the LAST
   * catalog entry of each id, so that is the one found.
   */
  function FindPackage(catalog: seq<Package>, id: string): (r: Option<Package>)
    ensures r.None? <==> forall i :: 0 <= i < |catalog| ==> catalog[i].id != id
    ensures r.Some? ==> exists i :: 0 <= i < |catalog| && catalog[i] == r.value && r.value.id == id
                          && forall j :: i < j < |catalog| ==> catalog[j].id != id
  {
    if catalog == [] then None
    else if catalog[|catalog| - 1].id == id then Some(catalog[|catalog| - 1])
    else FindPackage(catalog[..|catalog| - 1], id)
  }

  // ----------------------------------------------------------------------
  // Issuing tickets

  datatype Rejection = UnknownPackage | PaymentInfoMissing | PaymentNotConfigured

  /** What an issuing handler ends with: a rejection (a flash message and a redirect) or a new code. */
  datatype Issuance = Rejected(why: Rejection) | Created(code: string)

  /** The catalog entry the dev path issues for; the form field may be missing. */
  function DevPackage(catalog: seq<Package>, packageId: Option<string>): Option<Package>
  {
    if packageId.None? then None else FindPackage(catalog, packageId.value)
  }

  /**
   * `payment_dev_complete`: an unknown package issues nothing; otherwise one
   * ticket at the catalog's current price, for the default event, with no order id.
   */
  method PaymentDevComplete(store: TicketStore, catalog: seq<Package>, defaultEvent: string,
                            packageId: Option<string>, draws: seq<Codes.Draw>) returns (out: Issuance)
    requires store.Valid()
    requires DevPackage(catalog, packageId).Some? ==> Codes.HasFreeDraw(store.rows, draws)
    modifies store
    ensures store.Valid()
    ensures out.Rejected? <==> DevPackage(catalog, packageId).None?
    ensures out.Rejected? ==> out.why == UnknownPackage && store.rows == old(store.rows)
    ensures out.Created? ==>
      && !HasCode(old(store.rows), out.code)
      && store.rows == old(store.rows) + [NewTicket(|old(store.rows)| + 1, out.code, packageId.value, defaultEvent,
                                                    DevPackage(catalog, packageId).value.amountCents, None)]
  {
    var pkg := DevPackage(catalog, packageId);
    if pkg.None? {
      return Rejected(UnknownPackage);
    }
    var code := store.CreateTicket(packageId.value, defaultEvent, pkg.value.amountCents, None, draws);
    out := Created(code);
  }

  /** `request.args.get("order_id") or request.args.get("sq_order_id")` */
  function OrderIdArg(orderArg: Option<string>, sqOrderArg: Option<string>): Option<string>
  {
    if Truthy(orderArg) then orderArg else sqOrderArg
  }

  /** `order_id` wins whenever it is non-empty; `sq_order_id` is read only otherwise. */
  lemma OrderIdPrecedence(orderArg: Option<string>, sqOrderArg: Option<string>)
    ensures Truthy(orderArg) ==> OrderIdArg(orderArg, sqOrderArg) == orderArg
    ensures !Truthy(orderArg) ==> OrderIdArg(orderArg, sqOrderArg) == sqOrderArg
    ensures Truthy(OrderIdArg(orderArg, sqOrderArg)) <==> Truthy(orderArg) || Truthy(sqOrderArg)
  {
  }

  /** What the payment verifier reports for an order. */
  datatype PaymentInfo = PaymentInfo(packageId: string, amountCents: int, eventCode: Option<string>)

  /** `info.get("event_code") or DEFAULT_EVENT_CODE` */
  function EventCodeFor(info: PaymentInfo, defaultEvent: string): string
  {
    if Truthy(info.eventCode) then info.eventCode.value else defaultEvent
  }

  /**
   * The fallback never invents an event code: it is the verifier's or the
   * default, and it is empty only when both of those are missing or empty, so
   * with a non-empty default a payment-path ticket always has an event code.
   */
  lemma EventCodeFallback(info: PaymentInfo, defaultEvent: string)
    ensures Some(EventCodeFor(info, defaultEvent)) == info.eventCode || EventCodeFor(info, defaultEvent) == defaultEvent
    ensures EventCodeFor(info, defaultEvent) != "" <==> Truthy(info.eventCode) || defaultEvent != ""
    ensures defaultEvent != "" ==> EventCodeFor(info, defaultEvent) != ""
  {
  }

  /**
   * `payment_complete`: no order id, or a verifier that returns `None`, issues
   * nothing; otherwise one ticket with what the verifier reports (not checked
   * against the catalog) and the order id recorded.
   */
  method PaymentComplete(store: TicketStore, verify: string -> Option<PaymentInfo>, defaultEvent: string,
                         orderArg: Option<string>, sqOrderArg: Option<string>, draws: seq<Codes.Draw>)
    returns (out: Issuance)
    requires store.Valid()
    requires var oid := OrderIdArg(orderArg, sqOrderArg);
      Truthy(oid) && verify(oid.value).Some? ==> Codes.HasFreeDraw(store.rows, draws)
    modifies store
    ensures store.Valid()
    ensures var oid := OrderIdArg(orderArg, sqOrderArg);
      && (out == Rejected(PaymentInfoMissing) <==> !Truthy(oid))
      && (out == Rejected(PaymentNotConfigured) <==> Truthy(oid) && verify(oid.value).None?)
      && (out.Created? <==> Truthy(oid) && verify(oid.value).Some?)
      && (out.Rejected? ==> store.rows == old(store.rows))
      && (out.Created? ==>
           && Truthy(oid) && verify(oid.value).Some?
           && !HasCode(old(store.rows), out.code)
           && var info := verify(oid.value).value;
              store.rows == old(store.rows) + [NewTicket(|old(store.rows)| + 1, out.code, info.packageId,
                                                         EventCodeFor(info, defaultEvent), info.amountCents, oid)])
  {
    var orderId := OrderIdArg(orderArg, sqOrderArg);
    if !Truthy(orderId) {
      return Rejected(PaymentInfoMissing);
    }
    var info := verify(orderId.value);
    if info.None? {
      return Rejected(PaymentNotConfigured);
    }
    var code := store.CreateTicket(info.value.packageId, EventCodeFor(info.value, defaultEvent),
                                   info.value.amountCents, orderId, draws);
    out := Created(code);
  }

  // ----------------------------------------------------------------------
  // The Mirror endpoints

  /** The JSON object the Mirror sends; one that is missing or not JSON reads as `{}`. */
  type Body = map<string, JsonValue>

  /**
   * `request.get_json(silent=True) or {}`: the decoder reads integers with
   * `int()`, so a body holding one of more than 4300 digits fails to decode,
   * and the handler sees `{}`.
   */
  function RequestData(body: Body): (data: Body)
    ensures data == body || data == map[]
    ensures data == body <==> forall k :: k in body && body[k].JInt? ==> WithinStrDigits(body[k].i)
    ensures forall k :: k in data && data[k].JInt? ==> WithinStrDigits(data[k].i)
  {
    if forall k :: k in body && body[k].JInt? ==> WithinStrDigits(body[k].i) then body else map[]
  }

  /** `str(data.get("ticket_code", "")).strip()` */
  function RequestCode(body: Body): string
  {
    var data := RequestData(body);
    Strip(PyStr(if "ticket_code" in data then data["ticket_code"] else JString("")))
  }

  /**
   * What a TEXT column holds after binding `data.get(key)`: NULL for a missing
   * key or JSON null, and text for anything else (an int as its decimal
   * digits, a bool as 1 or 0).
   */
  function TextField(body: Body, key: string): Option<string>
  {
    var data := RequestData(body);
    if key !in data then None
    else match data[key]
      case JNull => None
      case JString(s) => Some(s)
      case JInt(i) => Some(IntToString(i))
      case JBool(b) => Some(if b then "1" else "0")
  }

  /**
   * An integer of more than 4300 digits anywhere in the body, whatever its key,
   * empties the whole body: the code reads as blank and no value is bound.
   */
  lemma UndecodableBodyIsEmpty(body: Body, key: string, field: string)
    requires key in body && body[key].JInt? && !WithinStrDigits(body[key].i)
    ensures RequestCode(body) == ""
    ensures TextField(body, field) == None
  {
    assert RequestData(body) == map[];
  }

  /** The `extras` object: `prints` is `pkg.get("prints")`, the flags `bool(pkg.get(...))`. */
  datatype Extras = Extras(prints: Option<int>, gif: bool, boomerang: bool, digitalAccess: bool)

  function ExtrasFor(pkg: Option<Package>): Extras
  {
    match pkg
    case None => Extras(None, false, false, false)
    case Some(p) => Extras(p.prints, p.gif, p.boomerang, p.digitalAccess)
  }

  datatype RedeemResponse =
    | RedeemRejected(reason: string, httpStatus: nat)
    | Redeemable(ticketCode: string, packageId: string, eventCode: string, status: string,
                 amountCents: int, extras: Extras)

  /**
   * `api_redeem`: a read-only validity check. A blank code is refused before
   * any lookup, then an unknown code; otherwise the ticket's fields with the
   * extras of its package.
   */
  function ApiRedeem(store: TicketStore, catalog: seq<Package>, body: Body): (r: RedeemResponse)
    reads store
    ensures r == RedeemRejected("missing_code", 400) <==> RequestCode(body) == ""
    ensures r == RedeemRejected("unknown_code", 404) <==> RequestCode(body) != "" && !HasCode(store.rows, RequestCode(body))
    ensures r.Redeemable? <==> RequestCode(body) != "" && HasCode(store.rows, RequestCode(body))
    ensures r.Redeemable? ==>
      && r.ticketCode == RequestCode(body)
      && exists t :: t in store.rows && t.ticketCode == r.ticketCode && t.packageId == r.packageId
           && t.eventCode == r.eventCode && StatusText(t.status) == r.status && t.amountCents == r.amountCents
    ensures r.Redeemable? ==> r.extras == ExtrasFor(FindPackage(catalog, r.packageId))
    ensures r.Redeemable? && FindPackage(catalog, r.packageId).None? ==> r.extras == Extras(None, false, false, false)
  {
    var code := RequestCode(body);
    if code == "" then RedeemRejected("missing_code", 400)
    else match store.GetTicketByCode(code)
      case None => RedeemRejected("unknown_code", 404)
      case Some(t) =>
        Redeemable(code, t.packageId, t.eventCode, StatusText(t.status), t.amountCents,
                   ExtrasFor(FindPackage(catalog, t.packageId)))
  }

  /** SQLite's INTEGER range; sqlite3 refuses to bind a Python int outside it. */
  const SqliteIntMin: int := -0x8000_0000_0000_0000
  const SqliteIntMax: int := 0x7fff_ffff_ffff_ffff

  /**
   * `data.get(key)` can be bound as a statement parameter: anything but an
   * integer outside SQLite's 64-bit range, for which binding raises `OverflowError`.
   */
  predicate Bindable(body: Body, key: string)
  {
    var data := RequestData(body);
    key in data && data[key].JInt? ==> SqliteIntMin <= data[key].i <= SqliteIntMax
  }

  /**
   * The handler's answer: a JSON refusal, the 500 Flask sends when the UPDATE
   * raises (the connection closes without a commit), or success.
   */
  datatype CompleteResponse = CompleteRejected(reason: string, httpStatus: nat) | InternalError | Completed

  /**
   * `api_session_complete`: a blank code, then an unknown code, are refused and
   * change nothing; a session id or image url sqlite3 cannot bind makes the
   * UPDATE raise, and nothing is committed; otherwise the ticket is marked USED
   * with the session id and image url merged in.
   */
  method ApiSessionComplete(store: TicketStore, body: Body) returns (resp: CompleteResponse)
    requires store.Valid()
    modifies store
    ensures store.Valid()
    ensures resp == CompleteRejected("missing_code", 400) <==> RequestCode(body) == ""
    ensures resp == CompleteRejected("unknown_code", 404) <==> RequestCode(body) != "" && !HasCode(old(store.rows), RequestCode(body))
    ensures resp == InternalError <==>
      RequestCode(body) != "" && HasCode(old(store.rows), RequestCode(body))
      && !(Bindable(body, "session_id") && Bindable(body, "image_url"))
    ensures resp.Completed? <==>
      RequestCode(body) != "" && HasCode(old(store.rows), RequestCode(body))
      && Bindable(body, "session_id") && Bindable(body, "image_url")
    ensures !resp.Completed? ==> store.rows == old(store.rows)
    ensures resp.Completed? ==>
      && store.rows == MarkUsed(old(store.rows), RequestCode(body), TextField(body, "session_id"), TextField(body, "image_url"))
      && store.GetTicketByCode(RequestCode(body)).Some?
      && store.GetTicketByCode(RequestCode(body)).value.status == Used
  {
    var code := RequestCode(body);
    var sessionId := TextField(body, "session_id");
    var imageUrl := TextField(body, "image_url");
    if code == "" {
      return CompleteRejected("missing_code", 400);
    }
    var ticket := store.GetTicketByCode(code);
    if ticket.None? {
      return CompleteRejected("unknown_code", 404);
    }
    if !(Bindable(body, "session_id") && Bindable(body, "image_url")) {
      return InternalError;
    }
    ghost var i :| 0 <= i < |store.rows| && store.rows[i].ticketCode == code;
    store.MarkTicketUsed(code, sessionId, imageUrl);
    MarkUsedMatching(old(store.rows), code, sessionId, imageUrl, i);
    FindByCodeUnique(store.rows, i);
    resp := Completed;
  }

  // ----------------------------------------------------------------------
  // The debug list of tickets

  const DefaultLimit: int := 50

  /** `int(request.args.get("limit", 50))`, falling back to 50 on `ValueError`. */
  function LimitFor(arg: Option<string>): int
  {
    match arg
    case None => DefaultLimit
    case Some(s) =>
      match ParseInt(s)
      case None => DefaultLimit
      case Some(n) => n
  }

  /** A well-formed `limit` is taken as written; a missing or malformed one is 50. */
  lemma LimitParsing(n: int, s: string)
    ensures WithinStrDigits(n) ==> LimitFor(Some(IntToString(n))) == n
    ensures !WithinStrDigits(n) ==> LimitFor(Some(IntToString(n))) == DefaultLimit
    ensures LimitFor(None) == DefaultLimit
    ensures ParseInt(s).None? ==> LimitFor(Some(s)) == DefaultLimit
    ensures (exists i :: 0 <= i < |s| && IsSeparator(s[i])) ==> LimitFor(Some(s)) == DefaultLimit
  {
    if WithinStrDigits(n) {
      IntRoundTrip(n);
    } else {
      LongIntIsNotInt(n);
    }
  }

  /**
   * `SELECT ... FROM tickets ORDER BY id DESC LIMIT ?`. SQLite reads a
   * negative LIMIT as no limit at all.
   */
  function NewestFirst(rows: seq<Ticket>, limit: int): seq<Ticket>
  {
    var n := if 0 <= limit < |rows| then limit else |rows|;
    seq(n, i requires 0 <= i < n => rows[|rows| - 1 - i])
  }

  /**
   * The query returns rows in strictly descending id order, at most `limit` of
   * them when `limit` is not negative, and they are the newest rows: a row is
   * listed exactly when its id is among the largest.
   */
  lemma NewestFirstOrder(rows: seq<Ticket>, limit: int)
    requires IdsInOrder(rows)
    ensures var r := NewestFirst(rows, limit);
      && (forall i, j :: 0 <= i < j < |r| ==> r[i].id > r[j].id)
      && (limit >= 0 ==> |r| == if limit < |rows| then limit else |rows|)
      && (limit < 0 ==> |r| == |rows|)
      && (forall k :: 0 <= k < |rows| ==> (rows[k] in r <==> rows[k].id > |rows| - |r|))
  {
    var r := NewestFirst(rows, limit);
    forall k | 0 <= k < |rows| ensures rows[k] in r <==> rows[k].id > |rows| - |r| {
      if rows[k] in r {
        var i :| 0 <= i < |r| && r[i] == rows[k];
        assert r[i].id == |rows| - i;
      }
      if rows[k].id > |rows| - |r| {
        assert r[|rows| - 1 - k] == rows[k];
      }
    }
  }

  /** One line of the debug view: the selected columns and the package's display name. */
  datatype DebugRow = DebugRow(ticketCode: string, packageId: string, eventCode: string,
                               amountCents: int, status: string, packageName: string)

  /** `pkg["name"] if pkg else t["package_id"]` */
  function PackageName(catalog: seq<Package>, packageId: string): string
  {
    match FindPackage(catalog, packageId)
    case Some(p) => p.name
    case None => packageId
  }

  function Summarize(t: Ticket, catalog: seq<Package>): DebugRow
  {
    DebugRow(t.ticketCode, t.packageId, t.eventCode, t.amountCents, StatusText(t.status),
             PackageName(catalog, t.packageId))
  }

  /**
   * `debug_tickets`: the parsed limit, and the newest tickets first, each
   * annotated with its package's name (or its package id when the catalog
   * has no such package). The table is only read.
   */
  method DebugTickets(store: TicketStore, catalog: seq<Package>, limitArg: Option<string>)
    returns (limit: int, view: seq<DebugRow>)
    ensures limit == LimitFor(limitArg)
    ensures |view| == |NewestFirst(store.rows, limit)|
    ensures forall i :: 0 <= i < |view| ==> view[i] == Summarize(NewestFirst(store.rows, limit)[i], catalog)
  {
    limit := LimitFor(limitArg);
    view := SummarizeAll(NewestFirst(store.rows, limit), catalog);
  }

  /** The loop building the rendered list, one summary per queried row, in order. */
  method SummarizeAll(tickets: seq<Ticket>, catalog: seq<Package>) returns (view: seq<DebugRow>)
    ensures |view| == |tickets|
    ensures forall i :: 0 <= i < |view| ==> view[i] == Summarize(tickets[i], catalog)
  {
    view := [];
    var i := 0;
    while i < |tickets|
      invariant 0 <= i <= |tickets| && |view| == i
      invariant forall j :: 0 <= j < i ==> view[j] == Summarize(tickets[j], catalog)
    {
      view := view + [Summarize(tickets[i], catalog)];
      i := i + 1;
    }
  }
}
