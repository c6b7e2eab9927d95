/**
 * The ticket store (models.py): inserting a ticket, looking one up by code,
 * and marking tickets used. The SQL table is the sequence `rows`, in `id` order.
 */
module Models {
  import opened Wrappers
  import opened Schema
  import Codes
  import Decimal

  /** The row `create_ticket` inserts: a fresh ISSUED ticket with no session or image yet. */
  function NewTicket(id: nat, code: string, packageId: string, eventCode: string,
                     amountCents: int, squareOrderId: Option<string>): Ticket
  {
    Ticket(id, code, packageId, eventCode, amountCents, Issued, squareOrderId, None, None)
  }

  /** `SELECT * FROM tickets WHERE ticket_code = ? LIMIT 1`: a row with that code, or `None`. */
  function FindByCode(rows: seq<Ticket>, code: string): (r: Option<Ticket>)
    ensures r.None? <==> !HasCode(rows, code)
    ensures r.Some? ==> r.value in rows && r.value.ticketCode == code
  {
    if rows == [] then None
    else if rows[0].ticketCode == code then Some(rows[0])
    else
      var r := FindByCode(rows[1..], code);
      assert HasCode(rows[1..], code) ==> HasCode(rows, code);
      assert HasCode(rows, code) ==> HasCode(rows[1..], code);
      r
  }

  /** With unique codes, the lookup returns THE row that has the code. */
  lemma {:induction false} FindByCodeUnique(rows: seq<Ticket>, i: nat)
    requires UniqueCodes(rows) && i < |rows|
    ensures FindByCode(rows, rows[i].ticketCode) == Some(rows[i])
  {
    if i > 0 && rows[0].ticketCode != rows[i].ticketCode {
      FindByCodeUnique(rows[1..], i - 1);
    }
  }

  /** The per-row effect of the UPDATE: status 'USED', and each value merged with COALESCE. */
  function Complete(t: Ticket, sessionId: Option<string>, imageUrl: Option<string>): Ticket
  {
    t.(status := Used,
       sessionId := Coalesce(sessionId, t.sessionId),
       imageUrl := Coalesce(imageUrl, t.imageUrl))
  }

  /** `UPDATE tickets SET status = 'USED', ... WHERE ticket_code = ?` over the whole table. */
  function MarkUsed(rows: seq<Ticket>, code: string, sessionId: Option<string>, imageUrl: Option<string>): seq<Ticket>
  {
    seq(|rows|, i requires 0 <= i < |rows| =>
      if rows[i].ticketCode == code then Complete(rows[i], sessionId, imageUrl) else rows[i])
  }

  /**
   * Every row with the code becomes USED; its session id and image url are the
   * supplied values where those are not NULL and the previous ones otherwise;
   * no other column of it changes.
   */
  lemma MarkUsedMatching(rows: seq<Ticket>, code: string, sessionId: Option<string>, imageUrl: Option<string>, i: nat)
    requires i < |rows| && rows[i].ticketCode == code
    ensures |MarkUsed(rows, code, sessionId, imageUrl)| == |rows|
    ensures var t, u := rows[i], MarkUsed(rows, code, sessionId, imageUrl)[i];
      && u.status == Used
      && u.sessionId == (if sessionId.Some? then sessionId else t.sessionId)
      && u.imageUrl == (if imageUrl.Some? then imageUrl else t.imageUrl)
      && u.id == t.id && u.ticketCode == t.ticketCode && u.packageId == t.packageId
      && u.eventCode == t.eventCode && u.amountCents == t.amountCents
      && u.squareOrderId == t.squareOrderId
  {
  }

  /** Rows with another code are never touched. */
  lemma MarkUsedOthers(rows: seq<Ticket>, code: string, sessionId: Option<string>, imageUrl: Option<string>, i: nat)
    requires i < |rows| && rows[i].ticketCode != code
    ensures |MarkUsed(rows, code, sessionId, imageUrl)| == |rows|
    ensures MarkUsed(rows, code, sessionId, imageUrl)[i] == rows[i]
  {
  }

  /** A code that no row has: no error, and the table is unchanged. */
  lemma MarkUsedUnknown(rows: seq<Ticket>, code: string, sessionId: Option<string>, imageUrl: Option<string>)
    requires !HasCode(rows, code)
    ensures MarkUsed(rows, code, sessionId, imageUrl) == rows
  {
  }

  /**
   * Two completions in a row are one completion whose values are the second
   * call's where it supplies them and the first call's otherwise.
   */
  lemma MarkUsedTwice(rows: seq<Ticket>, code: string, s1: Option<string>, u1: Option<string>, s2: Option<string>, u2: Option<string>)
    ensures MarkUsed(MarkUsed(rows, code, s1, u1), code, s2, u2)
         == MarkUsed(rows, code, Coalesce(s2, s1), Coalesce(u2, u1))
  {
  }

  /** Repeating a completion with the same values changes nothing more. */
  lemma MarkUsedIdempotent(rows: seq<Ticket>, code: string, sessionId: Option<string>, imageUrl: Option<string>)
    ensures MarkUsed(MarkUsed(rows, code, sessionId, imageUrl), code, sessionId, imageUrl)
         == MarkUsed(rows, code, sessionId, imageUrl)
  {
    MarkUsedTwice(rows, code, sessionId, imageUrl, sessionId, imageUrl);
  }

  /** A completion with neither value leaves USED tickets exactly as they are. */
  lemma MarkUsedNullsOnUsed(rows: seq<Ticket>, code: string)
    requires forall i :: 0 <= i < |rows| && rows[i].ticketCode == code ==> rows[i].status == Used
    ensures MarkUsed(rows, code, None, None) == rows
  {
  }

  /** The UPDATE keeps every row's id and code, so it keeps the table's invariants. */
  lemma MarkUsedKeepsKeys(rows: seq<Ticket>, code: string, sessionId: Option<string>, imageUrl: Option<string>)
    ensures var r := MarkUsed(rows, code, sessionId, imageUrl);
      && |r| == |rows|
      && (forall i :: 0 <= i < |rows| ==> r[i].id == rows[i].id && r[i].ticketCode == rows[i].ticketCode)
      && (IdsInOrder(rows) ==> IdsInOrder(r))
      && (UniqueCodes(rows) ==> UniqueCodes(r))
  {
  }

  /** The `tickets` table, as sequential requests see it. */
  class TicketStore {
    var rows: seq<Ticket>

    /**
     * Ids follow insertion order, and no two rows share a code. The schema has no
     * UNIQUE constraint on `ticket_code`: uniqueness is kept only because every
     * insert takes its code from `GenerateCode`, which checks the table first.
     */
    ghost predicate Valid()
      reads this
    {
      IdsInOrder(rows) && UniqueCodes(rows)
    }

    constructor ()
      ensures Valid() && rows == []
    {
      rows := [];
    }

    /** `get_ticket_by_code(code)`; the table is only read. */
    function GetTicketByCode(code: string): Option<Ticket>
      reads this
    {
      FindByCode(rows, code)
    }

    /**
     * `create_ticket(...)`: draws a code no row has, appends one ISSUED row with
     * the given values and the next id, and returns the code.
     */
    method CreateTicket(packageId: string, eventCode: string, amountCents: int,
                        squareOrderId: Option<string>, draws: seq<Codes.Draw>) returns (code: string)
      requires Valid() && Codes.HasFreeDraw(rows, draws)
      modifies this
      ensures Valid()
      ensures |code| == Codes.CodeLength && Decimal.AllDigits(code)
      ensures !HasCode(old(rows), code)
      ensures exists k :: 0 <= k < |draws| && code == Codes.FormatCode(draws[k])
      ensures rows == old(rows) + [NewTicket(|old(rows)| + 1, code, packageId, eventCode, amountCents, squareOrderId)]
      ensures GetTicketByCode(code) == Some(rows[|rows| - 1])
    {
      var attempts;
      code, attempts := Codes.GenerateCode(rows, draws);
      rows := rows + [NewTicket(|rows| + 1, code, packageId, eventCode, amountCents, squareOrderId)];
      FindByCodeUnique(rows, |rows| - 1);
    }

    /** `mark_ticket_used(code, session_id, image_url)`: the UPDATE, with no error for an unknown code. */
    method MarkTicketUsed(code: string, sessionId: Option<string>, imageUrl: Option<string>)
      requires Valid()
      modifies this
      ensures Valid()
      ensures rows == MarkUsed(old(rows), code, sessionId, imageUrl)
    {
      MarkUsedKeepsKeys(rows, code, sessionId, imageUrl);
      rows := MarkUsed(rows, code, sessionId, imageUrl);
    }
  }
}
