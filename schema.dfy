/**
 * The `tickets` table: one row per issued ticket. Columns as declared in
 * db.py; `created_at` (a timestamp the database fills in) is not modelled.
 */
module Schema {
  import opened Wrappers

  /** The `status` column: the table only ever receives 'ISSUED' and 'USED'. */
  datatype Status = Issued | Used

  function StatusText(s: Status): string
  {
    match s
    case Issued => "ISSUED"
    case Used => "USED"
  }

  datatype Ticket = Ticket(
    id: nat,                        // INTEGER PRIMARY KEY AUTOINCREMENT
    ticketCode: string,
    packageId: string,
    eventCode: string,
    amountCents: int,
    status: Status,
    squareOrderId: Option<string>,  // nullable columns
    sessionId: Option<string>,
    imageUrl: Option<string>)

  /** `SELECT 1 FROM tickets WHERE ticket_code = ?` finds a row. */
  predicate HasCode(rows: seq<Ticket>, code: string)
  {
    exists i :: 0 <= i < |rows| && rows[i].ticketCode == code
  }

  /** Rows are stored in `id` order and, as nothing is ever deleted, the ids are 1, 2, ... */
  predicate IdsInOrder(rows: seq<Ticket>)
  {
    forall i :: 0 <= i < |rows| ==> rows[i].id == i + 1
  }

  /** No two rows share a `ticket_code`. */
  predicate UniqueCodes(rows: seq<Ticket>)
  {
    forall i, j :: 0 <= i < j < |rows| ==> rows[i].ticketCode != rows[j].ticketCode
  }
}
