# Ticket lifecycle of the instapic.fun event-photo backend, in Dafny

Attendees prepay for a photo package and receive a six-digit redemption code;
the "Mirror" photo kiosk checks the code and later reports the finished
session. This project models the core of that lifecycle and proves its
properties:

- **Codes** (`codes.py`): a draw in 0..999999 written as six zero-padded
  digits, redrawn until no ticket has it. The random source is a sequence of
  draws passed in by the caller.
- **Ticket store** (`models.py`): the `tickets` table is the field `rows` of
  the class `Models.TicketStore`, one record per row in `id` order.
  `CreateTicket` appends an `ISSUED` row; `GetTicketByCode` / `FindByCode`
  look a row up; `MarkTicketUsed` applies the `UPDATE ... SET status = 'USED'`
  with the two `COALESCE` merges. The class invariant `Valid()` says that ids
  are 1, 2, ... in order and that no two rows share a code. The schema has no
  UNIQUE constraint on `ticket_code`; uniqueness holds in a sequential run only
  because every insert takes its code from the generator's check.
- **Ticket service** (`app.py`, HTTP stripped): dev-path and payment-path
  issuance, the `redeem` and `session-complete` endpoints the Mirror calls,
  and the query behind the debug list. The package catalog and the default
  event code are fixed inputs. The payment verifier is a function parameter.
  Request bodies are maps from keys to scalar JSON values.
- **Keypad** (`static/js/main.js`): the click handler as a pure step
  `Press(value, click)`, wrapped by the class `Keypad.CodeInput` whose `value`
  field it overwrites.

Supporting modules: `Wrappers` (Option, SQL `COALESCE`), `Decimal` (decimal
rendering and reading), `PyText` (Python's `str()`, `str.strip()` and `int()`
as the handlers use them), `Schema` (the row record of the `tickets` table).

The model follows the code on these points, which are easy to get wrong:

- `generate_code` has no attempt cap and no "exhausted" error. It loops until it draws a free code.
- The table has no unique index on `ticket_code`, and an insert never fails with a duplicate.
- `mark_ticket_used` raises no "not found" error. An unknown code updates no row, and only the handler answers 404.
- A JSON integer `session_id` or `image_url` outside SQLite's signed 64-bit range, but of at most 4300 digits, makes sqlite3 raise while binding. The handler then fails with a 500, and nothing is committed.
- CPython's `int()` and `str()` refuse integers of more than 4300 digits (the default `sys.int_info.default_max_str_digits`). A request body holding such an integer, under any key, fails to decode, so the handler sees `{}` and answers missing_code/400. A `limit` of more than 4300 digits falls back to 50.
- The debug `limit` is not forced positive. A negative limit lists every row, because SQLite reads a negative LIMIT as no limit. A zero limit lists none.
- `redeem` checks for a blank code before it looks the code up.

Some details of the code are modelled as written:

- Duplicate catalog ids resolve to the last entry, because the handlers build a dict.
- A JSON `null` ticket code becomes the string `"None"`, so the answer is `unknown_code`, not `missing_code`.
- A JSON integer code loses its leading zeros.
- A non-string `session_id` or `image_url` is stored as text, because the columns have TEXT affinity: an int as its decimal digits, `true`/`false` as the text "1"/"0".

## Model

| member | source | states |
|---|---|---|
| Codes.FormatCodeShape | codes.py:11 | the code of draw n has exactly six characters, all decimal digits; it reads back as n; it starts with a padding zero exactly when n < 100000 |
| Codes.ParseFormat | codes.py:11 | parsing the code of n as a six-digit number gives back n |
| Codes.FormatParse | codes.py:11 | every six-digit string is the code of the number it reads as, so formatting is a bijection onto six-digit strings |
| Codes.FormatInjective | codes.py:11 | different draws give different codes |
| Decimal.DecimalValueOfString | codes.py:11 | reading back the decimal rendering of n gives n |
| Decimal.PaddedRenderingOfValue | codes.py:11 | a digit string is the zero-padded rendering of its own value |
| Codes.GenerateCode | codes.py:10-18 | returns the first draw whose code no row has; every earlier draw's code was already in the table; the result is six digits that parse to that draw; the table is only read |
| Models.FindByCode | models.py:25-34 | None exactly when no row has the code, otherwise a row of the table with that code |
| Models.FindByCodeUnique | models.py:25-34 | when codes are unique, the lookup returns exactly the row holding the code |
| Models.MarkUsedMatching | models.py:37-52 | a row with the code becomes USED; its session_id and image_url are the supplied values when non-null, otherwise the previous ones; id, code, package, event, amount and order id are unchanged |
| Models.MarkUsedOthers | models.py:49 | rows with another code are never touched |
| Models.MarkUsedUnknown | models.py:43-52 | a code no row has changes nothing, and no error is raised |
| Models.MarkUsedTwice | models.py:46-48 | two completions equal one completion whose values are the second's where it supplies them and the first's otherwise |
| Models.MarkUsedIdempotent | models.py:43-52 | repeating a completion with the same values gives the same table as doing it once |
| Models.MarkUsedNullsOnUsed | models.py:46-48 | a completion with both values null leaves USED tickets unchanged |
| Models.MarkUsedKeepsKeys | models.py:45-49 | the update keeps every row's id and code, so id order and code uniqueness are preserved |
| Models.TicketStore.constructor | db.py:42-55 | the table starts empty and valid |
| Models.TicketStore.CreateTicket | models.py:6-22 | appends exactly one ISSUED row with the given package, event, amount and order id and the next id; its code is six digits, one of the draws, held by no row before; afterwards the lookup finds that row; validity and code uniqueness are preserved |
| Models.TicketStore.MarkTicketUsed | models.py:37-52 | the table becomes the UPDATE's result, and validity is preserved |
| Service.FindPackage | app.py:73-74 | None exactly when no catalog entry has the id; otherwise an entry with that id that no later entry shares (the last one wins, as in the dict) |
| Service.PaymentDevComplete | app.py:70-86 | rejects exactly when the package id is missing or unknown, and then changes nothing; otherwise appends one ISSUED row with the catalog's price, the default event code and no order id, under a code no row had |
| Service.OrderIdPrecedence | app.py:90 | a non-empty `order_id` wins over `sq_order_id`; an order id is present exactly when one of the two is non-empty |
| Service.EventCodeFallback | app.py:106 | the event code is never invented: it is the verifier's or the default, and it is empty only when both are missing or empty, so a non-empty default always gives a payment-path ticket an event code |
| Service.PaymentComplete | app.py:88-115 | rejects as missing exactly when there is no order id, and as not configured exactly when the verifier returns None; a rejection changes nothing; creates a ticket exactly when the order id is present and the verifier returns a record, and then appends one row with the verifier's package and amount, the fallback event code and the order id |
| Service.ApiRedeem | app.py:152-184 | missing_code/400 exactly for a blank code (as decoded, so also for a body that does not decode), checked before any lookup; unknown_code/404 exactly for a non-blank code no row has; redeemable exactly for a non-blank code some row has, with the fields of the row with that code and its package's extras, which are null and false when the package is not in the catalog; read-only |
| Service.ApiSessionComplete | app.py:186-204 | missing_code/400 exactly for a blank code (as decoded, so also for a body that does not decode) and unknown_code/404 exactly for an unknown one; a 500 exactly when the code is known but a session id or image url is an integer sqlite3 cannot bind; each of these changes nothing; completed exactly when the code is known and both values bind, and then the table becomes the mark-used update with the body's session id and image url, and the ticket is USED |
| Service.LimitParsing | app.py:211-214 | a limit written as an integer of at most 4300 digits is taken as written; a longer one, a missing one, a malformed one, or one holding any of the separators U+001C–U+001F (which `int()` does not skip although `strip()` does) becomes 50 |
| Service.NewestFirstOrder | app.py:216-227 | the query lists rows in strictly descending id order, exactly min(limit, row count) of them for a non-negative limit and all of them otherwise, and a row is listed exactly when it is among the newest |
| Service.DebugTickets | app.py:206-237 | returns the parsed limit and, for each row of the newest-first query in order, its selected columns and its package's name, or its package id when the package is unknown |
| Service.SummarizeAll | app.py:231-234 | the loop over the queried rows gives one summary per row, in the query's order |
| PyText.StripBlank | app.py:158-159 | a code is blank after stripping exactly when every character is whitespace |
| PyText.StripIsTrimmedSlice | app.py:158 | the stripped code is a contiguous part of the input with no whitespace at either end, and everything dropped before and after it is whitespace |
| PyText.IntRoundTrip | app.py:212 | `int(str(i)) == i` for every integer that `str()` accepts, i.e. of at most 4300 digits |
| PyText.LongIntIsNotInt | app.py:211-214 | the decimal writing of an integer of more than 4300 digits is refused by `int()` |
| PyText.SeparatorIsNotInt | app.py:211-214 | a string holding any of U+001C–U+001F is refused by `int()`, even though `strip()` removes that character |
| Service.RequestData | app.py:157 | the handler sees the body as sent, or `{}`; it sees `{}` exactly when the body holds an integer of more than 4300 digits; every integer it sees can be written by `str()` |
| Service.UndecodableBodyIsEmpty | app.py:191-197 | an integer of more than 4300 digits under any key makes the ticket code blank and every field missing, so both Mirror endpoints answer missing_code/400 |
| PyText.BlankIsNotInt | app.py:211-214 | a blank `limit` is not an integer, so it falls back to 50 |
| Keypad.KeyAppends | static/js/main.js:49-52 | a key appends itself when the value has fewer than six characters, and otherwise leaves it unchanged |
| Keypad.KeyBeforeAction | static/js/main.js:49-53 | a button with a `data-key` acts as a key whatever its `data-action` |
| Keypad.BackRemovesLast | static/js/main.js:53-54 | `back` removes exactly the last character, and an empty value stays empty |
| Keypad.ClearEmpties | static/js/main.js:55-56 | `clear` empties the value |
| Keypad.IgnoredClicks | static/js/main.js:41-57 | a click outside the keys, or on a button with no key and no known action, changes nothing |
| Keypad.DigitThenBack | static/js/main.js:49-54 | below six characters, a digit followed by `back` restores the value |
| Keypad.RunStaysWithinCap | static/js/main.js:49-52 | with single-character keys, a value of at most six characters stays at most six after any sequence of clicks |
| Keypad.LongKeyPassesCap | static/js/main.js:50-51 | the cap is checked before appending, so a two-character key pressed at five characters gives seven |
| Keypad.CodeInput.OnClick | static/js/main.js:41-60 | the field's new value is the step function of the old value and the click, and stays at most six for a single-character key |

## Left out

- Codes.GenerateCode: the random source is a finite sequence of draws that contains a free code. A run in which every draw collides, where `generate_code` loops forever, is not modelled. Every issuing member inherits this precondition.
- Models.FindByCode: `LIMIT 1` without `ORDER BY` does not fix which matching row SQLite returns. The model states only "a row with the code". Under the table invariant, exactly one row has it.
- Models.TicketStore.CreateTicket: the concurrent check-then-insert race is not modelled. The model is sequential, so uniqueness holds between requests.
- The `created_at` column and its `datetime('now')` default. The clock is outside the model.
- The float `amount_dollars` of the debug view. Floating point is not modelled.
- Package catalog and settings loading from YAML. The catalog and the default event code are inputs. A settings file that sets `DEFAULT_EVENT_CODE` to null is not modelled.
- The payment verifier's body, `payments_square.py`. It is a function parameter, since its stub always returns None.
- Flask rendering, `flash`, `redirect` and `url_for`. Only the outcome of each handler is modelled.
- The routes `home`, `prepay`, `ticket_view` and `enter_code`. They only render pages.
- The sqlite connection, commit and close plumbing, and the unused `events` table.
- JSON request bodies that are not objects. A non-empty list makes `data.get` raise, which Flask answers with 500.
- JSON floats, lists and objects as field values. A float code would become its `repr`, and a list or object bound as a session id makes sqlite raise.
- Service.LimitFor: a `limit` of at most 4300 digits but outside SQLite's 64-bit integer range makes the query raise. The model lists rows as for any other limit.
- Models.TicketStore.CreateTicket: an `amount_cents` outside SQLite's 64-bit range, from the catalog or the verifier, would make the insert raise. The model appends the row.
- `int()` of non-ASCII Unicode digits.
- Service.ApiRedeem: a JSON string holding an unpaired surrogate (`"\ud800"`) decodes in Python, but sqlite3 cannot bind it, so the lookup raises and the handler answers 500. Dafny's `char` cannot hold a surrogate, so such bodies cannot be represented, and the contract's unknown_code and redeemable cases do not cover them.
- Service.ApiSessionComplete: a ticket code, `session_id` or `image_url` holding an unpaired surrogate makes sqlite3 raise at the lookup or the UPDATE, and the handler answers 500. Such strings cannot be represented in the model, so its 500 case covers only out-of-range integers.
- Keypad: the idle-timeout redirect and `input.focus()`. These are DOM events and timers.
- Keypad: JavaScript string length counts UTF-16 code units. The model counts characters.
