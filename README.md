# SusuPay in Dafny

SusuPay digitises susu, the rotating savings scheme run in Ghana. A
collector keeps a group of clients. Each client pays a regular
contribution by MTN Mobile Money and proves it with the confirmation SMS or
a screenshot. The collector confirms, queries or rejects each payment. The
collector pays clients out in a fixed rotation, and a client may ask for a
payout from their balance. This project models the core of the backend
services and the standalone helpers of the web frontend, and proves what
they promise.

Conventions used throughout:

- money is integer pesewas (hundredths of a cedi);
- dates are day ordinals with 1 January of year 1 as day 1;
- instants are whole seconds on one UTC time line;
- the clock, random draws and calls into libraries not modelled here
  (`json.loads`, `atob`, `localeCompare`, `toLocaleDateString`) are
  parameters.

Modules, one per source file or component:

- `SmsParser` (`sms_parser.py`): the five field scanners of the MTN
  confirmation text, the 12-hour clock conversion and the confidence grade.
  Each pattern is a scanner at one start index; `Search` tries start
  indices from left to right, as a regular-expression search does.
- `SmsExamples` (the parser's tests): the standard confirmation SMS parsed
  end to end.
- `Validator` (`validator.py`): the duplicate, recipient-phone and 48-hour
  checks and the trust level they give.
- `Ledger` (the tables and constraints of the initial schema): collectors,
  clients, transactions and payouts in a `Database` class with one
  sequence per table. Ids are positions in a table. The class invariant
  holds the foreign keys, phone uniqueness per collector and uniqueness of
  non-null MTN transaction ids.
- `Transactions` (`transaction_service.py`): the four submissions, the
  confirm/query/reject state machine, the ownership lookups and the three
  listings.
- `Balance` (the `client_balances` view and `balance_service.py`): confirmed
  deposits minus completed payouts, for active clients only.
- `Payouts` (`payout_service.py`): the request gated by the balance, and the
  REQUESTED → APPROVED → COMPLETED and REQUESTED → DECLINED transitions.
- `Schedule` (`schedule_service.py`): the rotation schedule, a client's
  summary of it, and the bulk rewrite of positions.
- `Ussd` (`ussd_service.py`): phone normalisation and the menu state
  machine over a session store held in a `SessionStore` class.
- `Analytics` (`analytics_service.py`): contribution periods, payment
  classification, the per-collector tally, and a client's streak and group
  progress.
- `Reports` (`report_service.py`): the monthly group summary and the client
  statement with its running balance.
- `Auth` (`auth_service.py`): invite codes and one-time passwords.
- `Config` (`config.py`): reading of the `CORS_ORIGINS` setting.
- `ScheduleEditor`, `DatePicker`, `Badge`, `TransactionCard`, `PinInput`,
  `OtpInput`, `PhoneInput`, `PushNotifications`: the frontend page and
  components of the same names, and the push-notification hook.
- Shared modules: `Wrappers` (Option and Result), `Text` (character classes,
  strip, filter, split, join, numerals), `Calendar` (the proleptic Gregorian
  calendar of Python's `date`) and `Sorting` (filters, stable sort by key,
  pages and sums, which stand for the SQL `WHERE`, `ORDER BY`,
  `OFFSET`/`LIMIT` and `SUM` of the services).

## Model

| member | source | states |
|---|---|---|
| SmsParser.RunEnd | susupay-backend/app/services/sms_parser.py:19-23 | the end of the longest run from `j` whose characters all satisfy the class, stopping at the end or at the first character outside it (a greedy `+`/`*`) |
| SmsParser.Search | susupay-backend/app/services/sms_parser.py:44 | `re.search`: a result is the match at some start index, and there is none exactly when no start index matches |
| SmsParser.SearchIsLeftmost | susupay-backend/app/services/sms_parser.py:44 | the match returned is the one at the least start index that matches |
| SmsParser.AfterWordAndSpaces | susupay-backend/app/services/sms_parser.py:19-23 | a keyword matched case-insensitively followed by at least one white-space character (`word\s+`) |
| SmsParser.AmountAt | susupay-backend/app/services/sms_parser.py:19 | a match of `sent\s+GHS\s?([\d,]+\.?\d*)` gives digits and commas, then an optional point and digits |
| SmsParser.FractionHundredths | susupay-backend/app/services/sms_parser.py:46 | the fraction digits read to hundredths, at most 100 |
| SmsParser.AmountValue | susupay-backend/app/services/sms_parser.py:46 | `float` of the capture without commas fails exactly when there is no digit at all; otherwise the amount lies between the whole cedis of the comma-free digits and one cedi more, is exactly those cedis without a fraction, and is cedis and pesewas for a two-digit fraction |
| SmsParser.CommasIgnored | susupay-backend/app/services/sms_parser.py:46 | the amount of a capture is the amount of the same capture with its commas removed |
| SmsParser.AmountWithCommas | susupay-backend/app/services/sms_parser.py:46 | "1,500.00" reads as 1500 cedis (150000 pesewas) |
| SmsParser.AmountWithoutFraction | susupay-backend/app/services/sms_parser.py:46 | "100" reads as 100 cedis |
| SmsParser.AmountWithoutDigits | susupay-backend/app/services/sms_parser.py:46 | a capture of commas alone (with or without a point) is not a number |
| SmsParser.NameAt | susupay-backend/app/services/sms_parser.py:20-51 | the recipient name holds letters and white space only and has nothing left to strip |
| SmsParser.NameAfterTo | susupay-backend/app/services/sms_parser.py:20-51 | the lazy capture between "to" and "(" is letters and white space, stripped |
| SmsParser.StrippedName | susupay-backend/app/services/sms_parser.py:51 | stripping a run of name characters keeps name characters and is idempotent |
| SmsParser.PhoneAt | susupay-backend/app/services/sms_parser.py:21 | a captured phone is "0" followed by nine digits |
| SmsParser.TransactionIdSpan | susupay-backend/app/services/sms_parser.py:22 | the id is the whole alphanumeric run after the label and its separators, never followed by another letter or digit |
| SmsParser.TransactionIdAt | susupay-backend/app/services/sms_parser.py:22-61 | a captured id is non-empty and alphanumeric |
| SmsParser.DateTextAt | susupay-backend/app/services/sms_parser.py:23 | a captured date text is two-digit day and month, four-digit year, hour and minute digits and AM/PM |
| SmsParser.DateFieldsAt | susupay-backend/app/services/sms_parser.py:23 | the day, month and year after the separator are two, two and four digits, and the clock part gives one or two hour digits and two minute digits |
| SmsParser.ClockTextAt | susupay-backend/app/services/sms_parser.py:23 | `\d{1,2}:\d{2}`: one or two hour digits, two minute digits |
| SmsParser.To24Hour | susupay-backend/app/services/sms_parser.py:26-67 | `%I %p`: an hour 1..12 maps into 0..23, PM exactly when the result is 12 or more, same hour modulo 12 |
| SmsParser.To24HourInjective | susupay-backend/app/services/sms_parser.py:26-67 | two 12-hour readings giving the same 24-hour hour are the same reading |
| SmsParser.ClockExamples | susupay-backend/app/services/sms_parser.py:26 | 10 AM is 10, 3 PM is 15, 12 AM is 0, 12 PM is 12 |
| SmsParser.ConvertDate | susupay-backend/app/services/sms_parser.py:66-69 | `strptime` succeeds exactly when month, day (for that month), year, hour and minute are in range, and then yields a valid date and time |
| SmsParser.DateIn | susupay-backend/app/services/sms_parser.py:64-69 | the date is `strptime` of the leftmost syntactic match: none without a match, and a valid calendar date when found |
| SmsParser.LeftmostDateDecides | susupay-backend/app/services/sms_parser.py:64-69 | the match at the least matching index alone decides the date |
| SmsParser.LaterDateIgnored | susupay-backend/app/services/sms_parser.py:64-69 | a first date stamp with an impossible calendar value leaves the date null even when a later stamp converts |
| SmsParser.FilledCount | susupay-backend/app/services/sms_parser.py:72-82 | the number of fields found is at most five |
| SmsParser.ParseSms | susupay-backend/app/services/sms_parser.py:40-85 | parsing fails exactly when an amount capture has no digit (the `float` error); otherwise the amount is the value of the leftmost amount capture, name, phone and id are the leftmost matches of their patterns, the date is the leftmost date match converted, and the raw text is kept |
| SmsParser.ConfidenceThresholds | susupay-backend/app/services/sms_parser.py:83 | HIGH exactly when all five fields are found, PARTIAL for three or four, FAILED for at most two |
| SmsParser.ParsedPhoneShape | susupay-backend/app/services/sms_parser.py:21-56 | a parsed recipient phone has the local ten-digit form |
| SmsParser.KeywordCaseInsensitive | susupay-backend/app/services/sms_parser.py:44 | `re.IGNORECASE`: a keyword matches the text exactly when it matches the lower-cased text |
| SmsExamples.StandardAmount | susupay-backend/tests/test_sms_parser.py:6-15 | the standard SMS's leftmost amount capture is "20" and "00", which is 20.00 cedis |
| SmsExamples.StandardName | susupay-backend/tests/test_sms_parser.py:6-16 | its recipient is "Ama Owusu" |
| SmsExamples.StandardPhone | susupay-backend/tests/test_sms_parser.py:6-17 | its recipient phone is 0244123456 |
| SmsExamples.StandardId | susupay-backend/tests/test_sms_parser.py:6-18 | its transaction id is 8675309ABC |
| SmsExamples.StandardDate | susupay-backend/tests/test_sms_parser.py:6-19 | its date is 22 February 2025, 10:34 |
| SmsExamples.StandardSms | susupay-backend/tests/test_sms_parser.py:6-19 | the whole parse of the standard SMS: all five fields with those values and HIGH confidence |
| Validator.ValidateSubmission | susupay-backend/app/services/validator.py:28-78 | auto-reject exactly for a duplicate MTN id (with its reason, no flags); otherwise the phone flag exactly on a mismatch, the date flag exactly when older than 48 hours, with the age in whole days, phone flag first, and HIGH trust exactly when no flag was raised |
| Ledger.Database.constructor | susupay-backend/alembic/versions/0001_initial_schema.py:20-118 | a fresh database has four empty tables and satisfies every key and unique constraint |
| Ledger.ClientForCollector | susupay-backend/app/services/transaction_service.py:344-359 | a client is found exactly when a row with that id belongs to that collector; otherwise "client not found" |
| Ledger.TransactionForCollector | susupay-backend/app/services/transaction_service.py:376-391 | a transaction is found exactly when a row with that id belongs to that collector, and it is that row; otherwise "transaction not found" |
| Ledger.PayoutForCollector | susupay-backend/app/services/payout_service.py:181-196 | a payout is found exactly when a row with that id belongs to that collector, and it is that row; otherwise "payout not found" |
| Ledger.TenantIsolation | susupay-backend/app/services/transaction_service.py:382-387 | no transaction can be reached by two different collectors |
| Ledger.AppendKeepsTxnIdsUnique | susupay-backend/alembic/versions/0001_initial_schema.py:81-87 | adding a row whose MTN id is not yet taken keeps the partial unique index satisfied |
| Ledger.AppendKeepsConsistent | susupay-backend/alembic/versions/0001_initial_schema.py:54-87 | appending a linked transaction with a fresh MTN id keeps every table constraint |
| Ledger.UpdateKeepsConsistent | susupay-backend/alembic/versions/0001_initial_schema.py:54-87 | rewriting a transaction without changing its keys or MTN id keeps every table constraint |
| Ledger.UpdatePayoutKeepsConsistent | susupay-backend/alembic/versions/0001_initial_schema.py:89-105 | rewriting a payout without changing its keys keeps every table constraint |
| Balance.ClientBalances | susupay-backend/alembic/versions/0001_initial_schema.py:121-145 | the view has one row per active client, with deposits the sum of CONFIRMED amounts, payouts the sum of COMPLETED amounts, and balance their difference |
| Balance.ActiveClientsAppear | susupay-backend/alembic/versions/0001_initial_schema.py:131-144 | a client has a row in the view exactly when it exists and is active |
| Balance.FindRow | susupay-backend/app/services/balance_service.py:10-17 | the first row with the client id, or none exactly when no row has it |
| Balance.GetClientBalance | susupay-backend/app/services/balance_service.py:8-32 | an active client gets its name, totals and balance = deposits - payouts; an unknown or inactive one gets zeros and an empty name |
| Balance.GetAllClientBalances | susupay-backend/app/services/balance_service.py:35-55 | every row returned is an active client of the collector, carrying the same figures as its single-client balance |
| Balance.AllBalancesComplete | susupay-backend/app/services/balance_service.py:35-55 | every active client of the collector appears in the listing |
| Balance.NothingSettledMeansZero | susupay-backend/alembic/versions/0001_initial_schema.py:128-129 | `COALESCE`: with no confirmed deposit and no completed payout both totals are 0 |
| Balance.SubmissionKeepsDeposits | susupay-backend/alembic/versions/0001_initial_schema.py:133-136 | a new row that is not CONFIRMED does not change any client's deposits |
| Balance.StatusChangeDeposits | susupay-backend/alembic/versions/0001_initial_schema.py:133-136 | a status change of an unconfirmed row raises the client's deposits by its amount exactly when it becomes CONFIRMED |
| Balance.OtherClientsDepositsKept | susupay-backend/alembic/versions/0001_initial_schema.py:133-137 | changing one client's transaction leaves every other client's deposits as they were |
| Balance.RequestKeepsPayouts | susupay-backend/alembic/versions/0001_initial_schema.py:139-142 | a REQUESTED payout does not change the payouts total |
| Balance.StatusChangePayouts | susupay-backend/alembic/versions/0001_initial_schema.py:139-142 | a status change of an uncompleted payout raises the payouts total by its amount exactly when it becomes COMPLETED |
| Transactions.RecordSms | susupay-backend/app/services/transaction_service.py:31-61 | an unreadable amount leaves the table as it was; otherwise one row is appended, AUTO_REJECTED without an MTN id for a duplicate and PENDING otherwise |
| Transactions.StoreSms | susupay-backend/app/services/transaction_service.py:37-59 | the appended row carries the parsed amount (0 when none), the stored MTN id, SMS_TEXT, the trust level, the flags (none when empty) and the raw text |
| Transactions.SubmitSms | susupay-backend/app/services/transaction_service.py:21-61 | a client of another collector gives "client not found" and stores nothing; success exactly when the client is the collector's and the SMS parses |
| Transactions.SubmitSmsAsClient | susupay-backend/app/services/transaction_service.py:64-97 | the client's own collector validates and receives the row; success exactly when the SMS parses |
| Transactions.RecordScreenshot | susupay-backend/app/services/transaction_service.py:109-122 | appends exactly one PENDING, LOW-trust SCREENSHOT row with the amount and key |
| Transactions.SubmitScreenshot | susupay-backend/app/services/transaction_service.py:125-148 | success exactly when the client belongs to the collector, and then exactly one screenshot row is appended |
| Transactions.SubmitScreenshotAsClient | susupay-backend/app/services/transaction_service.py:100-122 | exactly one screenshot row is appended for the client's collector |
| Transactions.SmsSubmissionKeepsIdsUnique | susupay-backend/app/services/transaction_service.py:43-44 | an SMS submission never stores an MTN id that is already taken, so the unique index holds afterwards |
| Transactions.Transition | susupay-backend/app/services/transaction_service.py:253-306 | a state change keeps the evidence (ids, amount, MTN id, trust, flags, text, time); a refusal names the status it refused |
| Transactions.TerminalIsFinal | susupay-backend/app/services/transaction_service.py:261-299 | CONFIRMED, REJECTED and AUTO_REJECTED entries accept no action |
| Transactions.TransitionEdges | susupay-backend/app/services/transaction_service.py:253-306 | the only moves are PENDING or QUERIED to CONFIRMED (stamped now), PENDING to QUERIED and QUERIED to REJECTED (with the note) |
| Transactions.RejectNeedsQuery | susupay-backend/app/services/transaction_service.py:280-303 | a PENDING entry cannot be rejected directly, but can after a query |
| Transactions.Perform | susupay-backend/app/services/transaction_service.py:253-306 | the entry is rewritten in place exactly when lookup and transition succeed; otherwise nothing changes |
| Transactions.ForeignEntryNotFound | susupay-backend/app/services/transaction_service.py:376-391 | acting on another collector's entry gives "transaction not found" |
| Transactions.ConfirmTransaction | susupay-backend/app/services/transaction_service.py:253-268 | confirm, as the generic action with the confirm edge |
| Transactions.QueryTransaction | susupay-backend/app/services/transaction_service.py:271-287 | query with the note, as the generic action |
| Transactions.RejectTransaction | susupay-backend/app/services/transaction_service.py:290-306 | reject with the note, as the generic action |
| Transactions.QueryPage | susupay-backend/app/services/transaction_service.py:163-179 | the total counts every matching row; the page is the window of the matching rows sorted by key, at most `limit` long |
| Transactions.GetPendingFeed | susupay-backend/app/services/transaction_service.py:151-197 | the collector's PENDING entries, oldest first, one page, each with its client's name, and the full count |
| Transactions.GetCollectorTransactions | susupay-backend/app/services/transaction_service.py:200-250 | the collector's entries except AUTO_REJECTED, optionally of one status, newest first, one page, with names and the full count |
| Transactions.GetClientHistory | susupay-backend/app/services/transaction_service.py:309-341 | the client's entries except AUTO_REJECTED, optionally of one status, newest first, one page, and the full count |
| Payouts.RequestCheck | susupay-backend/app/services/payout_service.py:31-36 | a request is allowed exactly when the balance is positive and covers the amount; otherwise "no available balance" or "exceeds balance" |
| Payouts.RequestPayout | susupay-backend/app/services/payout_service.py:20-49 | refused exactly as the check says (nothing stored); otherwise one REQUESTED payout for the client's collector is appended |
| Payouts.RequestsAreNotReserved | susupay-backend/app/services/payout_service.py:28-36 | a request does not lower the balance, so the same request passes the check again |
| Payouts.PayoutTransition | susupay-backend/app/services/payout_service.py:52-104 | a state change keeps ids, amount, type and request time; a refusal names the status it refused |
| Payouts.SettledIsFinal | susupay-backend/app/services/payout_service.py:60-97 | DECLINED and COMPLETED payouts accept no action |
| Payouts.PayoutTransitionEdges | susupay-backend/app/services/payout_service.py:52-104 | the only moves are REQUESTED to APPROVED (stamped), REQUESTED to DECLINED (with the reason) and APPROVED to COMPLETED (stamped) |
| Payouts.CompleteNeedsApproval | susupay-backend/app/services/payout_service.py:60-100 | a REQUESTED payout cannot be completed directly, but can after approval |
| Payouts.ForeignPayoutNotFound | susupay-backend/app/services/payout_service.py:181-196 | acting on another collector's payout gives "payout not found" |
| Payouts.CompletionLowersBalance | susupay-backend/app/services/payout_service.py:100 | only a completion changes the client's payouts total, raising it by the amount |
| Payouts.PerformPayout | susupay-backend/app/services/payout_service.py:52-104 | the payout is rewritten in place exactly when lookup and transition succeed; otherwise nothing changes |
| Payouts.ApprovePayout | susupay-backend/app/services/payout_service.py:52-67 | approve, as the generic action |
| Payouts.DeclinePayout | susupay-backend/app/services/payout_service.py:70-86 | decline with the reason, as the generic action |
| Payouts.CompletePayout | susupay-backend/app/services/payout_service.py:89-104 | complete, as the generic action |
| Schedule.CurrentCycle | susupay-backend/app/services/schedule_service.py:44-49 | 0 before the cycle start; otherwise the number of whole cycles elapsed, so that today lies in that cycle |
| Schedule.GetRotationSchedule | susupay-backend/app/services/schedule_service.py:11-75 | no schedule exactly when the collector is unknown, has no cycle start or has no active positioned client; otherwise exactly as many entries as such clients, each such client's id on an entry and every entry such a client's, in position order, the cycle length being that count times the interval, dated within the current cycle, with the current and completed marks as the source computes them |
| Schedule.BuildSchedule | susupay-backend/app/services/schedule_service.py:40-75 | the cycle length is the number of entries times the interval, and entry k is dated `(position - 1) * interval` days after the current cycle's start |
| Schedule.BuiltScheduleShape | susupay-backend/app/services/schedule_service.py:26-67 | a schedule built from the positioned clients in position order has the whole schedule shape |
| Schedule.BuiltListsEveryClient | susupay-backend/app/services/schedule_service.py:26-67 | built from a permutation of the selected clients, the schedule has as many entries as selected clients and an entry for each of them |
| Schedule.PositionedEntries | susupay-backend/app/services/schedule_service.py:55-67 | each entry belongs to an active client of the collector with that position and name |
| Schedule.SlotHolds | susupay-backend/app/services/schedule_service.py:57-59 | a day inside the cycle falls in the slot `day / interval` |
| Schedule.SlotUnique | susupay-backend/app/services/schedule_service.py:59 | a day falls in at most one slot |
| Schedule.ExactlyOneCurrent | susupay-backend/app/services/schedule_service.py:59 | once the cycle has started and positions are 1..N, exactly one entry is current |
| Schedule.CurrentIsNotCompleted | susupay-backend/app/services/schedule_service.py:58-66 | no entry is both current and completed, and every past-dated entry is one of the two |
| Schedule.GetClientScheduleSummary | susupay-backend/app/services/schedule_service.py:78-116 | the empty summary exactly when there is no schedule or no position; otherwise the total of positions is the number of active positioned clients, and the summary gives the client's own date, the days until it when not past, the current recipient and the first recipient dated after today |
| Schedule.Summarize | susupay-backend/app/services/schedule_service.py:94-116 | a positioned client's summary has a schedule, the client's position, the entry count and interval of the schedule, and the date, days-left and recipient fields below |
| Schedule.MyPayoutDate | susupay-backend/app/services/schedule_service.py:97-105 | no date exactly when no entry is the client's; otherwise the date on one of the client's entries |
| Schedule.CurrentName | susupay-backend/app/services/schedule_service.py:98-112 | no name exactly when no entry is marked current |
| Schedule.NextName | susupay-backend/app/services/schedule_service.py:100-113 | no name exactly when every entry is dated today or earlier; otherwise the name on the first entry dated after today |
| Schedule.Positions | susupay-backend/app/services/schedule_service.py:137 | the positions of the list, in list order |
| Schedule.OneTo | susupay-backend/app/services/schedule_service.py:138 | the list 1..N |
| Schedule.RotationCheck | susupay-backend/app/services/schedule_service.py:126-157 | an empty list always passes; otherwise the sorted positions must be exactly 1..N (error carries them) and every client must be the collector's |
| Schedule.LastAssignment | susupay-backend/app/services/schedule_service.py:168-173 | the last list entry naming the client, since later updates overwrite earlier ones |
| Schedule.SetRotationOrder | susupay-backend/app/services/schedule_service.py:119-175 | refused exactly as the check says, with nothing changed; otherwise the collector's positions are cleared and each listed client ends with its last listed position |
| Schedule.WriteOneMore | susupay-backend/app/services/schedule_service.py:168-173 | writing one more list entry updates only that client's position |
| Schedule.StrictlyIncreasingCountsOnce | susupay-backend/app/services/schedule_service.py:143 | a strictly increasing list holds each value at most once |
| Schedule.RepeatCountsTwice | susupay-backend/app/services/schedule_service.py:143 | a repeated value is counted twice |
| Schedule.ContiguousHasNoDuplicates | susupay-backend/app/services/schedule_service.py:136-144 | positions that sort to 1..N hold no duplicate, so the duplicate check can never fire |
| Schedule.ReassignedKeepsConsistent | susupay-backend/app/services/schedule_service.py:159-173 | rewriting with distinct positions keeps the unique index on (collector, position) and every other table constraint |
| Schedule.RewriteOutcome | susupay-backend/app/services/schedule_service.py:159-173 | only positions change; other collectors' clients are untouched, unlisted clients lose their position, listed ones get their last listed position |
| Schedule.RewriteIdempotent | susupay-backend/app/services/schedule_service.py:119-175 | saving the same list twice gives the same table and the same verdict as saving it once |
| Schedule.RepeatedClientLeavesGap | susupay-backend/app/services/schedule_service.py:136-173 | the list [(a,1),(a,2)] passes the check, yet no client of the collector ends at position 1 |
| Ussd.SessionStore.constructor | susupay-backend/app/services/ussd_service.py:27-28 | the session store starts empty |
| Ussd.SessionStore.Save | susupay-backend/app/services/ussd_service.py:42-45 | saving replaces the session stored under the id and nothing else |
| Ussd.SessionStore.Load | susupay-backend/app/services/ussd_service.py:48-52 | loading gives the stored session, or none exactly when the id has none |
| Ussd.SessionStore.Delete | susupay-backend/app/services/ussd_service.py:55-56 | deleting removes the id and nothing else |
| Ussd.NormalizePhone | susupay-backend/app/services/ussd_service.py:31-35 | "233…" of at least 12 characters becomes "0" and the rest (two characters shorter); anything else is kept |
| Ussd.NormalizeIdempotent | susupay-backend/app/services/ussd_service.py:31-35 | normalising twice is normalising once |
| Ussd.NormalizeInternational | susupay-backend/app/services/ussd_service.py:31-35 | "233" and nine digits becomes the local ten-digit form |
| Ussd.NormalizeExample | susupay-backend/app/services/ussd_service.py:31-35 | "233244900002" becomes "0244900002" |
| Ussd.IndexOfPoint | susupay-backend/app/services/ussd_service.py:207 | the first '.' of the text, or none exactly when there is none |
| Ussd.ParseWholeAmount | susupay-backend/app/services/ussd_service.py:207 | `Decimal` reads a whole numeral, with or without a minus sign, as that many cedis |
| Ussd.ParseAmountWithPesewas | susupay-backend/app/services/ussd_service.py:207 | `Decimal` reads a numeral with two decimals as cedis and pesewas |
| Ussd.PayoutAmountCheck | susupay-backend/app/services/ussd_service.py:205-224 | not a number gives "invalid amount", zero or less "must be greater than zero", more than the balance "insufficient"; an accepted amount also passes the payout request check |
| Ussd.Take | susupay-backend/app/services/ussd_service.py:157 | `[:n]`: a prefix of at most n elements, exactly n when there are enough |
| Ussd.RecentConfirmed | susupay-backend/app/services/ussd_service.py:155-157 | at most five entries, all CONFIRMED and from the history, the first ones of the confirmed entries in history order |
| Ussd.HistoryOptionAlwaysFails | susupay-backend/app/services/ussd_service.py:156-157 | iterating the history dict meets its first key "items" and fails on `.status`; iterating its rows would keep the confirmed ones |
| Ussd.RowsConfirmed | susupay-backend/app/services/ussd_service.py:157 | filtering the rows themselves keeps exactly the CONFIRMED ones, in order |
| Ussd.HandleInitiation | susupay-backend/app/services/ussd_service.py:93-114 | an unknown phone is released with nothing stored; the phone of one client opens a session at the main menu; a phone of several clients raises |
| Ussd.HandleMainMenu | susupay-backend/app/services/ussd_service.py:135-195 | 1 releases with the name and balance, 2 with the recent confirmed payments (or "no transactions"), 3 moves the session to the amount stage, 4 releases with the collector's name and phone, 0 ends the session, anything else shows the menu again (option 2 corrected; as written: Ussd.HistoryOptionAlwaysFails, see ## Findings) |
| Ussd.HandlePayoutAmount | susupay-backend/app/services/ussd_service.py:198-243 | a refused amount releases with its reason and changes nothing; an accepted one appends an EMERGENCY "USSD request" payout and ends the session |
| Ussd.HandleResponse | susupay-backend/app/services/ussd_service.py:117-132 | no session: "session expired"; otherwise the trimmed message goes to the stage's handler, and an unknown stage is released as invalid |
| Ussd.HandleUssd | susupay-backend/app/services/ussd_service.py:77-90 | dispatch on the request type; an Initiation has the initiation outcome; a Response succeeds with the whole response outcome (session expired, the main-menu or amount-stage outcome, or an invalid stage); Release and Timeout delete the session; an unknown type is released as invalid; only a Response can create a payout |
| Analytics.ClassifyPayment | susupay-backend/app/services/analytics_service.py:74-82 | with nothing due, PAID exactly when something came in; otherwise UNPAID for nothing, PARTIAL below, PAID at and OVERPAID above the contribution |
| Analytics.PaidMeansCovered | susupay-backend/app/services/analytics_service.py:74-122 | PAID or OVERPAID exactly when the contribution was covered (or, with nothing due, anything came in) |
| Analytics.MondayOnOrBefore | susupay-backend/app/services/analytics_service.py:28 | `d - d.weekday()` is a Monday |
| Analytics.WeekStartUnique | susupay-backend/app/services/analytics_service.py:28 | the Monday on or before a day is the only Monday of its week |
| Analytics.GetCurrentPeriod | susupay-backend/app/services/analytics_service.py:17-48 | the period contains the day; WEEKLY is Monday to next Monday with the Monday-Sunday caption, MONTHLY the first of the month to the first of the next, anything else the day itself, "Today" |
| Analytics.PeriodExamples | susupay-backend/app/services/analytics_service.py:17-48 | the week of Monday 23 February 2026 starts that day; February 2026 runs from 1 February to 1 March |
| Analytics.PeriodPayments | susupay-backend/app/services/analytics_service.py:51-71 | a client is a key exactly when it has a CONFIRMED transaction of the collector confirmed in the period, and its value is the sum of those |
| Analytics.SelectTwice | susupay-backend/app/services/analytics_service.py:61-70 | filtering by the collector's period payments and then by client is filtering by the client's period payments |
| Analytics.PeriodPaymentsAgree | susupay-backend/app/services/analytics_service.py:264-355 | the group dictionary gives a client the same period sum as the client's own query |
| Analytics.ArrearsOf | susupay-backend/app/services/analytics_service.py:125-142 | one listed entry per client, carrying its name, the contribution, the payment, what remains and the status |
| Analytics.TallyClients | susupay-backend/app/services/analytics_service.py:105-142 | the counters and lists equal the counts and arrears of each status over the active clients, and the amount collected is the sum of their payments |
| Analytics.TallyStep | susupay-backend/app/services/analytics_service.py:113-142 | one more client moves exactly its own bucket and list |
| Analytics.BucketsPartition | susupay-backend/app/services/analytics_service.py:118-142 | each active client is in exactly one of paid, partial and unpaid; the overpaid are among the paid |
| Analytics.ArrearsOutstanding | susupay-backend/app/services/analytics_service.py:125-142 | a listed defaulter paid nothing and owes at least the contribution; a listed partial payer paid something and owes less than it |
| Analytics.GetCollectorAnalytics | susupay-backend/app/services/analytics_service.py:85-145 | the current period's tally of the collector's active clients, the buckets adding up to the number of clients, and the amount expected is the contribution times that number |
| Analytics.StepBack | susupay-backend/app/services/analytics_service.py:289-297 | one step back (a week, the first of the previous month, or a day) is a valid date |
| Analytics.BackDate | susupay-backend/app/services/analytics_service.py:286-297 | the date after j steps back is a valid date |
| Analytics.WeekStartOf | susupay-backend/app/services/analytics_service.py:28-30 | the week of a day starts its weekday number of days before it and lasts seven days |
| Analytics.WeekBackAdjacent | susupay-backend/app/services/analytics_service.py:290-299 | the week of the day a week earlier ends where this week starts |
| Analytics.WeekdayRepeats | susupay-backend/app/services/analytics_service.py:290 | days seven apart share their weekday (the weekday itself is computed at line 28) |
| Analytics.MonthBackAdjacent | susupay-backend/app/services/analytics_service.py:292-299 | the previous month ends where this month starts |
| Analytics.DayBackAdjacent | susupay-backend/app/services/analytics_service.py:297-299 | the previous day ends where this day starts |
| Analytics.StepBackAdjacent | susupay-backend/app/services/analytics_service.py:287-299 | for every frequency the period one step back ends where the current period starts |
| Analytics.StreakWindowsConsecutive | susupay-backend/app/services/analytics_service.py:284-312 | the periods the streak examines are consecutive, the first ending where the current one starts |
| Analytics.PaymentStreak | susupay-backend/app/services/analytics_service.py:284-312 | the streak n: at most 90, the n periods before the current one were each paid in full, and unless the cap was reached the next one back was not |
| Analytics.PreviousPeriodPaid | susupay-backend/app/services/analytics_service.py:287-306 | one step back from the check date of round i reaches the check date of round i + 1, and the amount is what the client had confirmed in that date's period |
| Analytics.PaidThroughAt | susupay-backend/app/services/analytics_service.py:307-310 | each period counted in the streak was paid in full |
| Analytics.StopsAtFirstGap | susupay-backend/app/services/analytics_service.py:307-312 | the count stops at the first period not paid in full, so two counts that both stop there are equal |
| Analytics.StreakUnique | susupay-backend/app/services/analytics_service.py:284-312 | the streak is determined by the payments |
| Analytics.NoStreakWithoutContribution | susupay-backend/app/services/analytics_service.py:309 | with nothing expected the streak is 0 |
| Analytics.GetClientAnalytics | susupay-backend/app/services/analytics_service.py:251-369 | the period status with the client's period sum, its classification and `max(0, expected - paid)` remaining; the streak; the month's deposits and expectation; the active group size and the group's paid count |
| Analytics.GroupPaidCanExceedTotal | susupay-backend/app/services/analytics_service.py:347-359 | a deactivated client who paid this period is counted as paid but not in the group total, so paid can exceed total |
| Reports.MonthWindow | susupay-backend/app/services/report_service.py:26-30 | the month runs from midnight of its first day for as many days as the month has |
| Reports.MonthsTile | susupay-backend/app/services/report_service.py:27-30 | each month's end is the next month's start, December included |
| Reports.ClientMonth | susupay-backend/app/services/report_service.py:33-93 | a client's row counts and sums its CONFIRMED deposits and COMPLETED payouts settled in the month, and its net is deposits less payouts |
| Reports.SummaryMatchesStatement | susupay-backend/app/services/report_service.py:33-93 | a client's net in the monthly summary is what the lines of the client's statement for that month move the balance by |
| Reports.GetMonthlySummary | susupay-backend/app/services/report_service.py:19-105 | one row per client of the collector (active or not), each the client's month figures; the grand totals are the sums of the rows and the net their difference |
| Reports.NetIsSumOfNets | susupay-backend/app/services/report_service.py:91-102 | the summary's net is also the sum of the clients' nets |
| Reports.DepositLines | susupay-backend/app/services/report_service.py:242-245 | one DEPOSIT line per deposit, at its confirmation time, adding up to the deposits' total |
| Reports.PayoutLines | susupay-backend/app/services/report_service.py:258-261 | one PAYOUT line per payout, at its completion time, taking away the payouts' total |
| Reports.StatementLinesOrdered | susupay-backend/app/services/report_service.py:264 | the statement lines are in date order and are exactly the month's deposit and payout lines |
| Reports.DepositsFirstAtSameInstant | susupay-backend/app/services/report_service.py:264 | Python's sort is stable: at the same instant deposits come before payouts, each in its query's order |
| Reports.StatementLinesNet | susupay-backend/app/services/report_service.py:231-264 | the lines move the balance by the month's deposits less its payouts |
| Reports.RunningBalance | susupay-backend/app/services/report_service.py:266-285 | each item keeps its line, has its description and carries the opening balance plus the lines so far; the closing balance adds all of them |
| Reports.GetClientStatement | susupay-backend/app/services/report_service.py:187-294 | another collector's client gives "not found"; otherwise the opening balance is everything settled before the month, the items run from it, and the closing balance adds the month's deposits less payouts |
| Reports.ClosingIsNextOpening | susupay-backend/app/services/report_service.py:212-292 | a month's closing balance is the next month's opening balance |
| Auth.SpacesToHyphens | susupay-backend/app/services/auth_service.py:38 | `replace(" ", "-")`: same length, every space becomes a hyphen and every other character is kept |
| Auth.Hyphenated | susupay-backend/app/services/auth_service.py:38 | the lower-cased, stripped, hyphenated name has no upper-case letter |
| Auth.LoweredHasNoUpper | susupay-backend/app/services/auth_service.py:38 | lower-casing first leaves no upper-case letter after stripping and hyphenating |
| Auth.Cut30 | susupay-backend/app/services/auth_service.py:42 | `[:30]`: a prefix of at most 30 characters, the whole text when it is that short |
| Auth.KeepSlugChars | susupay-backend/app/services/auth_service.py:40 | keeping alphanumerics and hyphens of a lower-case text leaves only lower-case letters, digits and hyphens, and drops nothing from such a text |
| Auth.TrimmedEnds | susupay-backend/app/services/auth_service.py:42 | `strip("-")` leaves no hyphen at either end and never lengthens the text |
| Auth.TrimmedChars | susupay-backend/app/services/auth_service.py:42 | `strip("-")` adds no character outside the slug alphabet, and empties a text of hyphens |
| Auth.TrimmedIsSlug | susupay-backend/app/services/auth_service.py:41-42 | stripping the hyphens of a 30-character cut of slug characters gives a slug |
| Auth.Slug | susupay-backend/app/services/auth_service.py:38-42 | the slug is at most 30 characters of lower-case ASCII letters, digits and hyphens, with no hyphen at either end |
| Auth.CutHasSlugChars | susupay-backend/app/services/auth_service.py:40-42 | cutting to 30 keeps the slug characters |
| Auth.HexDigit | susupay-backend/app/services/auth_service.py:43 | a value below 16 is one lower-case hexadecimal digit |
| Auth.HexValue | susupay-backend/app/services/auth_service.py:43 | reading a hexadecimal digit back gives the digit's value |
| Auth.TokenHex | susupay-backend/app/services/auth_service.py:43 | `token_hex(2)`: two bytes are four lower-case hexadecimal digits |
| Auth.TokenHexDecodes | susupay-backend/app/services/auth_service.py:43 | the four digits read back as the two bytes, high digit first |
| Auth.GenerateInviteCode | susupay-backend/app/services/auth_service.py:37-44 | the code is the slug, a hyphen and four hex digits: five characters longer than the slug |
| Auth.ParseInviteCode | susupay-backend/app/services/auth_service.py:44 | the inverse reading of a code: a slug five characters shorter and two bytes |
| Auth.ParseJoined | susupay-backend/app/services/auth_service.py:44 | reading back slug + "-" + hex gives the slug and the bytes |
| Auth.InviteCodeRoundTrip | susupay-backend/app/services/auth_service.py:37-44 | every generated code reads back as the name's slug and the random bytes, so different slugs or bytes give different codes |
| Auth.HyphenatedKeepsAll | susupay-backend/app/services/auth_service.py:38 | a property of every lowered character that hyphens also have survives stripping and hyphenating |
| Auth.NoAlnumMeansEmptySlug | susupay-backend/app/services/auth_service.py:40-44 | a name without letters or digits gives an empty slug, and the code starts with the hyphen |
| Auth.SlugCharIsNotSpace | susupay-backend/app/services/auth_service.py:38-40 | a slug character is not white space, not upper case, kept by the filter and unchanged by lower-casing |
| Auth.HyphenatedFixes | susupay-backend/app/services/auth_service.py:38 | a slug is unchanged by lower-casing, stripping and hyphenating |
| Auth.KeepsSlug | susupay-backend/app/services/auth_service.py:40-42 | a slug is unchanged by the filter and the cut |
| Auth.LowerFixes | susupay-backend/app/services/auth_service.py:38 | lower-casing leaves slug characters unchanged |
| Auth.SpacesFixes | susupay-backend/app/services/auth_service.py:38 | replacing spaces leaves slug characters unchanged |
| Auth.SlugOfHyphenated | susupay-backend/app/services/auth_service.py:38-42 | a name whose lower-cased, stripped, hyphenated form is already a slug has that slug |
| Auth.SlugFixes | susupay-backend/app/services/auth_service.py:38-42 | a slug is its own slug |
| Auth.SlugIdempotent | susupay-backend/app/services/auth_service.py:38-42 | taking the slug twice is taking it once |
| Auth.SameHyphenatedSameSlug | susupay-backend/app/services/auth_service.py:38-42 | names that agree after lower-casing, stripping and hyphenating have the same slug |
| Auth.LowerExample | susupay-backend/app/services/auth_service.py:38 | "Ama Owusu" lower-cases to "ama owusu" |
| Auth.HyphensExample | susupay-backend/app/services/auth_service.py:38 | "ama owusu" hyphenates to "ama-owusu" |
| Auth.HyphenatedExample | susupay-backend/app/services/auth_service.py:38 | "Ama Owusu" becomes "ama-owusu" in the first step |
| Auth.SlugExample | susupay-backend/app/services/auth_service.py:38-42 | the slug of "Ama Owusu" is "ama-owusu" |
| Auth.GenerateOtp | susupay-backend/app/services/auth_service.py:33-34 | `randbelow(900000) + 100000` is written as six digits without a leading zero, worth the draw plus 100000 |
| Auth.EveryOtpReachable | susupay-backend/app/services/auth_service.py:33-34 | every six-digit code from 100000 to 999999 is produced by exactly the draw `code - 100000` |
| Config.StrippedNonEmpty | susupay-backend/app/config.py:50 | the kept pieces are non-empty, have nothing left to strip, and are no more than the pieces |
| Config.KeptComesFromPiece | susupay-backend/app/config.py:50 | every kept origin is the stripped form of one of the pieces |
| Config.NonEmptyPieceKept | susupay-backend/app/config.py:50 | every piece whose stripped form is not empty is kept |
| Config.CommaOrigins | susupay-backend/app/config.py:50 | the comma form gives non-empty, stripped origins without commas |
| Config.StripAddsNothing | susupay-backend/app/config.py:50 | stripping never brings in a character the piece did not have |
| Config.ParseCorsOrigins | susupay-backend/app/config.py:39-51 | a list is passed on as it is; a string that parses as a JSON list gives that list; any other string gives its comma form |
| Config.CommaFormIsPieces | susupay-backend/app/config.py:42-50 | for a string that is not a JSON list, an origin is kept exactly when it is the non-empty stripped form of a comma-separated piece |
| Config.CommaListRoundTrip | susupay-backend/app/config.py:42-50 | clean origins joined with commas read back as the same list |
| Config.KeptAsIs | susupay-backend/app/config.py:50 | clean pieces are all kept, in order |
| Config.TwoPieces | susupay-backend/app/config.py:50 | "a.gh, b.gh" splits into "a.gh" and " b.gh" |
| Config.LeadingSpaceStripped | susupay-backend/app/config.py:50 | " b.gh" strips to "b.gh" |
| Config.TwoStripped | susupay-backend/app/config.py:50 | the two pieces strip to the two hosts |
| Config.TwoOriginsExample | susupay-backend/app/config.py:39-51 | the setting "a.gh, b.gh", not JSON, gives the two origins |
| Text.NatToString | susupay-backend/app/services/auth_service.py:34 | `str` of a non-negative integer: digits without a leading zero that read back as the number |
| Text.Lower | susupay-backend/app/services/auth_service.py:38 | `lower()`: same length, each character lower-cased |
| Text.StripIdempotent | susupay-backend/app/config.py:50 | `strip()` applied twice is applied once |
| Text.FilterShape | susupay-backend/app/services/auth_service.py:40 | a filter keeps only characters of the text that pass, and drops nothing from a text that passes throughout |
| Text.NumeralLength | susupay-frontend/src/components/ui/DatePicker.tsx:16-18 | a number with k digits is written with k characters |
| Text.Split | susupay-backend/app/config.py:50 | `split(",")`: at least one piece, none holding the separator |
| Text.JoinSplit | susupay-backend/app/config.py:50 | joining the pieces of a split gives the text back |
| Text.SplitJoin | susupay-backend/app/config.py:50 | splitting a join of separator-free pieces gives the pieces back |
| Sorting.Select | susupay-backend/app/services/transaction_service.py:158-161 | a `WHERE` filter keeps only rows that pass, taken from the table |
| Sorting.InsertPermutes | susupay-backend/app/services/report_service.py:264 | one insertion step of the sort adds its element and loses none |
| Sorting.SortBy | susupay-backend/app/services/report_service.py:264 | a sort by key is a permutation of its input |
| Sorting.SortBySorted | susupay-backend/app/services/report_service.py:264 | the sort is ordered by the key and a permutation |
| Sorting.SortByStable | susupay-backend/app/services/report_service.py:264 | the sort is stable: rows with the same key keep their order |
| Sorting.Page | susupay-backend/app/services/transaction_service.py:177-178 | `OFFSET skip LIMIT limit`: at most `limit` rows, row k being row `skip + k` |
| Sorting.PageOfSelection | susupay-backend/app/services/transaction_service.py:172-179 | a page of a filtered, sorted table holds only passing rows of the table, in key order |
| Sorting.SumSelectSplit | susupay-backend/app/services/report_service.py:212-238 | summing over two disjoint filters is summing over their union |
| Calendar.DaysInMonth | susupay-backend/app/services/analytics_service.py:323 | 28 to 31 days, 29 exactly in February of a leap year |
| Calendar.Weekday | susupay-backend/app/services/analytics_service.py:28 | `date.weekday()`: a number from 0 (Monday) to 6 |
| Calendar.YearLength | susupay-backend/app/services/analytics_service.py:36-39 | consecutive years' first days are a year's length apart |
| Calendar.MonthsFillYear | susupay-backend/app/services/analytics_service.py:36-39 | the months of a year add up to the year |
| Calendar.NextMonthStart | susupay-backend/app/services/analytics_service.py:36-39 | the first of the next month (January of the next year after December) is a valid date |
| Calendar.PrevMonthStart | susupay-backend/app/services/analytics_service.py:292-295 | the first of the previous month (December of the previous year after January) is a valid date |
| Calendar.NextMonthStartOrdinal | susupay-backend/app/services/analytics_service.py:34-40 | the next month starts the current month's length after the first |
| Calendar.PrevMonthStartOrdinal | susupay-backend/app/services/analytics_service.py:292-295 | the previous month ends where the current one starts |
| Calendar.AddDays | susupay-backend/app/services/analytics_service.py:290 | `d - timedelta(days=7)` and the like give a valid date |
| Calendar.AddDaysOrdinal | susupay-backend/app/services/analytics_service.py:290 | adding k days moves the ordinal by exactly k |
| Calendar.NextDayOrdinal | susupay-backend/app/services/analytics_service.py:45 | the next day is one ordinal later |
| Calendar.PrevDayOrdinal | susupay-backend/app/services/analytics_service.py:297 | the previous day is one ordinal earlier |
| Calendar.OrdinalInMonth | susupay-backend/app/services/analytics_service.py:34-40 | a day lies between the first of its month and the first of the next |
| ScheduleEditor.InitialOrder | susupay-frontend/src/pages/collector/Schedule.tsx:50-53 | the rotation first shown holds exactly the active clients with a position, each once, ordered by position |
| ScheduleEditor.InitialUnplaced | susupay-frontend/src/pages/collector/Schedule.tsx:50-54 | the unplaced list holds only active clients without a position |
| ScheduleEditor.InitialPartition | susupay-frontend/src/pages/collector/Schedule.tsx:48-57 | the two lists together hold every active client exactly once, and no inactive client appears in either |
| ScheduleEditor.Swapped | susupay-frontend/src/pages/collector/Schedule.tsx:93-100 | the destructuring swap exchanges the two entries, leaves the rest in place and keeps the same clients |
| ScheduleEditor.SwapTwice | susupay-frontend/src/pages/collector/Schedule.tsx:93-100 | swapping the same two entries twice restores the list |
| ScheduleEditor.MoveUp | susupay-frontend/src/pages/collector/Schedule.tsx:90-95 | the first entry cannot move up; any other changes places with the one above it; the clients stay the same |
| ScheduleEditor.MoveDown | susupay-frontend/src/pages/collector/Schedule.tsx:97-102 | the last entry cannot move down; any other changes places with the one below it; the clients stay the same |
| ScheduleEditor.DownThenUp | susupay-frontend/src/pages/collector/Schedule.tsx:90-102 | moving an entry down and then back up restores the rotation |
| ScheduleEditor.AddClient | susupay-frontend/src/pages/collector/Schedule.tsx:104-107 | the client goes to the end of the rotation and every entry with its id leaves the unplaced list |
| ScheduleEditor.RemoveAt | susupay-frontend/src/pages/collector/Schedule.tsx:111 | `filter((_, i) => i !== index)` drops exactly the entry at the index and keeps the others in order |
| ScheduleEditor.RemoveClient | susupay-frontend/src/pages/collector/Schedule.tsx:109-113 | the entry leaves the rotation and joins the unplaced list, which is then in name order and holds the old entries plus the removed one |
| ScheduleEditor.OnlyEntryWithId | susupay-frontend/src/pages/collector/Schedule.tsx:106 | with unique client ids, the filter by id picks out exactly the added client |
| ScheduleEditor.AddKeepsPartition | susupay-frontend/src/pages/collector/Schedule.tsx:104-107 | adding a client the unplaced list offers keeps every active client in exactly one list |
| ScheduleEditor.RemoveKeepsPartition | susupay-frontend/src/pages/collector/Schedule.tsx:109-113 | removing a client from the rotation keeps every active client in exactly one list |
| ScheduleEditor.AddThenRemove | susupay-frontend/src/pages/collector/Schedule.tsx:104-113 | adding a client and removing it again restores the rotation and the unplaced clients, now in name order |
| ScheduleEditor.NumberInOrder | susupay-frontend/src/pages/collector/Schedule.tsx:115-119 | the k-th client of the rotation is saved with position k + 1 |
| ScheduleEditor.NumberingIsContiguous | susupay-frontend/src/pages/collector/Schedule.tsx:115-119 | the saved positions are exactly 1..N |
| ScheduleEditor.SavedOrderAccepted | susupay-frontend/src/pages/collector/Schedule.tsx:115-120 | the numbering of a rotation of the collector's own clients passes every check of the backend's rotation update |
| DatePicker.IntString | susupay-frontend/src/components/ui/DatePicker.tsx:17 | a template literal of a non-negative number is its digits, of a negative one a minus sign and digits |
| DatePicker.Pad | susupay-frontend/src/components/ui/DatePicker.tsx:16-18 | `pad` writes a number from 0 to 99 with exactly two digits that read back as the number |
| DatePicker.DateStrShape | susupay-frontend/src/components/ui/DatePicker.tsx:20-22 | a four-digit year gives a ten-character YYYY-MM-DD string whose first four characters read as the year |
| DatePicker.NumberOfDigits | susupay-frontend/src/components/ui/DatePicker.tsx:25 | a non-empty run of digits reads as its value |
| DatePicker.JoinThree | susupay-frontend/src/components/ui/DatePicker.tsx:21-25 | three pieces joined with a separator are the pieces with the separator between them |
| DatePicker.ParseToDateStr | susupay-frontend/src/components/ui/DatePicker.tsx:20-27 | `parseDate(toDateStr(y, m, d))` gives back y, the 0-based month m and d |
| DatePicker.ReadBack | susupay-frontend/src/components/ui/DatePicker.tsx:20-27 | the same round trip for every non-negative year, month and day |
| DatePicker.PrevView | susupay-frontend/src/components/ui/DatePicker.tsx:59-66 | from January the view goes to December of the year before, otherwise one month back |
| DatePicker.NextView | susupay-frontend/src/components/ui/DatePicker.tsx:68-75 | from December the view goes to January of the year after, otherwise one month on |
| DatePicker.ArrowsMoveOneMonth | susupay-frontend/src/components/ui/DatePicker.tsx:59-75 | each arrow moves the view by exactly one month and keeps the month index within 0..11 |
| DatePicker.ArrowsUndo | susupay-frontend/src/components/ui/DatePicker.tsx:59-75 | one arrow undoes the other |
| DatePicker.JsYear | susupay-frontend/src/components/ui/DatePicker.tsx:83-84 | `new Date(y, ...)` reads a year 0..99 as 1900..1999 and any other year as it is |
| DatePicker.JsWeekday | susupay-frontend/src/components/ui/DatePicker.tsx:83 | `getDay` is a column 0..6 counting from Sunday, one ahead of the Monday-based weekday |
| DatePicker.FirstColumn | susupay-frontend/src/components/ui/DatePicker.tsx:83 | the first of the month falls in one of the seven columns |
| DatePicker.MonthLength | susupay-frontend/src/components/ui/DatePicker.tsx:84 | day 0 of the next month is the last valid day of the month on view: between 28 and 31, and the day after it is not a date of that month |
| DatePicker.Picker.constructor | susupay-frontend/src/components/ui/DatePicker.tsx:33-36 | the view opens on the given month |
| DatePicker.Picker.PrevMonth | susupay-frontend/src/components/ui/DatePicker.tsx:59-66 | the view becomes the previous month |
| DatePicker.Picker.NextMonth | susupay-frontend/src/components/ui/DatePicker.tsx:68-75 | the view becomes the next month |
| DatePicker.Picker.SelectDay | susupay-frontend/src/components/ui/DatePicker.tsx:77-80 | the value selected is the `YYYY-MM-DD` string of the year and month on view and the chosen day: it reads back as them, and for a four-digit year it has ten characters with hyphens at places 4 and 7 |
| DatePicker.Picker.SelectToday | susupay-frontend/src/components/ui/DatePicker.tsx:183-189 | the Today button selects today's own date string (the `todayStr` of line 89) (corrected; as written: DatePicker.TodayAsWritten, see ## Findings) |
| DatePicker.Picker.Cells | susupay-frontend/src/components/ui/DatePicker.tsx:82-87 | the grid is one empty cell per column before the first of the month, then the days 1..N in order |
| DatePicker.DayInItsColumn | susupay-frontend/src/components/ui/DatePicker.tsx:145-155 | each day's cell is in the column of its own weekday, Sunday first, matching the day headers (the headers of lines 83-87) |
| DatePicker.OrdinalOfDay | susupay-frontend/src/components/ui/DatePicker.tsx:83-87 | day d of a month is d - 1 days after its first |
| DatePicker.ColumnShift | susupay-frontend/src/components/ui/DatePicker.tsx:83-87 | moving d - 1 cells on from the first column lands in the column of the day d - 1 days later |
| DatePicker.TodayAsWritten | susupay-frontend/src/components/ui/DatePicker.tsx:185 | the button as written selects today's day number in the month on view (`selectDay` is lines 77-78) |
| DatePicker.TodayCorrected | susupay-frontend/src/components/ui/DatePicker.tsx:89 | today's string reads back as today's year, 0-based month and day |
| DatePicker.TodayAsWrittenMissesToday | susupay-frontend/src/components/ui/DatePicker.tsx:185 | with any other month on view, the button as written selects a date that is not today (`selectDay` is lines 77-78, `todayStr` line 89) |
| DatePicker.TodayAsWrittenInvalidDate | susupay-frontend/src/components/ui/DatePicker.tsx:185 | on 31 October 2026 with February 2026 on view, the button as written writes 2026-02-31, which is not a date (`selectDay` is lines 77-78) |
| Badge.StatusBadgeColor | susupay-frontend/src/components/ui/Badge.tsx:26-44 | a status is gray exactly when it is not one the backend writes |
| Badge.BackendStatusesColoured | susupay-frontend/src/components/ui/Badge.tsx:26-44 | the statuses given a colour are exactly the transaction and payout statuses |
| Badge.TransactionBadges | susupay-frontend/src/components/ui/Badge.tsx:27-40 | CONFIRMED is green, PENDING blue, QUERIED amber, REJECTED and AUTO_REJECTED red, each colour exactly for those statuses |
| Badge.PayoutBadges | susupay-frontend/src/components/ui/Badge.tsx:27-40 | APPROVED and COMPLETED are green, REQUESTED blue, DECLINED red, and no payout is amber |
| TransactionCard.TrustLevelColor | susupay-frontend/src/components/transaction/TransactionCard.tsx:10-17 | every trust level has a style |
| TransactionCard.TrustStylesDistinguish | susupay-frontend/src/components/transaction/TransactionCard.tsx:10-17 | two levels share a style exactly when they are the same, or are LOW and AUTO_REJECTED |
| TransactionCard.RelativeTimeBuckets | susupay-frontend/src/components/transaction/TransactionCard.tsx:19-33 | under a minute (future times included) is "just now", then whole minutes, whole hours, "Yesterday", whole days below seven, and the local date after a week |
| TransactionCard.HandleNoteSubmit | susupay-frontend/src/components/transaction/TransactionCard.tsx:54-75 | a note that is empty after trimming or over 500 characters sets an error and sends nothing; otherwise the open dialog's query or reject is sent with the trimmed note |
| TransactionCard.Buttons | susupay-frontend/src/components/transaction/TransactionCard.tsx:109-128 | Confirm is offered exactly for PENDING and QUERIED entries |
| TransactionCard.ButtonsMatchTransitions | susupay-frontend/src/components/transaction/TransactionCard.tsx:109-128 | the card offers a button exactly when the backend accepts that button's action for the entry's status |
| PinInput.Chars | susupay-frontend/src/components/ui/PinInput.tsx:21 | `split('')` gives one piece per character |
| PinInput.Assign | susupay-frontend/src/components/ui/PinInput.tsx:22 | `chars[index] = char` sets that slot; past the end the array grows and the slots between are holes |
| PinInput.Holes | susupay-frontend/src/components/ui/PinInput.tsx:22 | the holes are n empty pieces |
| PinInput.ConcatAppend | susupay-frontend/src/components/ui/PinInput.tsx:23 | joining two arrays one after the other is joining their concatenation |
| PinInput.ConcatChars | susupay-frontend/src/components/ui/PinInput.tsx:21-23 | splitting into characters and joining gives the value back |
| PinInput.ConcatHoles | susupay-frontend/src/components/ui/PinInput.tsx:22-23 | holes join as nothing |
| PinInput.HandleChange | susupay-frontend/src/components/ui/PinInput.tsx:18-30 | anything but nothing or one digit is ignored; otherwise the new value is at most `length` characters and a typed digit moves the focus to the next box, if there is one |
| PinInput.Joined | susupay-frontend/src/components/ui/PinInput.tsx:21-23 | within the value the box's character is replaced or removed; past the end the input is appended |
| PinInput.ConcatOne | susupay-frontend/src/components/ui/PinInput.tsx:23 | a single piece joins as itself |
| PinInput.JoinedWithin | susupay-frontend/src/components/ui/PinInput.tsx:21-23 | for a box within the value, the join is the value with that character replaced by the input |
| PinInput.JoinedPastEnd | susupay-frontend/src/components/ui/PinInput.tsx:21-23 | for a box past the end of the value, the join is the value followed by the input |
| PinInput.TypingReplacesDigit | susupay-frontend/src/components/ui/PinInput.tsx:18-30 | typing a digit into a filled box changes that digit and nothing else |
| PinInput.ClearingShiftsLeft | susupay-frontend/src/components/ui/PinInput.tsx:18-30 | clearing a filled box removes its digit and the later digits move one box to the left |
| PinInput.TypingPastEndAppends | susupay-frontend/src/components/ui/PinInput.tsx:18-30 | typing into any box past the end of the value appends the digit |
| PinInput.EditKeepsDigits | susupay-frontend/src/components/ui/PinInput.tsx:18-30 | an accepted edit of a value of digits leaves a value of digits |
| PinInput.HandlePaste | susupay-frontend/src/components/ui/PinInput.tsx:41-51 | a paste keeps the first `length` digits of the text, does nothing when there are none, and focuses the box after the last digit or the last box |
| PinInput.PasteOfDigits | susupay-frontend/src/components/ui/PinInput.tsx:41-51 | pasting a run of digits that fits gives exactly that run |
| OtpInput.OtpChange | susupay-frontend/src/components/ui/OtpInput.tsx:12-37 | a code edit never leaves more than six characters |
| OtpInput.OtpPaste | susupay-frontend/src/components/ui/OtpInput.tsx:48-58 | a paste that does something leaves one to six digits |
| OtpInput.CompletionCall | susupay-frontend/src/components/ui/OtpInput.tsx:19-23 | `onComplete` is called, with the value, exactly when the value has six characters |
| OtpInput.PasteCompletes | susupay-frontend/src/components/ui/OtpInput.tsx:19-58 | pasting text with at least six digits completes the code with its first six digits |
| OtpInput.LastDigitCompletes | susupay-frontend/src/components/ui/OtpInput.tsx:19-37 | typing the sixth digit into the last box completes the code |
| OtpInput.ClearingUncompletes | susupay-frontend/src/components/ui/OtpInput.tsx:19-37 | clearing any box of a complete code leaves it incomplete |
| PhoneInput.IsValidGhanaPhone | susupay-frontend/src/components/ui/PhoneInput.tsx:42-44 | a number passes exactly when it is ten ASCII digits starting with '0' |
| PhoneInput.ParsedPhoneIsValid | susupay-frontend/src/components/ui/PhoneInput.tsx:42-44 | every recipient number the SMS parser captures passes the frontend check |
| PhoneInput.NormalizedPhoneIsValid | susupay-frontend/src/components/ui/PhoneInput.tsx:42-44 | a 233 number fails the check as typed and passes it once the USSD service normalizes it |
| PushNotifications.PaddingLength | susupay-frontend/src/hooks/usePushNotifications.ts:11 | the padding is fewer than four characters and brings the length to a multiple of four |
| PushNotifications.Padded | susupay-frontend/src/hooks/usePushNotifications.ts:11-12 | the key followed by exactly that many '=' |
| PushNotifications.StandardChar | susupay-frontend/src/hooks/usePushNotifications.ts:12 | '-' and '_' are replaced, every other character is kept |
| PushNotifications.ToStandardAlphabet | susupay-frontend/src/hooks/usePushNotifications.ts:12 | the two replacements are applied to every character and to nothing else |
| PushNotifications.Base64FormShape | susupay-frontend/src/hooks/usePushNotifications.ts:11-12 | the text handed to `atob` is the key in the standard alphabet, padded with at most three '=' to a multiple of four |
| PushNotifications.Base64FormIdempotent | susupay-frontend/src/hooks/usePushNotifications.ts:11-12 | converting a converted key changes nothing |
| PushNotifications.AlphabetsCorrespond | susupay-frontend/src/hooks/usePushNotifications.ts:12 | the replacements map the URL-safe alphabet of section 5 of RFC 4648 one-to-one onto the standard alphabet of section 4 |
| PushNotifications.ToUint8 | susupay-frontend/src/hooks/usePushNotifications.ts:16 | a `Uint8Array` stores a code below 256 as it is |
| PushNotifications.UrlBase64ToBytes | susupay-frontend/src/hooks/usePushNotifications.ts:10-19 | a fresh array with one byte per decoded character, each that character's code; nothing where `atob` throws |

## Left out

- HTTP routing, authentication tokens (JWT), PIN and OTP hashing, OTP rate limiting, SMS and push delivery, and the Celery tasks. They are plumbing around the core.
- Payout listings (`get_client_payouts`, `get_collector_payouts`) are not part of this model.
- The PDF and HTML rendering of reports (`generate_pdf_report`) is not part of this model. Only the figures the reports compute are modelled.
- Decimal and float arithmetic: the collection rate, the health score, the monthly compliance percentage and other ratios are left out. Figures that are sums of amounts are exact pesewas.
- The daily trend, trust-level distribution and top-contributor lists of the collector analytics, and the formatting of period labels, are left out.
- Redis expiry of USSD sessions is not modelled. A session lives until the menu ends it.
- The order that SQL gives rows with equal sort keys is not modelled. The sort here is stable over insertion order, and the listings' contracts do not depend on ties.
- Character classes are ASCII where the source uses Unicode ones: `lower()`, `isalnum()` and `\d`. Python's white space is modelled in full.
- `json.loads` is a parameter: only whether it yields a list matters. The element types of that list are not checked.
- `localeCompare` is a name-ranking parameter (`rank`), not a collation.
- `Number()` is modelled for plain digit strings (after trimming) only. Signs, fractions, exponents and hexadecimal give NaN in the model.
- `toLocaleDateString` and `atob` are parameters.
- Focus handling, `handleKeyDown` and rendering in the frontend components are left out. So is the DatePicker effect that re-syncs the view when the value changes from outside.
- String lengths in the frontend count characters, not UTF-16 code units.
- SmsParser.AmountValue: the amount is the exact decimal rounded half-up to pesewas, rather than a Python float stored in a two-place numeric column.
- Ussd.PayoutAmountCheck: `Decimal(text)` is modelled for plain numerals with at most two fraction digits. Other decimal syntaxes are refused.
- Ussd.HandlePayoutAmount: the "Client not found." reply and a refusal from `request_payout` after the amount check cannot occur given the database invariant, so they have no branch.
- Transactions.SubmitSmsAsClient: the "Collector not found" path cannot occur given the client's foreign key, so it has no branch.
- Schedule.GetRotationSchedule: requires a payout interval of at least 1 day, as the settings schema enforces. With 0 the source divides by zero.
- ScheduleEditor.MoveUp: requires an index inside the rotation. The page only calls it with such an index.
- ScheduleEditor.MoveDown: requires an index inside the rotation, for the same reason.
- ScheduleEditor.RemoveClient: requires an index inside the rotation, for the same reason.
- DatePicker.Picker.Cells: requires a month index from 0 to 11. The arrows keep the month in that range. Month overflow in `new Date` is not modelled.
- DatePicker.ReadBack: the round trip is stated for non-negative years, months and days. Negative ones are written with a minus sign, which `parseDate` does not read back.

## Findings

| source | as written | input that shows it | evidently intended | confidence | as-written member | corrected member |
|---|---|---|---|---|---|---|
| susupay-backend/app/services/ussd_service.py:156-157 | option 2 iterates the dict that `get_client_history` returns. That yields its keys, and `"items".status` raises AttributeError | any session that picks option 2, whatever the client's history holds | the first five CONFIRMED entries of `txns["items"]` | not executed | Ussd.HistoryOptionAlwaysFails | Ussd.RecentConfirmed |
| susupay-frontend/src/components/ui/DatePicker.tsx:185 | the Today button calls `selectDay(today.getDate())`. `selectDay` (lines 77-78) writes today's day number into the month on view | on 31 October 2026 with February 2026 on view it selects "2026-02-31" | today's own date, the `todayStr` the grid marks as today | not executed | DatePicker.TodayAsWrittenMissesToday | DatePicker.Picker.SelectToday |
