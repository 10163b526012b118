/** Reports (`report_service.py`): the monthly summary of a collector's
    group and the monthly statement of one client.

    A month is the half-open range of instants from midnight (UTC) on its
    first day to midnight on the first day of the next month.  Deposits are
    CONFIRMED transactions counted at `confirmed_at`, payouts COMPLETED
    payouts counted at `completed_at`. */
module Reports {
  import opened Wrappers
  import opened Calendar
  import opened Ledger
  import opened Sorting
  import opened Balance

  datatype MonthSpan = MonthSpan(from: int, to: int)

  /** `month_start` and `month_end`, with December running into January of
      the next year. */
  function MonthWindow(year: int, month: int): (w: MonthSpan)
    requires 1 <= month <= 12
    ensures w.from == Midnight(Ordinal(Date(year, month, 1)))
    ensures w.to == w.from + DaysInMonth(year, month) * SecondsPerDay
  {
    NextMonthStartOrdinal(year, month);
    MonthSpan(Midnight(Ordinal(Date(year, month, 1))), Midnight(Ordinal(NextMonthStart(year, month))))
  }

  /** Months tile time: each month's window ends where the next one's starts
      (December's where January of the next year starts). */
  lemma MonthsTile(year: int, month: int)
    requires 1 <= month <= 12
    ensures var n := NextMonthStart(year, month);
      MonthWindow(n.year, n.month).from == MonthWindow(year, month).to
    ensures month == 12 ==> MonthWindow(year, 12).to == MonthWindow(year + 1, 1).from
  {
    NextMonthStartOrdinal(year, month);
  }

  // ---------------------------------------------------------------------
  // Filters

  /** A CONFIRMED deposit of the client confirmed before `to`. */
  function DepositedBefore(clientId: nat, to: int): Transaction -> bool {
    (t: Transaction) => t.clientId == clientId && t.status == Confirmed
                        && t.confirmedAt.Some? && t.confirmedAt.value < to
  }

  /** A CONFIRMED deposit of the client confirmed in `[from, to)`. */
  function DepositedWithin(clientId: nat, from: int, to: int): Transaction -> bool {
    (t: Transaction) => t.clientId == clientId && t.status == Confirmed
                        && t.confirmedAt.Some? && from <= t.confirmedAt.value < to
  }

  /** A COMPLETED payout of the client completed before `to`. */
  function PaidOutBefore(clientId: nat, to: int): Payout -> bool {
    (p: Payout) => p.clientId == clientId && p.status == Completed
                   && p.completedAt.Some? && p.completedAt.value < to
  }

  /** A COMPLETED payout of the client completed in `[from, to)`. */
  function PaidOutWithin(clientId: nat, from: int, to: int): Payout -> bool {
    (p: Payout) => p.clientId == clientId && p.status == Completed
                   && p.completedAt.Some? && from <= p.completedAt.value < to
  }

  // ---------------------------------------------------------------------
  // Monthly summary

  datatype SummaryRow = SummaryRow(
    clientId: nat,
    clientName: string,
    totalDeposits: int,
    depositCount: nat,
    totalPayouts: int,
    payoutCount: nat,
    netBalance: int)

  /** The client's row of the two outer-joined aggregates: sums and counts
      of its deposits and payouts in the month (0 when there are none). */
  function ClientMonth(c: Client, ts: seq<Transaction>, ps: seq<Payout>, w: MonthSpan): (r: SummaryRow)
    ensures r.clientId == c.id && r.clientName == c.fullName
    ensures r.depositCount == |Select(ts, DepositedWithin(c.id, w.from, w.to))|
    ensures r.totalDeposits == SumOf(Select(ts, DepositedWithin(c.id, w.from, w.to)), TxnAmount)
    ensures r.payoutCount == |Select(ps, PaidOutWithin(c.id, w.from, w.to))|
    ensures r.totalPayouts == SumOf(Select(ps, PaidOutWithin(c.id, w.from, w.to)), PayoutAmount)
    ensures r.netBalance == r.totalDeposits - r.totalPayouts
  {
    var deposits := Select(ts, DepositedWithin(c.id, w.from, w.to));
    var payouts := Select(ps, PaidOutWithin(c.id, w.from, w.to));
    var d := SumOf(deposits, TxnAmount);
    var p := SumOf(payouts, PayoutAmount);
    SummaryRow(c.id, c.fullName, d, |deposits|, p, |payouts|, d - p)
  }

  function OfCollector(collectorId: nat): Client -> bool {
    (c: Client) => c.collectorId == collectorId
  }

  function RowDeposits(r: SummaryRow): int { r.totalDeposits }

  function RowPayouts(r: SummaryRow): int { r.totalPayouts }

  function RowNet(r: SummaryRow): int { r.netBalance }

  datatype MonthlySummary = MonthlySummary(
    year: int,
    month: int,
    totalDeposits: int,
    totalPayouts: int,
    netBalance: int,
    clientCount: nat,
    clients: seq<SummaryRow>)

  /** `get_monthly_summary`: one row per client of the collector, active or
      not and with activity or not; the grand totals are the sums of the
      rows and the net is their difference. */
  method GetMonthlySummary(clients: seq<Client>, ts: seq<Transaction>, ps: seq<Payout>,
                           collectorId: nat, year: int, month: int)
    returns (s: MonthlySummary)
    requires 1 <= month <= 12
    ensures var mine := Select(clients, OfCollector(collectorId));
      s.year == year && s.month == month
      && |s.clients| == |mine| && s.clientCount == |mine|
      && (forall k :: 0 <= k < |mine| ==> s.clients[k] == ClientMonth(mine[k], ts, ps, MonthWindow(year, month)))
      && s.totalDeposits == SumOf(s.clients, RowDeposits)
      && s.totalPayouts == SumOf(s.clients, RowPayouts)
      && s.netBalance == s.totalDeposits - s.totalPayouts
  {
    var w := MonthWindow(year, month);
    var mine := Select(clients, OfCollector(collectorId));
    var rows: seq<SummaryRow> := [];
    var grandDeposits, grandPayouts := 0, 0;
    var i := 0;
    while i < |mine|
      invariant 0 <= i <= |mine|
      invariant |rows| == i && forall k :: 0 <= k < i ==> rows[k] == ClientMonth(mine[k], ts, ps, w)
      invariant grandDeposits == SumOf(rows, RowDeposits) && grandPayouts == SumOf(rows, RowPayouts)
    {
      var row := ClientMonth(mine[i], ts, ps, w);
      SumOfSnoc(rows, row, RowDeposits);
      SumOfSnoc(rows, row, RowPayouts);
      rows := rows + [row];
      grandDeposits := grandDeposits + row.totalDeposits;
      grandPayouts := grandPayouts + row.totalPayouts;
      i := i + 1;
    }
    s := MonthlySummary(year, month, grandDeposits, grandPayouts, grandDeposits - grandPayouts, |rows|, rows);
  }

  /** The group's net balance is also the sum of the clients' nets. */
  lemma {:induction false} NetIsSumOfNets(rows: seq<SummaryRow>)
    requires forall k :: 0 <= k < |rows| ==> rows[k].netBalance == rows[k].totalDeposits - rows[k].totalPayouts
    ensures SumOf(rows, RowNet) == SumOf(rows, RowDeposits) - SumOf(rows, RowPayouts)
  {
    if rows != [] {
      NetIsSumOfNets(rows[1..]);
    }
  }

  // ---------------------------------------------------------------------
  // Client statement

  datatype EntryKind = DepositEntry | PayoutEntry

  datatype LineItem = LineItem(date: int, kind: EntryKind, amount: int)

  function LineDate(l: LineItem): int { l.date }

  /** What a line does to the balance. */
  function Signed(l: LineItem): int {
    if l.kind == DepositEntry then l.amount else -l.amount
  }

  /** The deposit lines, one per deposit, dated when it was confirmed. */
  function DepositLines(ds: seq<Transaction>): (r: seq<LineItem>)
    requires forall k :: 0 <= k < |ds| ==> ds[k].confirmedAt.Some?
    ensures |r| == |ds|
    ensures forall k :: 0 <= k < |ds| ==> r[k] == LineItem(ds[k].confirmedAt.value, DepositEntry, ds[k].amount)
    ensures SumOf(r, Signed) == SumOf(ds, TxnAmount)
  {
    if ds == [] then []
    else
      var rest := DepositLines(ds[1..]);
      assert ([LineItem(ds[0].confirmedAt.value, DepositEntry, ds[0].amount)] + rest)[1..] == rest;
      [LineItem(ds[0].confirmedAt.value, DepositEntry, ds[0].amount)] + rest
  }

  /** The payout lines, one per payout, dated when it was completed. */
  function PayoutLines(ps: seq<Payout>): (r: seq<LineItem>)
    requires forall k :: 0 <= k < |ps| ==> ps[k].completedAt.Some?
    ensures |r| == |ps|
    ensures forall k :: 0 <= k < |ps| ==> r[k] == LineItem(ps[k].completedAt.value, PayoutEntry, ps[k].amount)
    ensures SumOf(r, Signed) == -SumOf(ps, PayoutAmount)
  {
    if ps == [] then []
    else
      var rest := PayoutLines(ps[1..]);
      assert ([LineItem(ps[0].completedAt.value, PayoutEntry, ps[0].amount)] + rest)[1..] == rest;
      [LineItem(ps[0].completedAt.value, PayoutEntry, ps[0].amount)] + rest
  }

  /** The month's deposit lines, oldest first. */
  function MonthDeposits(ts: seq<Transaction>, clientId: nat, w: MonthSpan): seq<LineItem> {
    SortBy(DepositLines(Select(ts, DepositedWithin(clientId, w.from, w.to))), LineDate)
  }

  /** The month's payout lines, oldest first. */
  function MonthPayouts(ps: seq<Payout>, clientId: nat, w: MonthSpan): seq<LineItem> {
    SortBy(PayoutLines(Select(ps, PaidOutWithin(clientId, w.from, w.to))), LineDate)
  }

  /** Deposits then payouts, stably sorted by date. */
  function StatementLines(ts: seq<Transaction>, ps: seq<Payout>, clientId: nat, w: MonthSpan): seq<LineItem> {
    SortBy(MonthDeposits(ts, clientId, w) + MonthPayouts(ps, clientId, w), LineDate)
  }

  /** The lines are in date order and are exactly the month's deposits and
      payouts. */
  lemma StatementLinesOrdered(ts: seq<Transaction>, ps: seq<Payout>, clientId: nat, w: MonthSpan)
    ensures SortedBy(StatementLines(ts, ps, clientId, w), LineDate)
    ensures multiset(StatementLines(ts, ps, clientId, w))
         == multiset(DepositLines(Select(ts, DepositedWithin(clientId, w.from, w.to))))
          + multiset(PayoutLines(Select(ps, PaidOutWithin(clientId, w.from, w.to))))
  {
    SortBySorted(MonthDeposits(ts, clientId, w) + MonthPayouts(ps, clientId, w), LineDate);
  }

  /** Lines with the same date keep the order deposits-then-payouts: at any
      instant the deposits are listed before the payouts. */
  lemma DepositsFirstAtSameInstant(ts: seq<Transaction>, ps: seq<Payout>, clientId: nat, w: MonthSpan, date: int)
    ensures Select(StatementLines(ts, ps, clientId, w), KeyIs(LineDate, date))
         == Select(MonthDeposits(ts, clientId, w), KeyIs(LineDate, date))
          + Select(MonthPayouts(ps, clientId, w), KeyIs(LineDate, date))
  {
    var both := MonthDeposits(ts, clientId, w) + MonthPayouts(ps, clientId, w);
    SortByStable(both, LineDate, date);
    SelectAppend(MonthDeposits(ts, clientId, w), MonthPayouts(ps, clientId, w), KeyIs(LineDate, date));
  }

  /** The lines move the balance by the month's deposits less its payouts. */
  lemma StatementLinesNet(ts: seq<Transaction>, ps: seq<Payout>, clientId: nat, w: MonthSpan)
    ensures SumOf(StatementLines(ts, ps, clientId, w), Signed)
         == SumOf(Select(ts, DepositedWithin(clientId, w.from, w.to)), TxnAmount)
          - SumOf(Select(ps, PaidOutWithin(clientId, w.from, w.to)), PayoutAmount)
  {
    var dl := DepositLines(Select(ts, DepositedWithin(clientId, w.from, w.to)));
    var pl := PayoutLines(Select(ps, PaidOutWithin(clientId, w.from, w.to)));
    SumOfSortBy(dl, LineDate, Signed);
    SumOfSortBy(pl, LineDate, Signed);
    SumOfSortBy(MonthDeposits(ts, clientId, w) + MonthPayouts(ps, clientId, w), LineDate, Signed);
    SumOfAppend(MonthDeposits(ts, clientId, w), MonthPayouts(ps, clientId, w), Signed);
  }

  datatype StatementItem = StatementItem(date: int, kind: EntryKind, description: string, amount: int,
                                         runningBalance: int)

  function Describe(kind: EntryKind): string {
    match kind
    case DepositEntry => "Payment deposit"
    case PayoutEntry => "Payout withdrawal"
  }

  /** The running-balance loop: each item carries the balance after it. */
  method RunningBalance(opening: int, lines: seq<LineItem>) returns (closing: int, items: seq<StatementItem>)
    ensures |items| == |lines|
    ensures forall k :: 0 <= k < |lines| ==>
      items[k].date == lines[k].date && items[k].kind == lines[k].kind && items[k].amount == lines[k].amount
      && items[k].description == Describe(lines[k].kind)
      && items[k].runningBalance == opening + SumOf(lines[..k + 1], Signed)
    ensures closing == opening + SumOf(lines, Signed)
  {
    var running := opening;
    items := [];
    var i := 0;
    while i < |lines|
      invariant 0 <= i <= |lines| && |items| == i
      invariant running == opening + SumOf(lines[..i], Signed)
      invariant forall k :: 0 <= k < i ==>
        items[k].date == lines[k].date && items[k].kind == lines[k].kind && items[k].amount == lines[k].amount
        && items[k].description == Describe(lines[k].kind)
        && items[k].runningBalance == opening + SumOf(lines[..k + 1], Signed)
    {
      var line := lines[i];
      var description;
      if line.kind == DepositEntry {
        running := running + line.amount;
        description := "Payment deposit";
      } else {
        running := running - line.amount;
        description := "Payout withdrawal";
      }
      SumOfPrefix(lines, i, Signed);
      items := items + [StatementItem(line.date, line.kind, description, line.amount, running)];
      i := i + 1;
    }
    assert lines[..i] == lines;
    closing := running;
  }

  /** Confirmed deposits before `from` less completed payouts before it. */
  function OpeningBalance(ts: seq<Transaction>, ps: seq<Payout>, clientId: nat, from: int): int {
    SumOf(Select(ts, DepositedBefore(clientId, from)), TxnAmount)
    - SumOf(Select(ps, PaidOutBefore(clientId, from)), PayoutAmount)
  }

  datatype Statement = Statement(
    clientName: string,
    year: int,
    month: int,
    openingBalance: int,
    closingBalance: int,
    items: seq<StatementItem>)

  /** `get_client_statement`: refused for a client outside the collector's
      group; otherwise the opening balance, the month's lines in date order
      with their running balances, and the closing balance. */
  method GetClientStatement(clients: seq<Client>, ts: seq<Transaction>, ps: seq<Payout>,
                            clientId: nat, collectorId: nat, year: int, month: int)
    returns (r: Result<Statement, LookupError>)
    requires 1 <= month <= 12
    requires forall k :: 0 <= k < |clients| ==> clients[k].id == k
    ensures r.Failure? <==> ClientForCollector(clients, clientId, collectorId).Failure?
    ensures r.Failure? ==> r.error == ClientNotFound
    ensures r.Success? ==>
      var w := MonthWindow(year, month);
      var s := r.value;
      var lines := StatementLines(ts, ps, clientId, w);
      clientId < |clients| && s.clientName == clients[clientId].fullName
      && s.year == year && s.month == month
      && s.openingBalance == OpeningBalance(ts, ps, clientId, w.from)
      && |s.items| == |lines|
      && (forall k :: 0 <= k < |lines| ==>
            s.items[k].date == lines[k].date && s.items[k].kind == lines[k].kind
            && s.items[k].amount == lines[k].amount && s.items[k].description == Describe(lines[k].kind)
            && s.items[k].runningBalance == s.openingBalance + SumOf(lines[..k + 1], Signed))
      && s.closingBalance == s.openingBalance
                             + SumOf(Select(ts, DepositedWithin(clientId, w.from, w.to)), TxnAmount)
                             - SumOf(Select(ps, PaidOutWithin(clientId, w.from, w.to)), PayoutAmount)
  {
    var found := ClientForCollector(clients, clientId, collectorId);
    if found.Failure? {
      return Failure(found.error);
    }
    var w := MonthWindow(year, month);
    var opening := OpeningBalance(ts, ps, clientId, w.from);
    var lines := StatementLines(ts, ps, clientId, w);
    var closing, items := RunningBalance(opening, lines);
    StatementLinesNet(ts, ps, clientId, w);
    r := Success(Statement(found.value.fullName, year, month, opening, closing, items));
  }

  /** The summary row and the statement agree: a client's net for the month
      is what the statement's lines move the balance by. */
  lemma SummaryMatchesStatement(c: Client, ts: seq<Transaction>, ps: seq<Payout>, year: int, month: int)
    requires 1 <= month <= 12
    ensures var w := MonthWindow(year, month);
      ClientMonth(c, ts, ps, w).netBalance == SumOf(StatementLines(ts, ps, c.id, w), Signed)
  {
    StatementLinesNet(ts, ps, c.id, MonthWindow(year, month));
  }

  /** A month's closing balance is the next month's opening balance. */
  lemma ClosingIsNextOpening(ts: seq<Transaction>, ps: seq<Payout>, clientId: nat, year: int, month: int)
    requires 1 <= month <= 12
    ensures var w := MonthWindow(year, month);
      var n := NextMonthStart(year, month);
      OpeningBalance(ts, ps, clientId, w.from) + SumOf(StatementLines(ts, ps, clientId, w), Signed)
        == OpeningBalance(ts, ps, clientId, MonthWindow(n.year, n.month).from)
  {
    var w := MonthWindow(year, month);
    MonthsTile(year, month);
    StatementLinesNet(ts, ps, clientId, w);
    SumSelectSplit(ts, DepositedBefore(clientId, w.from), DepositedWithin(clientId, w.from, w.to),
                   DepositedBefore(clientId, w.to), TxnAmount);
    SumSelectSplit(ps, PaidOutBefore(clientId, w.from), PaidOutWithin(clientId, w.from, w.to),
                   PaidOutBefore(clientId, w.to), PayoutAmount);
  }
}
