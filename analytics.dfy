/** Period analytics (`analytics_service.py`): which contribution period a
    date falls in, how a period's payment compares with the expected
    contribution, the per-collector tally of who paid, and a client's own
    period status, payment streak and group progress.

    Periods are half-open ranges of day ordinals `[startDay, endDay)`; the
    instants they bound are the midnights (UTC) of those days.  The expected
    contribution and the contribution frequency are parameters. */
module Analytics {
  import opened Wrappers
  import opened Calendar
  import opened Ledger
  import opened Sorting
  import opened Balance

  // ---------------------------------------------------------------------
  // Classification

  datatype PaymentStatus = Paid | Overpaid | Partial | Unpaid

  /** `classify_payment`. */
  function ClassifyPayment(paid: int, expected: int): (s: PaymentStatus)
    ensures expected <= 0 ==> (s == Paid <==> paid > 0) && (s == Unpaid <==> paid <= 0)
    ensures expected > 0 ==>
      (s == Unpaid <==> paid <= 0) && (s == Partial <==> 0 < paid < expected)
      && (s == Paid <==> paid == expected) && (s == Overpaid <==> paid > expected)
  {
    if expected <= 0 then (if paid > 0 then Paid else Unpaid)
    else if paid <= 0 then Unpaid
    else if paid >= expected then (if paid > expected then Overpaid else Paid)
    else Partial
  }

  /** PAID and OVERPAID both count as paid. */
  predicate CountsAsPaid(s: PaymentStatus) {
    s == Paid || s == Overpaid
  }

  /** A period counts as paid when something was due and at least that much
      came in, or when nothing was due and anything came in. */
  lemma PaidMeansCovered(paid: int, expected: int)
    ensures CountsAsPaid(ClassifyPayment(paid, expected))
        <==> (expected > 0 && paid >= expected) || (expected <= 0 && paid > 0)
  {
  }

  // ---------------------------------------------------------------------
  // Periods

  /** The collector's contribution frequency as stored; a value other than
      the three known ones is kept as it is. */
  datatype Frequency = Daily | Weekly | Monthly | OtherFrequency(name: string)

  datatype PeriodLabel =
    | TodayLabel
    | WeekLabel(monday: Date, sunday: Date)
    | MonthLabel(year: int, month: int)

  datatype Period = Period(startDay: int, endDay: int, caption: PeriodLabel)

  /** The Monday on or before the day with ordinal `n` is a Monday. */
  lemma MondayOnOrBefore(n: int)
    ensures Weekday(n - Weekday(n)) == 0
  {
    var q := (n + 6) / 7;
    assert n + 6 == 7 * q + Weekday(n);
    assert n - Weekday(n) + 6 == 7 * q;
  }

  /** A week is fixed by any of its days: the only Monday `s` with
      `s <= n < s + 7` is `n - Weekday(n)`. */
  lemma WeekStartUnique(s: int, n: int)
    requires Weekday(s) == 0 && s <= n < s + 7
    ensures s == n - Weekday(n)
  {
    var q := (s + 6) / 7;
    assert s + 6 == 7 * q;
    assert n + 6 == 7 * q + (n - s);
  }

  /** `get_current_period`: DAILY (and any frequency it does not know) is the
      day itself, WEEKLY the Monday-to-Sunday week, MONTHLY the calendar
      month; in every case the date lies inside the period. */
  function GetCurrentPeriod(frequency: Frequency, d: Date): (p: Period)
    requires ValidDate(d)
    ensures p.startDay <= Ordinal(d) < p.endDay
    ensures frequency == Weekly ==>
      Weekday(p.startDay) == 0 && p.endDay == p.startDay + 7
      && p.caption.WeekLabel? && ValidDate(p.caption.monday) && ValidDate(p.caption.sunday)
      && Ordinal(p.caption.monday) == p.startDay && Ordinal(p.caption.sunday) == p.startDay + 6
    ensures frequency == Monthly ==>
      p.startDay == Ordinal(d) - (d.day - 1)
      && p.endDay == p.startDay + DaysInMonth(d.year, d.month)
      && p.caption == MonthLabel(d.year, d.month)
    ensures frequency != Weekly && frequency != Monthly ==>
      p.endDay == p.startDay + 1 && p.caption == TodayLabel
  {
    if frequency == Weekly then
      var n := Ordinal(d);
      var monday := AddDays(d, -Weekday(n));
      AddDaysOrdinal(d, -Weekday(n));
      var sunday := AddDays(monday, 6);
      AddDaysOrdinal(monday, 6);
      MondayOnOrBefore(n);
      Period(Ordinal(monday), Ordinal(monday) + 7, WeekLabel(monday, sunday))
    else if frequency == Monthly then
      NextMonthStartOrdinal(d.year, d.month);
      Period(Ordinal(Date(d.year, d.month, 1)), Ordinal(NextMonthStart(d.year, d.month)),
             MonthLabel(d.year, d.month))
    else
      Period(Ordinal(d), Ordinal(d) + 1, TodayLabel)
  }

  /** 2026-02-23 is a Monday, so its week starts that day; 2026-02-15 lies in
      February 2026, which ends where March begins. */
  lemma PeriodExamples()
    ensures GetCurrentPeriod(Weekly, Date(2026, 2, 23)).startDay == Ordinal(Date(2026, 2, 23))
    ensures var p := GetCurrentPeriod(Monthly, Date(2026, 2, 15));
      p.startDay == Ordinal(Date(2026, 2, 1)) && p.endDay == Ordinal(Date(2026, 3, 1))
      && p.caption == MonthLabel(2026, 2)
  {
    var n := Ordinal(Date(2026, 2, 23));
    assert DaysBeforeYear(2026) == 739616;
    assert n == 739670;
    assert Weekday(n) == 0;
    WeekStartUnique(GetCurrentPeriod(Weekly, Date(2026, 2, 23)).startDay, n);
    NextMonthStartOrdinal(2026, 2);
  }

  // ---------------------------------------------------------------------
  // Period payments

  /** A CONFIRMED transaction of the collector confirmed in `[from, to)`. */
  function CollectorPaidWithin(collectorId: nat, from: int, to: int): Transaction -> bool {
    (t: Transaction) => t.collectorId == collectorId && t.status == Confirmed
                        && t.confirmedAt.Some? && from <= t.confirmedAt.value < to
  }

  /** A CONFIRMED transaction of the client confirmed in `[from, to)`. */
  function ClientPaidWithin(clientId: nat, from: int, to: int): Transaction -> bool {
    (t: Transaction) => t.clientId == clientId && t.status == Confirmed
                        && t.confirmedAt.Some? && from <= t.confirmedAt.value < to
  }

  function OfClient(clientId: nat): Transaction -> bool {
    (t: Transaction) => t.clientId == clientId
  }

  /** `get_period_payments`: per client with at least one payment of the
      collector in the period, the sum of those payments. */
  function PeriodPayments(ts: seq<Transaction>, collectorId: nat, p: Period): (m: map<nat, int>)
    ensures forall cid :: cid in m <==>
      exists k :: 0 <= k < |ts| && ts[k].clientId == cid
                  && CollectorPaidWithin(collectorId, Midnight(p.startDay), Midnight(p.endDay))(ts[k])
  {
    var inPeriod := Select(ts, CollectorPaidWithin(collectorId, Midnight(p.startDay), Midnight(p.endDay)));
    var payers := set t | t in inPeriod :: t.clientId;
    assert forall cid :: cid in payers ==>
      exists k :: 0 <= k < |ts| && ts[k].clientId == cid
                  && CollectorPaidWithin(collectorId, Midnight(p.startDay), Midnight(p.endDay))(ts[k]);
    forall cid | exists k :: 0 <= k < |ts| && ts[k].clientId == cid
                   && CollectorPaidWithin(collectorId, Midnight(p.startDay), Midnight(p.endDay))(ts[k])
      ensures cid in payers
    {
      var k :| 0 <= k < |ts| && ts[k].clientId == cid
               && CollectorPaidWithin(collectorId, Midnight(p.startDay), Midnight(p.endDay))(ts[k]);
      SelectKeeps(ts, CollectorPaidWithin(collectorId, Midnight(p.startDay), Midnight(p.endDay)), ts[k]);
    }
    map cid | cid in payers :: SumOf(Select(inPeriod, OfClient(cid)), TxnAmount)
  }

  /** A client's own period sum: `COALESCE(SUM(amount), 0)` of its CONFIRMED
      transactions confirmed within the period. */
  function ClientPaidIn(ts: seq<Transaction>, clientId: nat, p: Period): int {
    SumOf(Select(ts, ClientPaidWithin(clientId, Midnight(p.startDay), Midnight(p.endDay))), TxnAmount)
  }

  /** `payments.get(cid, 0)`. */
  function PaidOf(payments: map<nat, int>, clientId: nat): int {
    if clientId in payments then payments[clientId] else 0
  }

  /** Selecting twice is selecting by both conditions. */
  lemma {:induction false} SelectTwice<T>(xs: seq<T>, p: T -> bool, q: T -> bool, r: T -> bool)
    requires forall k :: 0 <= k < |xs| ==> (p(xs[k]) && q(xs[k])) == r(xs[k])
    ensures Select(Select(xs, p), q) == Select(xs, r)
  {
    if xs != [] {
      SelectTwice(xs[1..], p, q, r);
    }
  }

  /** The collector-wide dictionary and the client's own query agree on every
      client of that collector, including one with no payment (0). */
  lemma PeriodPaymentsAgree(clients: seq<Client>, ts: seq<Transaction>, clientId: nat, p: Period)
    requires TransactionsLinked(ts, clients)
    requires clientId < |clients|
    ensures PaidOf(PeriodPayments(ts, clients[clientId].collectorId, p), clientId) == ClientPaidIn(ts, clientId, p)
  {
    var collectorId := clients[clientId].collectorId;
    var from, to := Midnight(p.startDay), Midnight(p.endDay);
    var inPeriod := Select(ts, CollectorPaidWithin(collectorId, from, to));
    forall k | 0 <= k < |ts|
      ensures (CollectorPaidWithin(collectorId, from, to)(ts[k]) && OfClient(clientId)(ts[k]))
              == ClientPaidWithin(clientId, from, to)(ts[k])
    {
      assert TransactionLinked(ts[k], clients);
    }
    SelectTwice(ts, CollectorPaidWithin(collectorId, from, to), OfClient(clientId),
                ClientPaidWithin(clientId, from, to));
    var m := PeriodPayments(ts, collectorId, p);
    if clientId !in m {
      forall k | 0 <= k < |ts|
        ensures !ClientPaidWithin(clientId, from, to)(ts[k])
      {
        assert TransactionLinked(ts[k], clients);
      }
      SumOfNoneSelected(ts, ClientPaidWithin(clientId, from, to), TxnAmount);
    }
  }

  // ---------------------------------------------------------------------
  // The collector's tally

  function StatusOf(payments: map<nat, int>, expected: int, c: Client): PaymentStatus {
    ClassifyPayment(PaidOf(payments, c.id), expected)
  }

  function HasStatus(payments: map<nat, int>, expected: int, s: PaymentStatus): Client -> bool {
    (c: Client) => StatusOf(payments, expected, c) == s
  }

  function PaidInFull(payments: map<nat, int>, expected: int): Client -> bool {
    (c: Client) => CountsAsPaid(StatusOf(payments, expected, c))
  }

  function Contribution(payments: map<nat, int>): Client -> int {
    (c: Client) => PaidOf(payments, c.id)
  }

  /** A defaulter or partial payer as listed. */
  datatype Arrear = Arrear(clientId: nat, fullName: string, expected: int, paid: int,
                           remaining: int, status: PaymentStatus)

  function ArrearOf(payments: map<nat, int>, expected: int, c: Client): Arrear {
    var paid := PaidOf(payments, c.id);
    Arrear(c.id, c.fullName, expected, paid, expected - paid, StatusOf(payments, expected, c))
  }

  function ArrearsOf(payments: map<nat, int>, expected: int, cs: seq<Client>): (r: seq<Arrear>)
    ensures |r| == |cs|
  {
    seq(|cs|, k requires 0 <= k < |cs| => ArrearOf(payments, expected, cs[k]))
  }

  datatype Buckets = Buckets(
    paidCount: nat,
    partialCount: nat,
    unpaidCount: nat,
    overpaidCount: nat,
    defaulters: seq<Arrear>,
    partialPayers: seq<Arrear>,
    collected: int)

  /** What the tally loop computes over the active clients `active`. */
  predicate TalliedFrom(b: Buckets, active: seq<Client>, payments: map<nat, int>, expected: int) {
    b.paidCount == |Select(active, PaidInFull(payments, expected))|
    && b.overpaidCount == |Select(active, HasStatus(payments, expected, Overpaid))|
    && b.partialCount == |Select(active, HasStatus(payments, expected, Partial))|
    && b.unpaidCount == |Select(active, HasStatus(payments, expected, Unpaid))|
    && b.defaulters == ArrearsOf(payments, expected, Select(active, HasStatus(payments, expected, Unpaid)))
    && b.partialPayers == ArrearsOf(payments, expected, Select(active, HasStatus(payments, expected, Partial)))
    && b.collected == SumOf(active, Contribution(payments))
  }

  /** The tally after one more client: the bucket of its status grows by one
      (the paid bucket too when it overpaid), its arrear joins the matching
      list, and its payment the amount collected. */
  function NextTally(b: Buckets, payments: map<nat, int>, expected: int, c: Client): Buckets {
    var s := StatusOf(payments, expected, c);
    Buckets(
      b.paidCount + (if CountsAsPaid(s) then 1 else 0),
      b.partialCount + (if s == Partial then 1 else 0),
      b.unpaidCount + (if s == Unpaid then 1 else 0),
      b.overpaidCount + (if s == Overpaid then 1 else 0),
      b.defaulters + (if s == Unpaid then [ArrearOf(payments, expected, c)] else []),
      b.partialPayers + (if s == Partial then [ArrearOf(payments, expected, c)] else []),
      b.collected + PaidOf(payments, c.id))
  }

  /** The classification loop of `get_collector_analytics`. */
  method TallyClients(active: seq<Client>, payments: map<nat, int>, expected: int) returns (b: Buckets)
    ensures TalliedFrom(b, active, payments, expected)
  {
    var paidCount, partialCount, unpaidCount, overpaidCount := 0, 0, 0, 0;
    var defaulters: seq<Arrear> := [];
    var partialPayers: seq<Arrear> := [];
    var collected := 0;
    var i := 0;
    while i < |active|
      invariant 0 <= i <= |active|
      invariant TalliedFrom(Buckets(paidCount, partialCount, unpaidCount, overpaidCount,
                                    defaulters, partialPayers, collected),
                            active[..i], payments, expected)
    {
      ghost var before := Buckets(paidCount, partialCount, unpaidCount, overpaidCount,
                                  defaulters, partialPayers, collected);
      var c := active[i];
      var paid := PaidOf(payments, c.id);
      collected := collected + paid;
      var status := ClassifyPayment(paid, expected);
      if status == Paid {
        paidCount := paidCount + 1;
      } else if status == Overpaid {
        overpaidCount := overpaidCount + 1;
        paidCount := paidCount + 1;
      } else if status == Partial {
        partialCount := partialCount + 1;
        partialPayers := partialPayers + [ArrearOf(payments, expected, c)];
      } else {
        unpaidCount := unpaidCount + 1;
        defaulters := defaulters + [ArrearOf(payments, expected, c)];
      }
      TallyStepAt(before, Buckets(paidCount, partialCount, unpaidCount, overpaidCount,
                                  defaulters, partialPayers, collected),
                  active, i, payments, expected);
      i := i + 1;
    }
    assert active[..i] == active;
    b := Buckets(paidCount, partialCount, unpaidCount, overpaidCount, defaulters, partialPayers, collected);
  }

  lemma SelectSnoc<T>(xs: seq<T>, x: T, p: T -> bool)
    ensures Select(xs + [x], p) == Select(xs, p) + (if p(x) then [x] else [])
  {
    SelectAppend(xs, [x], p);
    assert [x][1..] == [];
  }

  lemma ArrearsSnoc(payments: map<nat, int>, expected: int, cs: seq<Client>, extra: seq<Client>)
    requires |extra| <= 1
    ensures ArrearsOf(payments, expected, cs + extra)
         == ArrearsOf(payments, expected, cs) + ArrearsOf(payments, expected, extra)
  {
  }

  /** One more client keeps the tally faithful. */
  lemma TallyStep(b: Buckets, xs: seq<Client>, c: Client, payments: map<nat, int>, expected: int)
    requires TalliedFrom(b, xs, payments, expected)
    ensures TalliedFrom(NextTally(b, payments, expected, c), xs + [c], payments, expected)
  {
    SelectSnoc(xs, c, PaidInFull(payments, expected));
    SelectSnoc(xs, c, HasStatus(payments, expected, Overpaid));
    SelectSnoc(xs, c, HasStatus(payments, expected, Partial));
    SelectSnoc(xs, c, HasStatus(payments, expected, Unpaid));
    SumOfAppend(xs, [c], Contribution(payments));
    assert [c][1..] == [];
    var partial := Select(xs, HasStatus(payments, expected, Partial));
    var unpaid := Select(xs, HasStatus(payments, expected, Unpaid));
    var s := StatusOf(payments, expected, c);
    ArrearsSnoc(payments, expected, partial, if s == Partial then [c] else []);
    ArrearsSnoc(payments, expected, unpaid, if s == Unpaid then [c] else []);
  }

  /** `TallyStep` for the prefixes of one list. */
  lemma TallyStepAt(b: Buckets, next: Buckets, active: seq<Client>, i: nat, payments: map<nat, int>, expected: int)
    requires i < |active| && TalliedFrom(b, active[..i], payments, expected)
    requires next == NextTally(b, payments, expected, active[i])
    ensures TalliedFrom(next, active[..i + 1], payments, expected)
  {
    TallyStep(b, active[..i], active[i], payments, expected);
    assert active[..i + 1] == active[..i] + [active[i]];
  }

  /** Every active client lands in exactly one of the paid, partial and
      unpaid buckets, and the overpaid ones are among the paid. */
  lemma {:induction false} BucketsPartition(active: seq<Client>, payments: map<nat, int>, expected: int)
    ensures |Select(active, PaidInFull(payments, expected))|
          + |Select(active, HasStatus(payments, expected, Partial))|
          + |Select(active, HasStatus(payments, expected, Unpaid))| == |active|
    ensures |Select(active, HasStatus(payments, expected, Overpaid))|
         <= |Select(active, PaidInFull(payments, expected))|
  {
    if active != [] {
      BucketsPartition(active[1..], payments, expected);
    }
  }

  /** A listed defaulter paid nothing and owes at least the contribution; a
      listed partial payer paid something and owes less than it. */
  lemma ArrearsOutstanding(b: Buckets, active: seq<Client>, payments: map<nat, int>, expected: int)
    requires TalliedFrom(b, active, payments, expected)
    ensures forall a :: a in b.defaulters ==>
      a.status == Unpaid && a.paid <= 0 && a.remaining == a.expected - a.paid && a.remaining >= expected
    ensures forall a :: a in b.partialPayers ==>
      a.status == Partial && 0 < a.paid < expected && a.remaining == a.expected - a.paid
      && 0 < a.remaining < expected
  {
    var unpaid := Select(active, HasStatus(payments, expected, Unpaid));
    var partial := Select(active, HasStatus(payments, expected, Partial));
    forall a | a in b.defaulters
      ensures a.status == Unpaid && a.paid <= 0 && a.remaining == a.expected - a.paid && a.remaining >= expected
    {
      var k :| 0 <= k < |b.defaulters| && b.defaulters[k] == a;
      assert HasStatus(payments, expected, Unpaid)(unpaid[k]);
    }
    forall a | a in b.partialPayers
      ensures a.status == Partial && 0 < a.paid < expected && a.remaining == a.expected - a.paid
              && 0 < a.remaining < expected
    {
      var k :| 0 <= k < |b.partialPayers| && b.partialPayers[k] == a;
      assert HasStatus(payments, expected, Partial)(partial[k]);
    }
  }

  function ActiveOf(collectorId: nat): Client -> bool {
    (c: Client) => c.collectorId == collectorId && c.isActive
  }

  datatype CollectorAnalytics = CollectorAnalytics(
    period: Period,
    contributionAmount: int,
    buckets: Buckets,
    amountExpected: int)

  /** The period tally of `get_collector_analytics`: the active clients of the
      collector against their payments in the current period; the amount
      expected is the contribution times the number of active clients. */
  method GetCollectorAnalytics(clients: seq<Client>, ts: seq<Transaction>, collectorId: nat,
                               expected: int, frequency: Frequency, today: Date)
    returns (a: CollectorAnalytics)
    requires ValidDate(today)
    ensures a.period == GetCurrentPeriod(frequency, today)
    ensures var active := Select(clients, ActiveOf(collectorId));
      TalliedFrom(a.buckets, active, PeriodPayments(ts, collectorId, a.period), expected)
      && a.buckets.paidCount + a.buckets.partialCount + a.buckets.unpaidCount == |active|
      && a.amountExpected == expected * |active|
  {
    var period := GetCurrentPeriod(frequency, today);
    var active := Select(clients, ActiveOf(collectorId));
    var payments := PeriodPayments(ts, collectorId, period);
    var buckets := TallyClients(active, payments, expected);
    BucketsPartition(active, payments, expected);
    a := CollectorAnalytics(period, expected, buckets, expected * |active|);
  }

  // ---------------------------------------------------------------------
  // The client's view

  /** One step back of the streak walk: a week, the first of the previous
      month, or a day. */
  function StepBack(frequency: Frequency, d: Date): (r: Date)
    requires ValidDate(d)
    ensures ValidDate(r)
  {
    if frequency == Weekly then AddDays(d, -7)
    else if frequency == Monthly then PrevMonthStart(d.year, d.month)
    else PrevDay(d)
  }

  /** The date reached after `j` steps back from `today`. */
  function BackDate(frequency: Frequency, today: Date, j: nat): (r: Date)
    requires ValidDate(today)
    ensures ValidDate(r)
  {
    if j == 0 then today else StepBack(frequency, BackDate(frequency, today, j - 1))
  }

  /** The `j`-th period before the current one. */
  function Window(frequency: Frequency, today: Date, j: nat): Period
    requires ValidDate(today)
  {
    GetCurrentPeriod(frequency, BackDate(frequency, today, j))
  }

  /** The week of `d` starts `Weekday(Ordinal(d))` days before it. */
  lemma WeekStartOf(d: Date)
    requires ValidDate(d)
    ensures GetCurrentPeriod(Weekly, d).startDay == Ordinal(d) - Weekday(Ordinal(d))
    ensures GetCurrentPeriod(Weekly, d).endDay == Ordinal(d) - Weekday(Ordinal(d)) + 7
  {
    WeekStartUnique(GetCurrentPeriod(Weekly, d).startDay, Ordinal(d));
  }

  lemma WeekBackAdjacent(d: Date)
    requires ValidDate(d)
    ensures GetCurrentPeriod(Weekly, AddDays(d, -7)).endDay == GetCurrentPeriod(Weekly, d).startDay
  {
    var e := AddDays(d, -7);
    AddDaysOrdinal(d, -7);
    WeekStartOf(d);
    WeekStartOf(e);
    WeekdayRepeats(Ordinal(e));
  }

  /** Days a week apart share their weekday. */
  lemma WeekdayRepeats(n: int)
    ensures Weekday(n + 7) == Weekday(n)
  {
    var q := (n + 6) / 7;
    assert n + 6 == 7 * q + Weekday(n);
    assert n + 13 == 7 * (q + 1) + Weekday(n);
  }

  lemma MonthBackAdjacent(d: Date)
    requires ValidDate(d)
    ensures GetCurrentPeriod(Monthly, PrevMonthStart(d.year, d.month)).endDay
         == GetCurrentPeriod(Monthly, d).startDay
  {
    PrevMonthStartOrdinal(d.year, d.month);
  }

  lemma DayBackAdjacent(frequency: Frequency, d: Date)
    requires ValidDate(d) && frequency != Weekly && frequency != Monthly
    ensures GetCurrentPeriod(frequency, PrevDay(d)).endDay == GetCurrentPeriod(frequency, d).startDay
  {
    PrevDayOrdinal(d);
  }

  /** The period of the date one step back ends exactly where the period of
      the date itself starts. */
  lemma StepBackAdjacent(frequency: Frequency, d: Date)
    requires ValidDate(d)
    ensures GetCurrentPeriod(frequency, StepBack(frequency, d)).endDay == GetCurrentPeriod(frequency, d).startDay
  {
    if frequency == Weekly {
      WeekBackAdjacent(d);
    } else if frequency == Monthly {
      MonthBackAdjacent(d);
    } else {
      DayBackAdjacent(frequency, d);
    }
  }

  /** The streak walks back over consecutive periods: the first ends where
      the current one starts (so the current period is never counted), and
      each later one ends where the one before it starts. */
  lemma StreakWindowsConsecutive(frequency: Frequency, today: Date, j: nat)
    requires ValidDate(today)
    ensures Window(frequency, today, j + 1).endDay == Window(frequency, today, j).startDay
    ensures Window(frequency, today, 1).endDay == GetCurrentPeriod(frequency, today).startDay
  {
    assert BackDate(frequency, today, j + 1) == StepBack(frequency, BackDate(frequency, today, j));
    assert BackDate(frequency, today, 1) == StepBack(frequency, today);
    StepBackAdjacent(frequency, BackDate(frequency, today, j));
    StepBackAdjacent(frequency, today);
  }

  predicate FullyPaid(expected: int, paid: int) {
    expected > 0 && paid >= expected
  }

  /** What the client paid in the `j`-th period before the current one. */
  function WindowPaid(ts: seq<Transaction>, clientId: nat, frequency: Frequency, today: Date): nat -> int
    requires ValidDate(today)
  {
    (j: nat) => ClientPaidIn(ts, clientId, Window(frequency, today, j))
  }

  /** `n` is the payment streak: the `n` periods before the current one were
      each paid in full, at most 90 are looked at, and unless the cap was
      reached the next one back was not. */
  predicate IsStreak(ts: seq<Transaction>, clientId: nat, frequency: Frequency, today: Date,
                     expected: int, n: nat)
    requires ValidDate(today)
  {
    var paid := WindowPaid(ts, clientId, frequency, today);
    n <= 90 && PaidThrough(paid, expected, n) && (n < 90 ==> !FullyPaid(expected, paid(n + 1)))
  }

  /** One more period paid in full extends the run. */
  lemma PaidThroughNext(paid: nat -> int, expected: int, n: nat, amount: int)
    requires PaidThrough(paid, expected, n) && paid(n + 1) == amount && FullyPaid(expected, amount)
    ensures PaidThrough(paid, expected, n + 1)
  {
  }

  /** Periods `1` to `n` were each paid in full. */
  predicate PaidThrough(paid: nat -> int, expected: int, n: nat) {
    n == 0 || (PaidThrough(paid, expected, n - 1) && FullyPaid(expected, paid(n)))
  }

  /** Each of the first `n` periods was paid in full. */
  lemma {:induction false} PaidThroughAt(paid: nat -> int, expected: int, n: nat, j: nat)
    requires PaidThrough(paid, expected, n) && 1 <= j <= n
    ensures FullyPaid(expected, paid(j))
  {
    if j < n {
      PaidThroughAt(paid, expected, n - 1, j);
    }
  }

  /** A streak count is determined by what was paid: two counts that both
      stop at the first period not paid in full, or at the cap, are equal. */
  lemma StopsAtFirstGap(paid: nat -> int, expected: int, n: nat, m: nat)
    requires n <= 90 && PaidThrough(paid, expected, n) && (n < 90 ==> !FullyPaid(expected, paid(n + 1)))
    requires m <= 90 && PaidThrough(paid, expected, m) && (m < 90 ==> !FullyPaid(expected, paid(m + 1)))
    ensures n == m
  {
    if n != m {
      var lo, hi := if n < m then n else m, if n < m then m else n;
      PaidThroughAt(paid, expected, hi, lo + 1);
    }
  }

  /** One step of the streak loop: stepping back from the `i`-th check
      date gives the next one, whose period is window `i + 1`. */
  lemma StreakStep(ts: seq<Transaction>, clientId: nat, frequency: Frequency, today: Date, i: nat, checkDate: Date)
    requires ValidDate(today) && ValidDate(checkDate) && checkDate == BackDate(frequency, today, i)
    ensures StepBack(frequency, checkDate) == BackDate(frequency, today, i + 1)
    ensures ClientPaidIn(ts, clientId, GetCurrentPeriod(frequency, StepBack(frequency, checkDate)))
      == WindowPaid(ts, clientId, frequency, today)(i + 1)
  {
  }

  /** One round of the streak loop: step back from the check date, and sum
      what the client paid in the period of the date reached. */
  method PreviousPeriodPaid(ts: seq<Transaction>, clientId: nat, frequency: Frequency, today: Date,
                            ghost i: nat, checkDate: Date)
    returns (next: Date, pPaid: int)
    requires ValidDate(today) && ValidDate(checkDate) && checkDate == BackDate(frequency, today, i)
    ensures ValidDate(next) && next == BackDate(frequency, today, i + 1)
    ensures pPaid == WindowPaid(ts, clientId, frequency, today)(i + 1)
  {
    StreakStep(ts, clientId, frequency, today, i, checkDate);
    next := StepBack(frequency, checkDate);
    var p := GetCurrentPeriod(frequency, next);
    pPaid := ClientPaidIn(ts, clientId, p);
  }

  /** The streak loop of `get_client_analytics`. */
  method PaymentStreak(ts: seq<Transaction>, clientId: nat, frequency: Frequency, today: Date, expected: int)
    returns (streak: nat)
    requires ValidDate(today)
    ensures IsStreak(ts, clientId, frequency, today, expected, streak)
  {
    streak := 0;
    var checkDate := today;
    var i := 0;
    ghost var paid := WindowPaid(ts, clientId, frequency, today);
    while i < 90
      invariant 0 <= i <= 90 && streak == i
      invariant ValidDate(checkDate) && checkDate == BackDate(frequency, today, i)
      invariant PaidThrough(paid, expected, i)
    {
      var pPaid;
      checkDate, pPaid := PreviousPeriodPaid(ts, clientId, frequency, today, i, checkDate);
      if expected > 0 && pPaid >= expected {
        PaidThroughNext(paid, expected, i, pPaid);
        streak := streak + 1;
      } else {
        break;
      }
      i := i + 1;
    }
  }

  /** The streak is determined by the payments: two counts that both meet
      `IsStreak` are equal. */
  lemma StreakUnique(ts: seq<Transaction>, clientId: nat, frequency: Frequency, today: Date,
                     expected: int, n: nat, m: nat)
    requires ValidDate(today)
    requires IsStreak(ts, clientId, frequency, today, expected, n)
    requires IsStreak(ts, clientId, frequency, today, expected, m)
    ensures n == m
  {
    StopsAtFirstGap(WindowPaid(ts, clientId, frequency, today), expected, n, m);
  }

  /** With nothing expected the streak is 0. */
  lemma NoStreakWithoutContribution(ts: seq<Transaction>, clientId: nat, frequency: Frequency, today: Date,
                                    expected: int)
    requires ValidDate(today) && expected <= 0
    ensures IsStreak(ts, clientId, frequency, today, expected, 0)
  {
  }

  /** `group_paid`: the clients in the collector's payment dictionary whose
      period sum counts as paid, active or not. */
  function GroupPaid(payments: map<nat, int>, expected: int): nat {
    |set cid | cid in payments && CountsAsPaid(ClassifyPayment(payments[cid], expected))|
  }

  /** What a month is expected to bring: a daily contribution for every day
      of the month, a weekly one four times, anything else once. */
  function MonthlyExpected(frequency: Frequency, expected: int, today: Date): int
    requires ValidDate(today)
  {
    if frequency == Daily then expected * DaysInMonth(today.year, today.month)
    else if frequency == Weekly then expected * 4
    else expected
  }

  datatype PeriodStatus = PeriodStatus(caption: PeriodLabel, expected: int, paid: int, remaining: int,
                                       status: PaymentStatus)

  datatype ClientAnalytics = ClientAnalytics(
    periodStatus: PeriodStatus,
    paymentStreak: nat,
    monthlyDeposits: int,
    monthlyExpected: int,
    groupPaidCount: nat,
    groupTotalCount: nat)

  /** `get_client_analytics` without its float compliance ratio. */
  method GetClientAnalytics(clients: seq<Client>, ts: seq<Transaction>, client: Client,
                            expected: int, frequency: Frequency, today: Date)
    returns (a: ClientAnalytics)
    requires ValidDate(today)
    ensures var p := GetCurrentPeriod(frequency, today);
      var s := a.periodStatus;
      s.caption == p.caption && s.expected == expected
      && s.paid == ClientPaidIn(ts, client.id, p)
      && s.status == ClassifyPayment(s.paid, expected)
      && s.remaining >= 0 && s.remaining >= expected - s.paid
      && (s.remaining == 0 || s.remaining == expected - s.paid)
    ensures IsStreak(ts, client.id, frequency, today, expected, a.paymentStreak)
    ensures a.monthlyDeposits == ClientPaidIn(ts, client.id, GetCurrentPeriod(Monthly, today))
    ensures a.monthlyExpected == MonthlyExpected(frequency, expected, today)
    ensures a.groupTotalCount == |Select(clients, ActiveOf(client.collectorId))|
    ensures a.groupPaidCount
         == GroupPaid(PeriodPayments(ts, client.collectorId, GetCurrentPeriod(frequency, today)), expected)
  {
    var period := GetCurrentPeriod(frequency, today);
    var paid := ClientPaidIn(ts, client.id, period);
    var remaining := if expected - paid > 0 then expected - paid else 0;
    var status := ClassifyPayment(paid, expected);
    var periodStatus := PeriodStatus(period.caption, expected, paid, remaining, status);

    var streak := PaymentStreak(ts, client.id, frequency, today, expected);

    var month := GetCurrentPeriod(Monthly, today);
    var daysInMonth := month.endDay - month.startDay;
    assert daysInMonth == DaysInMonth(today.year, today.month);
    var monthlyDeposits := ClientPaidIn(ts, client.id, month);
    var monthlyExpected := if frequency == Daily then expected * daysInMonth
                           else if frequency == Weekly then expected * 4
                           else expected;

    var groupTotal := |Select(clients, ActiveOf(client.collectorId))|;
    var payments := PeriodPayments(ts, client.collectorId, period);
    var groupPaid := GroupPaid(payments, expected);
    a := ClientAnalytics(periodStatus, streak, monthlyDeposits, monthlyExpected, groupPaid, groupTotal);
  }

  /** `group_paid` counts inactive clients too, while `group_total` counts only
      active ones: a deactivated client who paid this period makes the paid
      count exceed the total. */
  lemma GroupPaidCanExceedTotal(today: Date, expected: int)
    requires ValidDate(today) && expected > 0
    ensures var clients := [Client(0, 0, "Ama", "0241234567", expected, None, false)];
      var t := Transaction(0, 0, 0, expected, None, Screenshot, TrustLow, Confirmed, None, None, None, None,
                           Midnight(Ordinal(today)), Some(Midnight(Ordinal(today))));
      var p := GetCurrentPeriod(Daily, today);
      GroupPaid(PeriodPayments([t], 0, p), expected) == 1
      && |Select(clients, ActiveOf(0))| == 0
  {
    var clients := [Client(0, 0, "Ama", "0241234567", expected, None, false)];
    var t := Transaction(0, 0, 0, expected, None, Screenshot, TrustLow, Confirmed, None, None, None, None,
                         Midnight(Ordinal(today)), Some(Midnight(Ordinal(today))));
    var p := GetCurrentPeriod(Daily, today);
    var m := PeriodPayments([t], 0, p);
    assert CollectorPaidWithin(0, Midnight(p.startDay), Midnight(p.endDay))(t);
    assert 0 in m;
    assert m.Keys == {0};
    var inPeriod := Select([t], CollectorPaidWithin(0, Midnight(p.startDay), Midnight(p.endDay)));
    assert inPeriod == [t];
    assert Select(inPeriod, OfClient(0)) == [t];
    assert [t][1..] == [];
    assert m[0] == SumOf([t], TxnAmount) == expected;
    assert (set cid | cid in m && CountsAsPaid(ClassifyPayment(m[cid], expected))) == {0};
    assert Select(clients, ActiveOf(0)) == [];
  }
}
