/** The proleptic Gregorian calendar of Python's `datetime.date`: day
    ordinals (`date.toordinal()`, 0001-01-01 is day 1), month lengths, weekdays
    (Monday is 0) and instants counted in seconds from the start of day 0. */
module Calendar {

  datatype Date = Date(year: int, month: int, day: int)

  const SecondsPerDay: int := 86400

  predicate IsLeap(y: int) {
    y % 4 == 0 && (y % 100 != 0 || y % 400 == 0)
  }

  function DaysInYear(y: int): int {
    if IsLeap(y) then 366 else 365
  }

  function DaysInMonth(y: int, m: int): (n: int)
    requires 1 <= m <= 12
    ensures 28 <= n <= 31
    ensures n == 29 <==> m == 2 && IsLeap(y)
  {
    if m == 2 then (if IsLeap(y) then 29 else 28)
    else if m == 4 || m == 6 || m == 9 || m == 11 then 30
    else 31
  }

  predicate ValidDate(d: Date) {
    1 <= d.month <= 12 && 1 <= d.day <= DaysInMonth(d.year, d.month)
  }

  /** Days in the years before `y` (Python's `_days_before_year`). */
  function DaysBeforeYear(y: int): int {
    var p := y - 1;
    p * 365 + p / 4 - p / 100 + p / 400
  }

  /** Days in the months of year `y` before month `m`. */
  function DaysBeforeMonth(y: int, m: int): int
    requires 1 <= m <= 13
  {
    if m == 1 then 0 else DaysBeforeMonth(y, m - 1) + DaysInMonth(y, m - 1)
  }

  function Ordinal(d: Date): int
    requires 1 <= d.month <= 12
  {
    DaysBeforeYear(d.year) + DaysBeforeMonth(d.year, d.month) + d.day
  }

  /** Python's `date.weekday()` of the date with ordinal `n`: 0 is Monday. */
  function Weekday(n: int): (w: int)
    ensures 0 <= w < 7
  {
    (n + 6) % 7
  }

  /** The instant `hour:minute` (24-hour clock) on date `d`. */
  function InstantOf(d: Date, hour: int, minute: int): int
    requires 1 <= d.month <= 12
  {
    Ordinal(d) * SecondsPerDay + hour * 3600 + minute * 60
  }

  /** Midnight at the start of the day with ordinal `n`. */
  function Midnight(n: int): int {
    n * SecondsPerDay
  }

  lemma DivStep(y: int, n: int)
    requires n == 4 || n == 100 || n == 400
    ensures y / n - (y - 1) / n == if y % n == 0 then 1 else 0
  {
    var q, r := y / n, y % n;
    assert y == n * q + r && 0 <= r < n;
    if r == 0 {
      assert y - 1 == n * (q - 1) + (n - 1);
    } else {
      assert y - 1 == n * q + (r - 1);
    }
  }

  /** A year divisible by 400 is divisible by 100, and one divisible by
      100 is divisible by 4. */
  lemma DivisibleChain(y: int)
    ensures y % 400 == 0 ==> y % 100 == 0
    ensures y % 100 == 0 ==> y % 4 == 0
  {
    if y % 400 == 0 {
      var k := y / 400;
      assert y == 100 * (4 * k);
    }
    if y % 100 == 0 {
      var k := y / 100;
      assert y == 4 * (25 * k);
    }
  }

  lemma YearStep(y: int)
    ensures DaysBeforeYear(y + 1) - DaysBeforeYear(y)
      == 365 + (y / 4 - (y - 1) / 4) - (y / 100 - (y - 1) / 100) + (y / 400 - (y - 1) / 400)
  {
  }

  /** Consecutive years are one year length apart. */
  lemma YearLength(y: int)
    ensures DaysBeforeYear(y + 1) == DaysBeforeYear(y) + DaysInYear(y)
  {
    YearStep(y);
    DivStep(y, 4);
    DivStep(y, 100);
    DivStep(y, 400);
    DivisibleChain(y);
  }

  lemma MonthsFillYear(y: int)
    ensures DaysBeforeMonth(y, 13) == DaysInYear(y)
  {
    var feb := DaysInMonth(y, 2);
    assert DaysBeforeMonth(y, 2) == 31;
    assert DaysBeforeMonth(y, 3) == 31 + feb;
    assert DaysBeforeMonth(y, 4) == 62 + feb;
    assert DaysBeforeMonth(y, 5) == 92 + feb;
    assert DaysBeforeMonth(y, 6) == 123 + feb;
    assert DaysBeforeMonth(y, 7) == 153 + feb;
    assert DaysBeforeMonth(y, 8) == 184 + feb;
    assert DaysBeforeMonth(y, 9) == 215 + feb;
    assert DaysBeforeMonth(y, 10) == 245 + feb;
    assert DaysBeforeMonth(y, 11) == 276 + feb;
    assert DaysBeforeMonth(y, 12) == 306 + feb;
  }

  /** The first day of the month after month `m` of year `y`, with December
      wrapping to January of the next year. */
  function NextMonthStart(y: int, m: int): (d: Date)
    requires 1 <= m <= 12
    ensures ValidDate(d) && d.day == 1
  {
    if m == 12 then Date(y + 1, 1, 1) else Date(y, m + 1, 1)
  }

  /** The first day of the month before month `m` of year `y`, with January
      wrapping to December of the previous year. */
  function PrevMonthStart(y: int, m: int): (d: Date)
    requires 1 <= m <= 12
    ensures ValidDate(d) && d.day == 1
  {
    if m == 1 then Date(y - 1, 12, 1) else Date(y, m - 1, 1)
  }

  /** The month after `m` starts exactly `DaysInMonth(y, m)` days after the
      first of `m`. */
  lemma NextMonthStartOrdinal(y: int, m: int)
    requires 1 <= m <= 12
    ensures Ordinal(NextMonthStart(y, m)) == Ordinal(Date(y, m, 1)) + DaysInMonth(y, m)
  {
    if m == 12 {
      YearLength(y);
      MonthsFillYear(y);
    }
  }

  lemma PrevMonthStartOrdinal(y: int, m: int)
    requires 1 <= m <= 12
    ensures var p := PrevMonthStart(y, m);
      Ordinal(p) + DaysInMonth(p.year, p.month) == Ordinal(Date(y, m, 1))
  {
    var p := PrevMonthStart(y, m);
    NextMonthStartOrdinal(p.year, p.month);
  }

  function NextDay(d: Date): (r: Date)
    requires ValidDate(d)
    ensures ValidDate(r)
  {
    if d.day < DaysInMonth(d.year, d.month) then Date(d.year, d.month, d.day + 1)
    else NextMonthStart(d.year, d.month)
  }

  function PrevDay(d: Date): (r: Date)
    requires ValidDate(d)
    ensures ValidDate(r)
  {
    if d.day > 1 then Date(d.year, d.month, d.day - 1)
    else
      var p := PrevMonthStart(d.year, d.month);
      Date(p.year, p.month, DaysInMonth(p.year, p.month))
  }

  lemma NextDayOrdinal(d: Date)
    requires ValidDate(d)
    ensures Ordinal(NextDay(d)) == Ordinal(d) + 1
  {
    if d.day == DaysInMonth(d.year, d.month) {
      NextMonthStartOrdinal(d.year, d.month);
    }
  }

  lemma PrevDayOrdinal(d: Date)
    requires ValidDate(d)
    ensures Ordinal(PrevDay(d)) == Ordinal(d) - 1
  {
    if d.day == 1 {
      PrevMonthStartOrdinal(d.year, d.month);
    }
  }

  /** `d + timedelta(days=k)`, one day at a time. */
  function AddDays(d: Date, k: int): (r: Date)
    requires ValidDate(d)
    ensures ValidDate(r)
    decreases if k < 0 then -k else k
  {
    if k == 0 then d
    else if k > 0 then AddDays(NextDay(d), k - 1)
    else AddDays(PrevDay(d), k + 1)
  }

  /** Adding days moves the ordinal by exactly that many days. */
  lemma {:induction false} AddDaysOrdinal(d: Date, k: int)
    requires ValidDate(d)
    ensures Ordinal(AddDays(d, k)) == Ordinal(d) + k
    decreases if k < 0 then -k else k
  {
    if k > 0 {
      NextDayOrdinal(d);
      AddDaysOrdinal(NextDay(d), k - 1);
    } else if k < 0 {
      PrevDayOrdinal(d);
      AddDaysOrdinal(PrevDay(d), k + 1);
    }
  }

  /** Within a month, ordinals are consecutive. */
  lemma OrdinalInMonth(d: Date)
    requires ValidDate(d)
    ensures Ordinal(Date(d.year, d.month, 1)) <= Ordinal(d)
    ensures Ordinal(d) < Ordinal(Date(d.year, d.month, 1)) + DaysInMonth(d.year, d.month)
  {
  }
}
