/** The date picker of the frontend (`components/ui/DatePicker.tsx`): the
    `YYYY-MM-DD` strings it reads and writes, the month it shows and how
    the arrows move it, and the grid of day cells it lays out.

    Months are 0-based here, as in JavaScript's `Date` (0 is January);
    the `Calendar` module counts them from 1.  The current date is a
    parameter (`today`). */
module DatePicker {
  import opened Wrappers
  import opened Text
  import opened Calendar

  // ---------------------------------------------------------------------
  // Writing and reading date strings

  /** A template literal `${n}` of an integer. */
  function IntString(n: int): (s: string)
    ensures n >= 0 ==> AllDigits(s) && DigitsValue(s) == n
    ensures n < 0 ==> |s| >= 2 && s[0] == '-'
  {
    if n < 0 then "-" + NatToString(-n) else NatToString(n)
  }

  /** `pad`: a number below 10 gets a leading "0". */
  function Pad(n: int): (s: string)
    ensures n >= 0 ==> AllDigits(s) && DigitsValue(s) == n
    ensures 0 <= n < 100 ==> |s| == 2
    ensures n >= 10 ==> s[0] != '0'
  {
    if n < 10 then "0" + IntString(n)
    else if n < 100 then
      NumeralLength(n, 2);
      NatToString(n)
    else NatToString(n)
  }

  /** `toDateStr`: year, 1-based month and day, each after a '-' but the
      first, with month and day padded to two digits. */
  function ToDateStr(y: int, m: int, d: int): string
  {
    IntString(y) + "-" + Pad(m + 1) + "-" + Pad(d)
  }

  /** A `YYYY-MM-DD` string for a year of four digits and a month and day
      below 100: ten characters with the separators at places 4 and 7. */
  lemma DateStrShape(y: int, m: int, d: int)
    requires 1000 <= y <= 9999 && 0 <= m < 99 && 0 <= d < 100
    ensures |ToDateStr(y, m, d)| == 10
    ensures ToDateStr(y, m, d)[4] == '-' && ToDateStr(y, m, d)[7] == '-'
    ensures AllDigits(ToDateStr(y, m, d)[..4]) && DigitsValue(ToDateStr(y, m, d)[..4]) == y
  {
    assert Pow10(3) == 1000 && Pow10(4) == 10000;
    NumeralLength(y, 4);
    assert ToDateStr(y, m, d)[..4] == IntString(y);
  }

  /** A JavaScript value as far as `parseDate` produces one: a number, `NaN`,
      or `undefined` for a part the string does not have. */
  datatype JsValue = Num(n: int) | NaN | Undefined

  /** `Number(s)` on a string: surrounding white space is ignored, the empty
      string is 0 and a run of decimal digits is its value; anything else
      is `NaN` here. */
  function JsNumber(s: string): JsValue
  {
    var t := Trim(s);
    if AllDigits(t) then Num(DigitsValue(t)) else NaN
  }

  /** `x - 1` on a value. */
  function Pred(v: JsValue): JsValue {
    match v
    case Num(n) => Num(n - 1)
    case _ => NaN
  }

  datatype ParsedDate = ParsedDate(year: JsValue, month: JsValue, day: JsValue)

  /** `xs.map(f)`. */
  function MapSeq<A, B>(xs: seq<A>, f: A -> B): (ys: seq<B>)
    ensures |ys| == |xs|
    ensures forall k {:trigger ys[k]} :: 0 <= k < |xs| ==> ys[k] == f(xs[k])
  {
    seq(|xs|, k requires 0 <= k < |xs| => f(xs[k]))
  }

  lemma MapThree<A, B>(a: A, b: A, c: A, f: A -> B)
    ensures MapSeq([a, b, c], f) == [f(a), f(b), f(c)]
  {
    var xs := [a, b, c];
    assert xs[0] == a && xs[1] == b && xs[2] == c;
  }

  /** The `i`-th element of an array, `undefined` past its end. */
  function At(vs: seq<JsValue>, i: nat): JsValue {
    if i < |vs| then vs[i] else Undefined
  }

  /** The first three numbers, the month made 0-based. */
  function ReadNumbers(numbers: seq<JsValue>): ParsedDate
  {
    ParsedDate(At(numbers, 0), Pred(At(numbers, 1)), At(numbers, 2))
  }

  /** `parseDate`: split on '-', read each piece with `Number`, take the
      first three and make the month 0-based. */
  function ParseDate(str: string): ParsedDate
  {
    ReadNumbers(MapSeq(Split(str, '-'), JsNumber))
  }

  /** A run of digits is read back by `Number` as its value. */
  lemma NumberOfDigits(s: string)
    requires s != [] && AllDigits(s)
    ensures JsNumber(s) == Num(DigitsValue(s))
  {
    StripNothing(s, IsJsSpace);
  }

  lemma JoinThree(a: string, b: string, c: string, sep: char)
    ensures Join([a, b, c], sep) == a + [sep] + b + [sep] + c
  {
    assert [a, b, c][1..] == [b, c];
    assert [b, c][1..] == [c];
  }

  /** A written date splits into its three numerals. */
  lemma SplitToDateStr(y: nat, m: nat, d: nat)
    ensures Split(ToDateStr(y, m, d), '-') == [IntString(y), Pad(m + 1), Pad(d)]
  {
    var a, b, c := IntString(y), Pad(m + 1), Pad(d);
    JoinThree(a, b, c, '-');
    assert ToDateStr(y, m, d) == Join([a, b, c], '-');
    SplitJoin([a, b, c], '-');
  }

  /** Three numbers read as a date, the month made 0-based. */
  lemma ReadThree(va: int, vb: int, vc: int)
    ensures ReadNumbers([Num(va), Num(vb), Num(vc)]) == ParsedDate(Num(va), Num(vb - 1), Num(vc))
  {
  }

  /** Reading back a written date gives its year, 0-based month and day. */
  lemma ParseToDateStr(y: nat, m: nat, d: nat)
    ensures ParseDate(ToDateStr(y, m, d)) == ParsedDate(Num(y), Num(m), Num(d))
  {
    SplitToDateStr(y, m, d);
    NumberOfDigits(IntString(y));
    NumberOfDigits(Pad(m + 1));
    NumberOfDigits(Pad(d));
    MapThree(IntString(y), Pad(m + 1), Pad(d), JsNumber);
    ReadThree(y, m + 1, d);
  }

  /** `ParseToDateStr` for any arguments, stated for the non-negative ones. */
  lemma ReadBack(y: int, m: int, d: int)
    ensures y >= 0 && m >= 0 && d >= 0 ==> ParseDate(ToDateStr(y, m, d)) == ParsedDate(Num(y), Num(m), Num(d))
  {
    if y >= 0 && m >= 0 && d >= 0 {
      ParseToDateStr(y, m, d);
    }
  }

  // ---------------------------------------------------------------------
  // The month on view

  /** The months counted from January of year 0. */
  function MonthIndex(y: int, m: int): int {
    12 * y + m
  }

  /** `prevMonth`: from January to December of the year before, otherwise
      one month back. */
  function PrevView(y: int, m: int): (v: (int, int))
    ensures m == 0 ==> v == (y - 1, 11)
    ensures m != 0 ==> v == (y, m - 1)
  {
    if m == 0 then (y - 1, 11) else (y, m - 1)
  }

  /** `nextMonth`: from December to January of the year after, otherwise
      one month on. */
  function NextView(y: int, m: int): (v: (int, int))
    ensures m == 11 ==> v == (y + 1, 0)
    ensures m != 11 ==> v == (y, m + 1)
  {
    if m == 11 then (y + 1, 0) else (y, m + 1)
  }

  /** The arrows move the view by exactly one month and keep the month
      within 0..11. */
  lemma ArrowsMoveOneMonth(y: int, m: int)
    requires 0 <= m <= 11
    ensures MonthIndex(PrevView(y, m).0, PrevView(y, m).1) == MonthIndex(y, m) - 1
    ensures MonthIndex(NextView(y, m).0, NextView(y, m).1) == MonthIndex(y, m) + 1
    ensures 0 <= PrevView(y, m).1 <= 11 && 0 <= NextView(y, m).1 <= 11
  {
  }

  /** Going back a month and then on a month returns to the same view, and
      the other way round. */
  lemma ArrowsUndo(y: int, m: int)
    requires 0 <= m <= 11
    ensures NextView(PrevView(y, m).0, PrevView(y, m).1) == (y, m)
    ensures PrevView(NextView(y, m).0, NextView(y, m).1) == (y, m)
  {
  }

  // ---------------------------------------------------------------------
  // The day grid

  /** `new Date(y, ...)` reads a year 0..99 as 1900..1999. */
  function JsYear(y: int): (r: int)
    ensures 0 <= y <= 99 ==> r == 1900 + y
    ensures !(0 <= y <= 99) ==> r == y
  {
    if 0 <= y <= 99 then 1900 + y else y
  }

  /** JavaScript's `getDay()` of the date with ordinal `n`: 0 is Sunday. */
  function JsWeekday(n: int): (w: int)
    ensures 0 <= w < 7
    ensures w == (Weekday(n) + 1) % 7
  {
    n % 7
  }

  /** `new Date(y, m, 1).getDay()`: the column of the first of the month. */
  function FirstColumn(y: int, m: int): (c: int)
    requires 0 <= m <= 11
    ensures 0 <= c < 7
  {
    JsWeekday(Ordinal(Date(JsYear(y), m + 1, 1)))
  }

  /** `new Date(y, m + 1, 0).getDate()`: the last day of month `m`. */
  function MonthLength(y: int, m: int): (n: int)
    requires 0 <= m <= 11
    ensures 28 <= n <= 31
    ensures ValidDate(Date(JsYear(y), m + 1, n)) && !ValidDate(Date(JsYear(y), m + 1, n + 1))
  {
    DaysInMonth(JsYear(y), m + 1)
  }

  /** The picker, as far as its state goes: the month on view. */
  class Picker {
    var viewYear: int
    var viewMonth: int

    /** The view opens on the month of the value, or of today. */
    constructor (year: int, month: int)
      ensures viewYear == year && viewMonth == month
    {
      viewYear := year;
      viewMonth := month;
    }

    method PrevMonth()
      modifies this
      ensures (viewYear, viewMonth) == PrevView(old(viewYear), old(viewMonth))
    {
      if viewMonth == 0 {
        viewMonth := 11;
        viewYear := viewYear - 1;
      } else {
        viewMonth := viewMonth - 1;
      }
    }

    method NextMonth()
      modifies this
      ensures (viewYear, viewMonth) == NextView(old(viewYear), old(viewMonth))
    {
      if viewMonth == 11 {
        viewMonth := 0;
        viewYear := viewYear + 1;
      } else {
        viewMonth := viewMonth + 1;
      }
    }

    /** `selectDay`: the date string of that day of the month on view. */
    method SelectDay(day: int) returns (value: string)
      ensures value == ToDateStr(viewYear, viewMonth, day)
      ensures viewYear >= 0 && viewMonth >= 0 && day >= 0 ==>
        ParseDate(value) == ParsedDate(Num(viewYear), Num(viewMonth), Num(day))
      ensures 1000 <= viewYear <= 9999 && 0 <= viewMonth < 12 && 1 <= day <= 31 ==>
        |value| == 10 && value[4] == '-' && value[7] == '-'
    {
      ReadBack(viewYear, viewMonth, day);
      if 1000 <= viewYear <= 9999 && 0 <= viewMonth < 12 && 1 <= day <= 31 {
        DateStrShape(viewYear, viewMonth, day);
      }
      value := ToDateStr(viewYear, viewMonth, day);
    }

    /** The "Today" button, selecting today's date (see `TodayCorrected`). */
    method SelectToday(today: Date) returns (value: string)
      ensures value == TodayCorrected(today)
    {
      value := TodayCorrected(today);
    }

    /** The grid: one empty cell per weekday before the first of the month,
        then the days 1..N in order. */
    method Cells() returns (cells: seq<Option<int>>)
      requires 0 <= viewMonth <= 11
      ensures |cells| == FirstColumn(viewYear, viewMonth) + MonthLength(viewYear, viewMonth)
      ensures forall i :: 0 <= i < FirstColumn(viewYear, viewMonth) ==> cells[i] == None
      ensures forall i :: FirstColumn(viewYear, viewMonth) <= i < |cells| ==>
        cells[i] == Some(i - FirstColumn(viewYear, viewMonth) + 1)
    {
      var firstDay := FirstColumn(viewYear, viewMonth);
      var daysInMonth := MonthLength(viewYear, viewMonth);
      cells := [];
      var i := 0;
      while i < firstDay
        invariant 0 <= i <= firstDay
        invariant |cells| == i && forall k :: 0 <= k < i ==> cells[k] == None
      {
        cells := cells + [None];
        i := i + 1;
      }
      var d := 1;
      while d <= daysInMonth
        invariant 1 <= d <= daysInMonth + 1
        invariant |cells| == firstDay + d - 1
        invariant forall k :: 0 <= k < firstDay ==> cells[k] == None
        invariant forall k :: firstDay <= k < |cells| ==> cells[k] == Some(k - firstDay + 1)
      {
        cells := cells + [Some(d)];
        d := d + 1;
      }
    }
  }

  /** Each day sits in the column of its weekday (Sunday first), so every
      row of seven cells is one week. */
  lemma DayInItsColumn(y: int, m: int, i: int)
    requires 0 <= m <= 11
    requires FirstColumn(y, m) <= i < FirstColumn(y, m) + MonthLength(y, m)
    ensures i % 7 == JsWeekday(Ordinal(Date(JsYear(y), m + 1, i - FirstColumn(y, m) + 1)))
  {
    var d := i - FirstColumn(y, m) + 1;
    OrdinalOfDay(JsYear(y), m + 1, d);
    ColumnShift(Ordinal(Date(JsYear(y), m + 1, 1)), d, i);
  }

  /** Day `d` of a month is `d - 1` days after its first. */
  lemma OrdinalOfDay(y: int, m: int, d: int)
    requires 1 <= m <= 12
    ensures Ordinal(Date(y, m, d)) == Ordinal(Date(y, m, 1)) + d - 1
  {
  }

  lemma ColumnShift(o: int, d: int, i: int)
    requires i == JsWeekday(o) + d - 1
    ensures i % 7 == JsWeekday(o + d - 1)
  {
    assert o + d - 1 == i + 7 * (o / 7);
  }

  // ---------------------------------------------------------------------
  // The "Today" shortcut

  /** The button as written: `selectDay(today.getDate())`, the day number of
      today in the month on view. */
  function TodayAsWritten(viewYear: int, viewMonth: int, today: Date): (value: string)
    ensures viewYear >= 0 && viewMonth >= 0 && today.day >= 0 ==>
      ParseDate(value) == ParsedDate(Num(viewYear), Num(viewMonth), Num(today.day))
  {
    ReadBack(viewYear, viewMonth, today.day);
    ToDateStr(viewYear, viewMonth, today.day)
  }

  /** The button as intended: today's own date, the string the grid already
      uses to mark today. */
  function TodayCorrected(today: Date): (value: string)
    ensures today.year >= 0 && today.month >= 1 && today.day >= 0 ==>
      ParseDate(value) == ParsedDate(Num(today.year), Num(today.month - 1), Num(today.day))
  {
    ReadBack(today.year, today.month - 1, today.day);
    ToDateStr(today.year, today.month - 1, today.day)
  }

  /** As written, the button selects a date other than today whenever
      another month is on view. */
  lemma TodayAsWrittenMissesToday(viewYear: nat, viewMonth: nat, today: Date)
    requires ValidDate(today) && today.year >= 0
    requires viewYear != today.year || viewMonth != today.month - 1
    ensures ParseDate(TodayAsWritten(viewYear, viewMonth, today)) != ParseDate(TodayCorrected(today))
  {
    var written := ParseDate(TodayAsWritten(viewYear, viewMonth, today));
    var intended := ParseDate(TodayCorrected(today));
    assert written == ParsedDate(Num(viewYear), Num(viewMonth), Num(today.day));
    assert intended == ParsedDate(Num(today.year), Num(today.month - 1), Num(today.day));
    assert written.year != intended.year || written.month != intended.month;
  }

  /** On 31 October 2026 with February 2026 on view the button writes
      "2026-02-31", a day February does not have. */
  lemma TodayAsWrittenInvalidDate()
    ensures ParseDate(TodayAsWritten(2026, 1, Date(2026, 10, 31))) == ParsedDate(Num(2026), Num(1), Num(31))
    ensures !ValidDate(Date(2026, 1 + 1, 31))
  {
  }
}
