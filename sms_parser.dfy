/** The MTN Mobile Money confirmation-SMS parser.

    The parser searches the text once per field, each with its own pattern, all
    matched case-insensitively.  Every pattern is modelled as a scanner that
    tries to match at one start index (`AmountAt`, `NameAt`, ...); `Search`
    tries the start indices from left to right, as a regular-expression search
    does.  The greedy and lazy repetitions of the patterns leave exactly one
    way to match at a given index, which is what each scanner computes.

    Amounts are integer pesewas (hundredths of a cedi).  Times are naive
    date-times with a 24-hour clock. */
module SmsParser {
  import opened Wrappers
  import opened Text
  import opened Calendar

  /** A naive date and time of day, as `datetime.strptime` returns it. */
  datatype DateTime = DateTime(date: Date, hour: int, minute: int)

  datatype Confidence = High | Partial | Failed

  datatype ParsedSms = ParsedSms(
    amount: Option<int>,
    recipientName: Option<string>,
    recipientPhone: Option<string>,
    transactionId: Option<string>,
    transactionDate: Option<DateTime>,
    rawText: string,
    confidence: Confidence)

  /** The amount text has no digit at all (`float("")` or `float(".")`). */
  datatype ParseError = AmountNotANumber(capture: string)

  // ---------------------------------------------------------------------
  // Scanning helpers

  /** The end of the longest run of characters satisfying `p` from `j`. */
  function RunEnd(t: string, j: nat, p: char -> bool): (k: nat)
    requires j <= |t|
    ensures j <= k <= |t|
    ensures forall m :: j <= m < k ==> p(t[m])
    ensures k == |t| || !p(t[k])
    decreases |t| - j
  {
    if j == |t| || !p(t[j]) then j else RunEnd(t, j + 1, p)
  }

  /** `re.search`: the match at the leftmost start index from `i` on. */
  function Search<T>(t: string, i: nat, at: (string, nat) -> Option<T>): (r: Option<T>)
    requires i <= |t|
    ensures r.Some? ==> exists j :: i <= j <= |t| && at(t, j) == r
    ensures r.None? <==> forall j :: i <= j <= |t| ==> at(t, j).None?
    decreases |t| - i
  {
    if at(t, i).Some? then at(t, i)
    else if i == |t| then None
    else Search(t, i + 1, at)
  }

  /** The match `Search` returns is the one at the least start index. */
  lemma {:induction false} SearchIsLeftmost<T>(t: string, i: nat, at: (string, nat) -> Option<T>, j: nat)
    requires i <= j <= |t|
    requires at(t, j).Some?
    requires forall m :: i <= m < j ==> at(t, m).None?
    ensures Search(t, i, at) == at(t, j)
    decreases j - i
  {
    if i < j {
      SearchIsLeftmost(t, i + 1, at, j);
    }
  }

  predicate IsAmountChar(c: char) { IsDigit(c) || c == ',' }

  predicate IsIdSeparator(c: char) { c == ':' || IsSpace(c) }

  predicate IsNameChar(c: char) { IsAsciiLetter(c) || IsSpace(c) }

  predicate IsGapChar(c: char) { IsDigit(c) || c == '.' || c == ',' || IsSpace(c) }

  /** After `word` at `i`, a run of at least one whitespace character; the
      index where the run ends, if there is one. */
  function AfterWordAndSpaces(t: string, i: nat, word: string): (k: Option<nat>)
    ensures k.Some? ==> i + |word| < k.value <= |t| && MatchesWordAt(t, i, word)
    ensures k.Some? ==> forall m :: i + |word| <= m < k.value ==> IsSpace(t[m])
  {
    if MatchesWordAt(t, i, word) then
      var k := RunEnd(t, i + |word|, IsSpace);
      if k > i + |word| then Some(k) else None
    else None
  }

  // ---------------------------------------------------------------------
  // amount: sent\s+GHS\s?([\d,]+\.?\d*)

  /** The captured amount text: a run of digits and commas, then optionally a
      point and the digits after it. */
  datatype AmountText = AmountText(whole: string, fraction: Option<string>)

  predicate WellFormedAmount(a: AmountText) {
    |a.whole| > 0 && (forall k :: 0 <= k < |a.whole| ==> IsAmountChar(a.whole[k]))
    && (a.fraction.Some? ==> AllDigits(a.fraction.value))
  }

  function AmountAt(t: string, i: nat): (r: Option<AmountText>)
    ensures r.Some? ==> WellFormedAmount(r.value)
  {
    match AfterWordAndSpaces(t, i, "sent")
    case None => None
    case Some(k) =>
      if !MatchesWordAt(t, k, "ghs") then None
      else
        var p := k + 3;
        var q := if p < |t| && IsSpace(t[p]) then p + 1 else p;
        if q < |t| && IsAmountChar(t[q]) then
          var r := RunEnd(t, q, IsAmountChar);
          if r < |t| && t[r] == '.' then
            var f := RunEnd(t, r + 1, IsDigit);
            Some(AmountText(t[q..r], Some(t[r + 1..f])))
          else Some(AmountText(t[q..r], None))
        else None
  }

  /** The fraction digits rounded half-up to two places, in hundredths. */
  function FractionHundredths(f: string): (v: nat)
    requires AllDigits(f)
    ensures v <= 100
  {
    var d1 := if |f| > 0 then DigitValue(f[0]) else 0;
    var d2 := if |f| > 1 then DigitValue(f[1]) else 0;
    var up := if |f| > 2 && DigitValue(f[2]) >= 5 then 1 else 0;
    d1 * 10 + d2 + up
  }

  /** `float(text.replace(",", ""))`, rounded to pesewas: the commas are
      dropped; without any digit the conversion fails. */
  function AmountValue(a: AmountText): (r: Option<int>)
    requires WellFormedAmount(a)
    ensures r.None? <==> Filter(a.whole, IsDigit) == [] && (a.fraction.None? || a.fraction.value == [])
    ensures r.Some? ==> 100 * DigitsValue(Filter(a.whole, IsDigit)) <= r.value <= 100 * DigitsValue(Filter(a.whole, IsDigit)) + 100
    ensures a.fraction.None? && r.Some? ==> r.value == 100 * DigitsValue(Filter(a.whole, IsDigit))
    ensures a.fraction.Some? && |a.fraction.value| == 2
            ==> r == Some(100 * DigitsValue(Filter(a.whole, IsDigit)) + DigitsValue(a.fraction.value))
  {
    var digits := Filter(a.whole, IsDigit);
    var frac := a.fraction.GetOr([]);
    TwoDigitsValue(frac);
    if digits == [] && frac == [] then None
    else Some(DigitsValue(digits) * 100 + FractionHundredths(frac))
  }

  /** Two digits read as a number: tens, then units. */
  lemma TwoDigitsValue(f: string)
    requires AllDigits(f)
    ensures |f| == 2 ==> DigitsValue(f) == DigitValue(f[0]) * 10 + DigitValue(f[1])
  {
    if |f| == 2 {
      assert f[..|f| - 1] == f[..1] && f[..1][..0] == [];
      assert DigitsValue(f[..1]) == DigitValue(f[0]);
    }
  }

  /** Commas in the whole part do not change the amount: it is the amount of
      the same text with its commas removed. */
  lemma CommasIgnored(a: AmountText)
    requires WellFormedAmount(a) && Filter(a.whole, IsDigit) != []
    ensures WellFormedAmount(a.(whole := Filter(a.whole, IsDigit)))
    ensures AmountValue(a) == AmountValue(a.(whole := Filter(a.whole, IsDigit)))
  {
    var digits := Filter(a.whole, IsDigit);
    FilterShape(digits, IsDigit);
  }

  lemma CommaDropped()
    ensures Filter("1,500", IsDigit) == "1500"
  {
    assert "1,500"[1..] == ",500" && ",500"[1..] == "500";
    assert Filter("500", IsDigit) == "500";
    assert Filter(",500", IsDigit) == "500";
  }

  lemma FifteenHundred()
    ensures DigitsValue("1500") == 1500
  {
    assert "1500"[..3] == "150" && "150"[..2] == "15" && "15"[..1] == "1";
  }

  /** Commas are ignored: "1,500.00" is 1500 cedis. */
  lemma AmountWithCommas()
    ensures AmountValue(AmountText("1,500", Some("00"))) == Some(150000)
  {
    CommaDropped();
    FifteenHundred();
  }

  /** An amount without a fraction: "100" is 100 cedis. */
  lemma AmountWithoutFraction()
    ensures AmountValue(AmountText("100", None)) == Some(10000)
  {
    assert Filter("100", IsDigit) == "100";
    assert "100"[..2] == "10" && "10"[..1] == "1";
    assert DigitsValue("100") == 100;
  }

  /** Commas alone, with or without a point, are not a number. */
  lemma AmountWithoutDigits()
    ensures AmountValue(AmountText(",", None)).None?
    ensures AmountValue(AmountText(",,", Some(""))).None?
  {
    assert Filter(",", IsDigit) == [];
    assert Filter(",,", IsDigit) == [];
  }

  // ---------------------------------------------------------------------
  // recipient_name: sent\s+GHS[\d.,\s]+to\s+([A-Za-z\s]+?)\s*\(

  /** The lazy capture between "to" and "(" consists of letters and
      whitespace only; what `strip()` leaves of it is the run of letters and
      whitespace before "(" with its ends stripped. */
  function NameAt(t: string, i: nat): (r: Option<string>)
    ensures r.Some? ==> (forall k :: 0 <= k < |r.value| ==> IsNameChar(r.value[k]))
    ensures r.Some? ==> r.value == Strip(r.value)
  {
    match AfterWordAndSpaces(t, i, "sent")
    case None => None
    case Some(k) =>
      if !MatchesWordAt(t, k, "ghs") then None
      else
        var p := k + 3;
        var g := RunEnd(t, p, IsGapChar);
        if g > p && MatchesWordAt(t, g, "to") then NameAfterTo(t, g + 2) else None
  }

  /** `\s+([A-Za-z\s]+?)\s*\(` at index `a`, stripped. */
  function NameAfterTo(t: string, a: nat): (r: Option<string>)
    requires a <= |t|
    ensures r.Some? ==> (forall k :: 0 <= k < |r.value| ==> IsNameChar(r.value[k]))
    ensures r.Some? ==> r.value == Strip(r.value)
  {
    var e := RunEnd(t, a, IsNameChar);
    if a < |t| && IsSpace(t[a]) && e >= a + 2 && e < |t| && t[e] == '(' then
      StrippedName(t[a..e]);
      Some(Strip(t[a..e]))
    else None
  }

  lemma StrippedName(s: string)
    requires forall k :: 0 <= k < |s| ==> IsNameChar(s[k])
    ensures forall k :: 0 <= k < |Strip(s)| ==> IsNameChar(Strip(s)[k])
    ensures Strip(Strip(s)) == Strip(s)
  {
    StripIdempotent(s, IsSpace);
    StripShape(s, IsSpace);
    var a := StripStart(s, IsSpace);
    var r := Strip(s);
    forall k | 0 <= k < |r| ensures IsNameChar(r[k]) {
      assert r[k] == a[k] == s[|s| - |a| + k];
    }
  }

  // ---------------------------------------------------------------------
  // recipient_phone: to\s+[^(]+\((0\d{9})\)

  predicate NotOpenParen(c: char) { c != '(' }

  function PhoneAt(t: string, i: nat): (r: Option<string>)
    ensures r.Some? ==> |r.value| == 10 && r.value[0] == '0' && AllDigits(r.value)
  {
    if MatchesWordAt(t, i, "to") && i + 2 < |t| && IsSpace(t[i + 2]) then
      var a := i + 2;
      var p := RunEnd(t, a, NotOpenParen);
      if p >= a + 2 && p + 12 <= |t| && t[p] == '(' && t[p + 1] == '0'
         && AllDigits(t[p + 2..p + 11]) && t[p + 11] == ')' then
        var phone := t[p + 1..p + 11];
        assert forall k :: 1 <= k < 10 ==> phone[k] == t[p + 2..p + 11][k - 1];
        Some(phone)
      else None
    else None
  }

  // ---------------------------------------------------------------------
  // transaction_id: Transaction\s+ID[:\s]+([A-Za-z0-9]+)

  /** Where the capture lies: the longest alphanumeric run after the label
      and its separators, never followed by another letter or digit. */
  function TransactionIdSpan(t: string, i: nat): (r: Option<(nat, nat)>)
    ensures r.Some? ==> r.value.0 < r.value.1 <= |t|
    ensures r.Some? ==> forall m :: r.value.0 <= m < r.value.1 ==> IsAsciiAlnum(t[m])
    ensures r.Some? ==> r.value.1 == |t| || !IsAsciiAlnum(t[r.value.1])
  {
    match AfterWordAndSpaces(t, i, "transaction")
    case None => None
    case Some(k) =>
      if !MatchesWordAt(t, k, "id") then None
      else
        var p := k + 2;
        var q := RunEnd(t, p, IsIdSeparator);
        var e := RunEnd(t, q, IsAsciiAlnum);
        if q > p && e > q then Some((q, e)) else None
  }

  function TransactionIdAt(t: string, i: nat): (r: Option<string>)
    ensures r.Some? ==> |r.value| > 0 && forall k :: 0 <= k < |r.value| ==> IsAsciiAlnum(r.value[k])
  {
    match TransactionIdSpan(t, i)
    case None => None
    case Some((q, e)) => Some(t[q..e])
  }

  // ---------------------------------------------------------------------
  // date: Date[:\s]+(\d{2}/\d{2}/\d{4}\s+\d{1,2}:\d{2}\s+[AP]M)

  /** The pieces of the captured date text, as digit strings. */
  datatype DateText = DateText(day: string, month: string, year: string, hour: string, minute: string, pm: bool)

  predicate WellFormedDateText(d: DateText) {
    |d.day| == 2 && |d.month| == 2 && |d.year| == 4 && 1 <= |d.hour| <= 2 && |d.minute| == 2
    && AllDigits(d.day) && AllDigits(d.month) && AllDigits(d.year) && AllDigits(d.hour) && AllDigits(d.minute)
  }

  predicate DigitsAt(t: string, j: nat, n: nat) {
    j + n <= |t| && AllDigits(t[j..j + n])
  }

  /** `\d{2}/\d{2}/\d{4}` at index `q`. */
  predicate DayMonthYearAt(t: string, q: nat) {
    DigitsAt(t, q, 2) && q + 2 < |t| && t[q + 2] == '/' && DigitsAt(t, q + 3, 2)
    && q + 5 < |t| && t[q + 5] == '/' && DigitsAt(t, q + 6, 4)
  }

  function DateTextAt(t: string, i: nat): (r: Option<DateText>)
    ensures r.Some? ==> WellFormedDateText(r.value)
  {
    if !MatchesWordAt(t, i, "date") then None
    else
      var p := i + 4;
      var q := RunEnd(t, p, IsIdSeparator);
      if q > p then DateFieldsAt(t, q) else None
  }

  /** The date and time fields from index `q`, past the separator. */
  function DateFieldsAt(t: string, q: nat): (r: Option<DateText>)
    ensures r.Some? ==> WellFormedDateText(r.value)
  {
    if DayMonthYearAt(t, q) then
      var s1 := RunEnd(t, q + 10, IsSpace);
      if s1 > q + 10 then
        match ClockTextAt(t, s1)
        case None => None
        case Some((hour, minute, pm)) =>
          Some(DateText(t[q..q + 2], t[q + 3..q + 5], t[q + 6..q + 10], hour, minute, pm))
      else None
    else None
  }

  /** `\d{1,2}:\d{2}\s+[AP]M` at index `s1`: the hour, the minute and whether
      it is PM.  The hour takes two digits when a second digit follows, and
      then ':' must come after those two. */
  function ClockTextAt(t: string, s1: nat): (r: Option<(string, string, bool)>)
    ensures r.Some? ==> 1 <= |r.value.0| <= 2 && AllDigits(r.value.0) && |r.value.1| == 2 && AllDigits(r.value.1)
  {
    if s1 < |t| && IsDigit(t[s1]) then
      var h := if s1 + 1 < |t| && IsDigit(t[s1 + 1]) then 2 else 1;
      var c := s1 + h;
      if c < |t| && t[c] == ':' && DigitsAt(t, c + 1, 2) then
        var s2 := RunEnd(t, c + 3, IsSpace);
        if s2 > c + 3 && s2 + 2 <= |t| && (LowerChar(t[s2]) == 'a' || LowerChar(t[s2]) == 'p')
           && LowerChar(t[s2 + 1]) == 'm' then
          Some((t[s1..c], t[c + 1..c + 3], LowerChar(t[s2]) == 'p'))
        else None
      else None
    else None
  }

  /** `%I` with `%p`: the 12-hour clock hour 1..12 on the 24-hour clock. */
  function To24Hour(hour12: int, pm: bool): (h: int)
    requires 1 <= hour12 <= 12
    ensures 0 <= h <= 23
    ensures pm <==> h >= 12
    ensures h % 12 == hour12 % 12
  {
    if pm then (if hour12 == 12 then 12 else hour12 + 12)
    else (if hour12 == 12 then 0 else hour12)
  }

  /** The 12-hour clock is a one-to-one relabelling of the 24-hour clock. */
  lemma To24HourInjective(h1: int, pm1: bool, h2: int, pm2: bool)
    requires 1 <= h1 <= 12 && 1 <= h2 <= 12
    requires To24Hour(h1, pm1) == To24Hour(h2, pm2)
    ensures h1 == h2 && pm1 == pm2
  {
  }

  /** `datetime.strptime(text, "%d/%m/%Y %I:%M %p")`: an out-of-range field or
      a day the month does not have gives no date. */
  function ConvertDate(d: DateText): (r: Option<DateTime>)
    requires WellFormedDateText(d)
    ensures r.Some? ==> (ValidDate(r.value.date) && r.value.date.year >= 1
                         && 0 <= r.value.hour <= 23 && 0 <= r.value.minute <= 59)
    ensures r.Some? <==> (1 <= DigitsValue(d.month) <= 12 && 1 <= DigitsValue(d.day)
                          && DigitsValue(d.year) >= 1 && 1 <= DigitsValue(d.hour) <= 12 && DigitsValue(d.minute) <= 59
                          && DigitsValue(d.day) <= DaysInMonth(DigitsValue(d.year), DigitsValue(d.month)))
  {
    var day, month, year := DigitsValue(d.day), DigitsValue(d.month), DigitsValue(d.year);
    var hour, minute := DigitsValue(d.hour), DigitsValue(d.minute);
    if 1 <= month <= 12 && 1 <= day <= DaysInMonth(year, month) && year >= 1
       && 1 <= hour <= 12 && minute <= 59 then
      Some(DateTime(Date(year, month, day), To24Hour(hour, d.pm), minute))
    else None
  }

  /** "10:34 AM" is 10:34, "03:45 PM" is 15:45, "12:00 AM" is midnight. */
  lemma ClockExamples()
    ensures To24Hour(10, false) == 10
    ensures To24Hour(3, true) == 15
    ensures To24Hour(12, false) == 0
    ensures To24Hour(12, true) == 12
  {
  }

  /** The date field: `strptime` of the leftmost syntactic match of the date
      pattern.  A match that does not convert leaves the date null; a later
      date stamp in the text is never consulted. */
  function DateIn(t: string): (r: Option<DateTime>)
    ensures r.Some? ==> ValidDate(r.value.date)
    ensures Search(t, 0, DateTextAt).None? ==> r.None?
  {
    match Search(t, 0, DateTextAt)
    case None => None
    case Some(d) => ConvertDate(d)
  }

  /** The date match at the least matching index alone decides the date. */
  lemma LeftmostDateDecides(t: string, j: nat)
    requires j <= |t| && DateTextAt(t, j).Some?
    requires forall m :: 0 <= m < j ==> DateTextAt(t, m).None?
    ensures DateIn(t) == ConvertDate(DateTextAt(t, j).value)
  {
    SearchIsLeftmost(t, 0, DateTextAt, j);
  }

  /** An impossible calendar value in the first date stamp leaves the date
      null even when a later stamp would convert. */
  lemma LaterDateIgnored(t: string, j: nat, k: nat)
    requires j < k <= |t| && DateTextAt(t, j).Some? && DateTextAt(t, k).Some?
    requires forall m :: 0 <= m < j ==> DateTextAt(t, m).None?
    requires ConvertDate(DateTextAt(t, j).value).None?
    requires ConvertDate(DateTextAt(t, k).value).Some?
    ensures DateIn(t).None?
  {
    LeftmostDateDecides(t, j);
  }

  // ---------------------------------------------------------------------
  // parse_mtn_sms

  function CountSome<T>(o: Option<T>): nat {
    if o.Some? then 1 else 0
  }

  function FilledCount(amount: Option<int>, name: Option<string>, phone: Option<string>,
                       id: Option<string>, date: Option<DateTime>): (n: nat)
    ensures n <= 5
  {
    CountSome(amount) + CountSome(name) + CountSome(phone) + CountSome(id) + CountSome(date)
  }

  function ConfidenceFor(filled: nat): Confidence
  {
    if filled == 5 then High else if filled >= 3 then Partial else Failed
  }

  /** `parse_mtn_sms`: every field comes from its own leftmost match, and the
      confidence counts the fields found. */
  function ParseSms(text: string): (r: Result<ParsedSms, ParseError>)
    ensures r.Failure? <==> Search(text, 0, AmountAt).Some? && AmountValue(Search(text, 0, AmountAt).value).None?
    ensures r.Success? ==> (r.value.rawText == text
                            && r.value.recipientName == Search(text, 0, NameAt)
                            && r.value.recipientPhone == Search(text, 0, PhoneAt)
                            && r.value.transactionId == Search(text, 0, TransactionIdAt)
                            && r.value.transactionDate == DateIn(text))
    ensures r.Success? ==> r.value.amount == (if Search(text, 0, AmountAt).Some?
                                              then AmountValue(Search(text, 0, AmountAt).value) else None)
    ensures r.Success? && r.value.transactionDate.Some? ==> ValidDate(r.value.transactionDate.value.date)
    ensures r.Success? && r.value.transactionId.Some? ==> |r.value.transactionId.value| > 0
  {
    var amountText := Search(text, 0, AmountAt);
    var amount := if amountText.Some? then AmountValue(amountText.value) else None;
    if amountText.Some? && amount.None? then
      Failure(AmountNotANumber(amountText.value.whole))
    else
      var name := Search(text, 0, NameAt);
      var phone := Search(text, 0, PhoneAt);
      var id := Search(text, 0, TransactionIdAt);
      var date := DateIn(text);
      FoundIdNonEmpty(text);
      Success(ParsedSms(amount, name, phone, id, date, text,
                        ConfidenceFor(FilledCount(amount, name, phone, id, date))))
  }

  /** A transaction id found anywhere in the text is not empty. */
  lemma FoundIdNonEmpty(t: string)
    ensures Search(t, 0, TransactionIdAt).Some? ==> |Search(t, 0, TransactionIdAt).value| > 0
  {
    if Search(t, 0, TransactionIdAt).Some? {
      var j :| 0 <= j <= |t| && TransactionIdAt(t, j) == Search(t, 0, TransactionIdAt);
    }
  }

  /** HIGH exactly when all five fields were found, PARTIAL for three or four,
      FAILED for none to two. */
  lemma ConfidenceThresholds(text: string)
    requires ParseSms(text).Success?
    ensures var p := ParseSms(text).value;
      var n := FilledCount(p.amount, p.recipientName, p.recipientPhone, p.transactionId, p.transactionDate);
      (p.confidence == High <==> p.amount.Some? && p.recipientName.Some? && p.recipientPhone.Some?
                                 && p.transactionId.Some? && p.transactionDate.Some?)
      && (p.confidence == Partial <==> 3 <= n <= 4)
      && (p.confidence == Failed <==> n <= 2)
  {
  }

  /** A found phone always has the local ten-digit form "0" + nine digits. */
  lemma ParsedPhoneShape(text: string)
    requires ParseSms(text).Success? && ParseSms(text).value.recipientPhone.Some?
    ensures var p := ParseSms(text).value.recipientPhone.value;
      |p| == 10 && p[0] == '0' && AllDigits(p)
  {
    var p := ParseSms(text).value.recipientPhone;
    var j :| 0 <= j <= |text| && PhoneAt(text, j) == p;
  }

  /** Keywords match whatever their case: lower-casing the text does not
      change where a keyword matches. */
  lemma KeywordCaseInsensitive(t: string, i: nat, w: string)
    ensures MatchesWordAt(t, i, w) <==> MatchesWordAt(Lower(t), i, w)
  {
  }
}
