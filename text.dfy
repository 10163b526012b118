/** Character classes and the small string operations shared by the
    backend (Python `str` methods, `re` character classes) and the frontend
    (JavaScript string helpers). */
module Text {

  /** `\d` and `[0-9]`, ASCII digits only. */
  predicate IsDigit(c: char) {
    '0' <= c <= '9'
  }

  predicate IsAsciiLetter(c: char) {
    ('a' <= c <= 'z') || ('A' <= c <= 'Z')
  }

  predicate IsAsciiAlnum(c: char) {
    IsDigit(c) || IsAsciiLetter(c)
  }

  /** Python's `str.isspace()`, which is also what `\s` matches in a `str`
      pattern and what `str.strip()` removes. */
  predicate IsSpace(c: char) {
    ('\U{9}' <= c <= '\U{D}') || ('\U{1C}' <= c <= '\U{20}') || c == '\U{85}' || c == '\U{A0}'
    || c == '\U{1680}' || ('\U{2000}' <= c <= '\U{200A}') || c == '\U{2028}' || c == '\U{2029}'
    || c == '\U{202F}' || c == '\U{205F}' || c == '\U{3000}'
  }

  predicate AllDigits(s: string) {
    forall k :: 0 <= k < |s| ==> IsDigit(s[k])
  }

  function DigitValue(c: char): (v: nat)
    requires IsDigit(c)
    ensures v < 10
  {
    (c as int) - ('0' as int)
  }

  /** The number a run of decimal digits denotes (leading zeros allowed). */
  function DigitsValue(s: string): (v: nat)
    requires AllDigits(s)
  {
    if s == [] then 0 else DigitsValue(s[..|s| - 1]) * 10 + DigitValue(s[|s| - 1])
  }

  function DigitChar(d: nat): (c: char)
    requires d < 10
    ensures IsDigit(c) && DigitValue(c) == d
  {
    (('0' as int) + d) as char
  }

  /** The decimal numeral of `n` without leading zeros, as Python's `str`
      and JavaScript's `String` write a non-negative integer; reading it
      back gives `n`. */
  function NatToString(n: nat): (s: string)
    ensures 1 <= |s| && AllDigits(s) && DigitsValue(s) == n
    ensures |s| > 1 ==> s[0] != '0'
    ensures n < 10 <==> |s| == 1
  {
    if n < 10 then [DigitChar(n)]
    else
      var prefix := NatToString(n / 10);
      var s := prefix + [DigitChar(n % 10)];
      assert s[..|s| - 1] == prefix;
      s
  }

  /** ASCII `lower()`: upper-case ASCII letters map to lower case, every other
      character is kept. */
  function LowerChar(c: char): (r: char)
    ensures IsAsciiLetter(c) <==> IsAsciiLetter(r)
    ensures !('A' <= r <= 'Z')
    ensures 'a' <= c <= 'z' || !IsAsciiLetter(c) ==> r == c
  {
    if 'A' <= c <= 'Z' then (c as int + 32) as char else c
  }

  function Lower(s: string): (r: string)
    ensures |r| == |s|
    ensures forall k {:trigger r[k]} :: 0 <= k < |s| ==> r[k] == LowerChar(s[k])
  {
    seq(|s|, k requires 0 <= k < |s| => LowerChar(s[k]))
  }

  /** Case-insensitive comparison of `s[i..]` against the lower-case ASCII
      word `w`, as a pattern compiled with `re.IGNORECASE` does. */
  predicate MatchesWordAt(s: string, i: nat, w: string)
  {
    i + |w| <= |s| && forall k :: 0 <= k < |w| ==> LowerChar(s[i + k]) == w[k]
  }

  /** JavaScript's white space and line terminators, what `String.prototype.trim`
      removes. */
  predicate IsJsSpace(c: char) {
    ('\U{9}' <= c <= '\U{D}') || c == '\U{20}' || c == '\U{A0}' || c == '\U{1680}'
    || ('\U{2000}' <= c <= '\U{200A}') || c == '\U{2028}' || c == '\U{2029}'
    || c == '\U{202F}' || c == '\U{205F}' || c == '\U{3000}' || c == '\U{FEFF}'
  }

  /** Drops the leading characters that satisfy `space`. */
  function StripStart(s: string, space: char -> bool): (r: string)
    ensures |r| <= |s| && r == s[|s| - |r|..]
    ensures forall k :: 0 <= k < |s| - |r| ==> space(s[k])
    ensures r == [] || !space(r[0])
  {
    if s == [] || !space(s[0]) then s else StripStart(s[1..], space)
  }

  /** Drops the trailing characters that satisfy `space`. */
  function StripEnd(s: string, space: char -> bool): (r: string)
    ensures |r| <= |s| && r == s[..|r|]
    ensures forall k :: |r| <= k < |s| ==> space(s[k])
    ensures r == [] || !space(r[|r| - 1])
  {
    if s == [] || !space(s[|s| - 1]) then s else StripEnd(s[..|s| - 1], space)
  }

  /** Drops the characters that satisfy `space` from both ends. */
  function StripBy(s: string, space: char -> bool): string
  {
    StripEnd(StripStart(s, space), space)
  }

  /** Python `str.strip()`. */
  function Strip(s: string): string
  {
    StripBy(s, IsSpace)
  }

  /** JavaScript `String.prototype.trim()`. */
  function Trim(s: string): string
  {
    StripBy(s, IsJsSpace)
  }

  /** Stripping removes `space` characters from both ends and nothing from the
      middle: the result is a contiguous piece of `s`. */
  lemma StripShape(s: string, space: char -> bool)
    ensures var r := StripBy(s, space);
      |r| <= |s| && (r == [] || (!space(r[0]) && !space(r[|r| - 1])))
    ensures var a := StripStart(s, space); StripBy(s, space) == a[..|StripBy(s, space)|]
  {
    var a := StripStart(s, space);
    var r := StripEnd(a, space);
    if r != [] {
      assert r[0] == a[0];
    }
  }

  /** Stripping leaves no `space` character at either end. */
  lemma StripEnds(s: string, space: char -> bool)
    ensures |StripBy(s, space)| <= |s|
    ensures StripBy(s, space) == [] || !space(StripBy(s, space)[0])
    ensures StripBy(s, space) == [] || !space(StripBy(s, space)[|StripBy(s, space)| - 1])
  {
    StripShape(s, space);
  }

  /** A string with no `space` character at either end is left as it is. */
  lemma StripNothing(s: string, space: char -> bool)
    requires s == [] || (!space(s[0]) && !space(s[|s| - 1]))
    ensures StripBy(s, space) == s
  {
  }

  /** Stripping is idempotent. */
  lemma StripIdempotent(s: string, space: char -> bool)
    ensures StripBy(StripBy(s, space), space) == StripBy(s, space)
  {
    var r := StripBy(s, space);
    StripShape(s, space);
    if r != [] {
      assert StripStart(r, space) == r;
      assert StripEnd(r, space) == r;
    }
  }

  /** Keeps the characters of `s` satisfying `keep`, in order. */
  function Filter(s: string, keep: char -> bool): (r: string)
    ensures |r| <= |s|
    ensures forall k :: 0 <= k < |r| ==> keep(r[k])
  {
    if s == [] then []
    else if keep(s[0]) then [s[0]] + Filter(s[1..], keep)
    else Filter(s[1..], keep)
  }

  /** What a filter keeps satisfies `keep` and comes from `s`; when every
      character satisfies `keep`, nothing is dropped. */
  lemma {:induction false} FilterShape(s: string, keep: char -> bool)
    ensures forall k :: 0 <= k < |Filter(s, keep)| ==> keep(Filter(s, keep)[k]) && Filter(s, keep)[k] in s
    ensures (forall k :: 0 <= k < |s| ==> keep(s[k])) ==> Filter(s, keep) == s
  {
    if s != [] {
      FilterShape(s[1..], keep);
      var r := Filter(s, keep);
      var t := Filter(s[1..], keep);
      forall k | 0 <= k < |r| ensures keep(r[k]) && r[k] in s {
        if keep(s[0]) && k > 0 {
          assert r[k] == t[k - 1];
          assert t[k - 1] in s[1..];
        } else if !keep(s[0]) {
          assert t[k] in s[1..];
        }
      }
      if forall k :: 0 <= k < |s| ==> keep(s[k]) {
        assert keep(s[0]);
        assert forall k :: 0 <= k < |s[1..]| ==> keep(s[1..][k]);
        assert s == [s[0]] + s[1..];
      }
    }
  }

  function Pow10(k: nat): (p: nat)
    ensures p >= 1
  {
    if k == 0 then 1 else 10 * Pow10(k - 1)
  }

  /** A number with `k` digits has a numeral of length `k`. */
  lemma {:induction false} NumeralLength(n: nat, k: nat)
    requires 1 <= k && Pow10(k - 1) <= n < Pow10(k)
    ensures |NatToString(n)| == k
  {
    if k > 1 {
      assert Pow10(k - 2) <= n / 10 < Pow10(k - 1);
      NumeralLength(n / 10, k - 1);
    }
  }

  // ---------------------------------------------------------------------
  // Splitting on and joining with a one-character separator

  /** Python's `s.split(sep)` and JavaScript's `s.split(sep)`: the pieces
      between separators, always at least one (the empty string gives one
      empty piece). */
  function Split(s: string, sep: char): (pieces: seq<string>)
    ensures |pieces| >= 1
    ensures forall k :: 0 <= k < |pieces| ==> sep !in pieces[k]
  {
    if s == [] then [[]]
    else
      var rest := Split(s[1..], sep);
      if s[0] == sep then [[]] + rest
      else [[s[0]] + rest[0]] + rest[1..]
  }

  /** Python's `sep.join(pieces)` and JavaScript's `pieces.join(sep)`. */
  function Join(pieces: seq<string>, sep: char): (s: string)
    ensures pieces == [] ==> s == []
    ensures |pieces| == 1 ==> s == pieces[0]
  {
    if pieces == [] then []
    else if |pieces| == 1 then pieces[0]
    else pieces[0] + [sep] + Join(pieces[1..], sep)
  }

  lemma JoinFirst(c: char, t: seq<string>, sep: char)
    requires |t| >= 1
    ensures Join([[c] + t[0]] + t[1..], sep) == [c] + Join(t, sep)
  {
    var u := [[c] + t[0]] + t[1..];
    if |t| > 1 {
      assert u[1..] == t[1..];
    }
  }

  /** Joining the pieces of a split gives the string back. */
  lemma {:induction false} JoinSplit(s: string, sep: char)
    ensures Join(Split(s, sep), sep) == s
  {
    if s != [] {
      var rest := Split(s[1..], sep);
      JoinSplit(s[1..], sep);
      if s[0] == sep {
        assert ([[]] + rest)[1..] == rest;
        assert s == [sep] + s[1..];
      } else {
        JoinFirst(s[0], rest, sep);
        assert s == [s[0]] + s[1..];
      }
    }
  }

  lemma {:induction false} SplitAfterPiece(p: string, t: string, sep: char)
    requires sep !in p
    ensures Split(p + [sep] + t, sep) == [p] + Split(t, sep)
  {
    if p == [] {
      assert [] + [sep] + t == [sep] + t;
      assert ([sep] + t)[1..] == t;
    } else {
      var s := p + [sep] + t;
      assert s[0] == p[0] && s[1..] == p[1..] + [sep] + t;
      SplitAfterPiece(p[1..], t, sep);
      assert [p[0]] + p[1..] == p;
    }
  }

  lemma {:induction false} SplitPiece(p: string, sep: char)
    requires sep !in p
    ensures Split(p, sep) == [p]
  {
    if p != [] {
      SplitPiece(p[1..], sep);
      assert [p[0]] + p[1..] == p;
    }
  }

  /** Splitting a join of separator-free pieces gives the pieces back. */
  lemma {:induction false} SplitJoin(pieces: seq<string>, sep: char)
    requires |pieces| >= 1
    requires forall k :: 0 <= k < |pieces| ==> sep !in pieces[k]
    ensures Split(Join(pieces, sep), sep) == pieces
  {
    if |pieces| == 1 {
      SplitPiece(pieces[0], sep);
    } else {
      SplitJoin(pieces[1..], sep);
      SplitAfterPiece(pieces[0], Join(pieces[1..], sep), sep);
      assert [pieces[0]] + pieces[1..] == pieces;
    }
  }
}
