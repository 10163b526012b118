/** The two generators of `auth_service.py`: the invite code a collector
    shares with clients, and the one-time password sent by SMS.  The random
    inputs (`secrets.token_hex(2)` and `secrets.randbelow(900000)`) are
    parameters. */
module Auth {
  import opened Wrappers
  import opened Text

  // ---------------------------------------------------------------------
  // Invite code

  /** `str.replace(" ", "-")`. */
  function SpacesToHyphens(s: string): (r: string)
    ensures |r| == |s|
    ensures forall k {:trigger r[k]} :: 0 <= k < |s| ==> r[k] == (if s[k] == ' ' then '-' else s[k])
  {
    seq(|s|, k requires 0 <= k < |s| => if s[k] == ' ' then '-' else s[k])
  }

  /** What the slug keeps: `c.isalnum() or c == "-"`. */
  predicate Kept(c: char) {
    IsAsciiAlnum(c) || c == '-'
  }

  predicate IsHyphen(c: char) {
    c == '-'
  }

  /** The characters a slug is made of. */
  predicate SlugChar(c: char) {
    ('a' <= c <= 'z') || IsDigit(c) || c == '-'
  }

  /** Every character of `s` satisfies `p`. */
  predicate AllChars(s: string, p: char -> bool) {
    forall k :: 0 <= k < |s| ==> p(s[k])
  }

  lemma {:induction false} StartKeepsAll(s: string, space: char -> bool, p: char -> bool)
    requires AllChars(s, p)
    ensures AllChars(StripStart(s, space), p)
    ensures AllChars(s, space) ==> StripStart(s, space) == []
  {
    if s != [] && space(s[0]) {
      StartKeepsAll(s[1..], space, p);
    }
  }

  lemma {:induction false} EndKeepsAll(s: string, space: char -> bool, p: char -> bool)
    requires AllChars(s, p)
    ensures AllChars(StripEnd(s, space), p)
  {
    if s != [] && space(s[|s| - 1]) {
      EndKeepsAll(s[..|s| - 1], space, p);
    }
  }

  /** Stripping keeps a property every character has, and strips a string
      made only of `space` characters to nothing. */
  lemma StripKeepsAll(s: string, space: char -> bool, p: char -> bool)
    ensures AllChars(s, p) ==> AllChars(StripBy(s, space), p)
    ensures AllChars(s, space) ==> StripBy(s, space) == []
  {
    if AllChars(s, p) {
      StartKeepsAll(s, space, p);
      EndKeepsAll(StripStart(s, space), space, p);
    }
    if AllChars(s, space) {
      StartKeepsAll(s, space, space);
    }
  }

  /** Filtering keeps a property every character has. */
  lemma FilterKeepsAll(s: string, keep: char -> bool, p: char -> bool)
    ensures AllChars(s, p) ==> AllChars(Filter(s, keep), p)
  {
    if !AllChars(s, p) {
      return;
    }
    var r := Filter(s, keep);
    FilterShape(s, keep);
    forall k | 0 <= k < |r| ensures p(r[k]) {
      assert r[k] in s;
    }
  }

  predicate NotUpper(c: char) {
    !('A' <= c <= 'Z')
  }

  /** The name as it reaches the character filter: lower-cased, stripped,
      and with every space turned into a hyphen. */
  function Hyphenated(fullName: string): (h: string)
    ensures AllChars(h, NotUpper)
  {
    LoweredHasNoUpper(fullName);
    SpacesToHyphens(Strip(Lower(fullName)))
  }

  lemma LoweredHasNoUpper(fullName: string)
    ensures AllChars(SpacesToHyphens(Strip(Lower(fullName))), NotUpper)
  {
    var lowered := Lower(fullName);
    assert AllChars(lowered, NotUpper);
    StripKeepsAll(lowered, IsSpace, NotUpper);
  }

  /** The first 30 characters of `s`, as `slug[:30]`. */
  function Cut30(s: string): (r: string)
    ensures |r| <= 30 && |r| <= |s| && forall k :: 0 <= k < |r| ==> r[k] == s[k]
    ensures |s| <= 30 ==> r == s
  {
    if |s| <= 30 then s else s[..30]
  }

  /** The characters `c.isalnum() or c == "-"` keeps; on a name with no
      upper-case letter left they are slug characters. */
  function KeepSlugChars(h: string): (r: string)
    ensures |r| <= |h|
    ensures AllChars(h, NotUpper) ==> AllChars(r, SlugChar)
    ensures AllChars(h, Kept) ==> r == h
  {
    var r := Filter(h, Kept);
    FilterKeepsAll(h, Kept, NotUpper);
    FilterShape(h, Kept);
    r
  }

  /** `strip("-")`. */
  function TrimHyphens(s: string): string
  {
    StripBy(s, IsHyphen)
  }

  /** Stripping hyphens leaves no hyphen at either end. */
  lemma TrimmedEnds(s: string)
    ensures |TrimHyphens(s)| <= |s|
    ensures TrimHyphens(s) == [] || (TrimHyphens(s)[0] != '-' && TrimHyphens(s)[|TrimHyphens(s)| - 1] != '-')
  {
    StripEnds(s, IsHyphen);
  }

  /** Stripping hyphens keeps only slug characters when given only slug
      characters, and leaves nothing of a string of hyphens. */
  lemma TrimmedChars(s: string)
    ensures AllChars(s, SlugChar) ==> AllChars(TrimHyphens(s), SlugChar)
    ensures AllChars(s, IsHyphen) ==> TrimHyphens(s) == []
  {
    StripKeepsAll(s, IsHyphen, SlugChar);
  }

  /** Stripping the hyphens of at most 30 slug characters leaves a slug. */
  lemma TrimmedIsSlug(s: string)
    requires |s| <= 30 && AllChars(s, SlugChar)
    ensures IsSlug(TrimHyphens(s))
  {
    TrimmedEnds(s);
    TrimmedChars(s);
  }

  /** What a slug looks like: at most 30 characters, all lower-case ASCII
      letters, digits or hyphens, and no hyphen at either end. */
  predicate IsSlug(s: string) {
    |s| <= 30 && AllChars(s, SlugChar) && (s == [] || (s[0] != '-' && s[|s| - 1] != '-'))
  }

  /** The slug of `generate_invite_code`: lower-cased and stripped, spaces
      turned into hyphens, only ASCII letters, digits and hyphens kept, cut
      to 30 characters, and hyphens stripped from both ends. */
  function Slug(fullName: string): (slug: string)
    ensures IsSlug(slug)
  {
    CutHasSlugChars(Hyphenated(fullName));
    TrimmedIsSlug(Cut30(KeepSlugChars(Hyphenated(fullName))));
    TrimHyphens(Cut30(KeepSlugChars(Hyphenated(fullName))))
  }

  lemma CutHasSlugChars(h: string)
    requires AllChars(h, NotUpper)
    ensures AllChars(Cut30(KeepSlugChars(h)), SlugChar)
  {
  }

  /** The hexadecimal digit for `v`, lower case. */
  function HexDigit(v: nat): (c: char)
    requires v < 16
    ensures IsLowerHex(c)
  {
    if v < 10 then ('0' as int + v) as char else ('a' as int + v - 10) as char
  }

  predicate IsLowerHex(c: char) {
    IsDigit(c) || ('a' <= c <= 'f')
  }

  function HexValue(c: char): (v: nat)
    requires IsLowerHex(c)
    ensures v < 16 && HexDigit(v) == c
  {
    if IsDigit(c) then (c as int) - ('0' as int) else (c as int) - ('a' as int) + 10
  }

  /** `secrets.token_hex(2)` for the two random bytes `b0` and `b1`: each
      byte as two lower-case hexadecimal digits, high digit first. */
  function TokenHex(b0: nat, b1: nat): (r: string)
    requires b0 < 256 && b1 < 256
    ensures |r| == 4 && AllChars(r, IsLowerHex)
  {
    [HexDigit(b0 / 16), HexDigit(b0 % 16), HexDigit(b1 / 16), HexDigit(b1 % 16)]
  }

  /** The suffix reads back as the two bytes it was made from. */
  lemma TokenHexDecodes(b0: nat, b1: nat)
    requires b0 < 256 && b1 < 256
    ensures var r := TokenHex(b0, b1);
      HexValue(r[0]) * 16 + HexValue(r[1]) == b0 && HexValue(r[2]) * 16 + HexValue(r[3]) == b1
  {
    var r := TokenHex(b0, b1);
    assert HexValue(r[0]) == b0 / 16 && HexValue(r[1]) == b0 % 16;
    assert HexValue(r[2]) == b1 / 16 && HexValue(r[3]) == b1 % 16;
  }

  /** `generate_invite_code`: the slug, a hyphen and four hexadecimal digits. */
  function GenerateInviteCode(fullName: string, b0: nat, b1: nat): (code: string)
    requires b0 < 256 && b1 < 256
    ensures |code| == |Slug(fullName)| + 5
  {
    Slug(fullName) + ['-'] + TokenHex(b0, b1)
  }

  /** Reads an invite code back into its slug and the two bytes of its
      suffix; `None` when the code does not end in a hyphen and four
      lower-case hexadecimal digits. */
  function ParseInviteCode(code: string): (r: Option<(string, nat, nat)>)
    ensures r.Some? ==> |r.value.0| + 5 == |code| && r.value.1 < 256 && r.value.2 < 256
  {
    var n := |code|;
    if n < 5 || code[n - 5] != '-' || !AllChars(code[n - 4..], IsLowerHex) then None
    else
      var h := code[n - 4..];
      Some((code[..n - 5], HexValue(h[0]) * 16 + HexValue(h[1]), HexValue(h[2]) * 16 + HexValue(h[3])))
  }

  /** Any slug followed by a hyphen and a token reads back as itself and
      the token's two bytes. */
  lemma ParseJoined(slug: string, b0: nat, b1: nat)
    requires b0 < 256 && b1 < 256
    ensures ParseInviteCode(slug + ['-'] + TokenHex(b0, b1)) == Some((slug, b0, b1))
  {
    var hex := TokenHex(b0, b1);
    var code := slug + ['-'] + hex;
    assert code[..|slug|] == slug;
    assert code[|slug| + 1..] == hex;
    TokenHexDecodes(b0, b1);
  }

  /** An invite code reads back as the slug of the name and the two random
      bytes it was made from. */
  lemma InviteCodeRoundTrip(fullName: string, b0: nat, b1: nat)
    requires b0 < 256 && b1 < 256
    ensures ParseInviteCode(GenerateInviteCode(fullName, b0, b1)) == Some((Slug(fullName), b0, b1))
  {
    ParseJoined(Slug(fullName), b0, b1);
  }

  /** A property of the lower-cased name that hyphens also have survives
      to the character filter. */
  lemma HyphenatedKeepsAll(fullName: string, p: char -> bool)
    requires AllChars(Lower(fullName), p) && p('-')
    ensures AllChars(Hyphenated(fullName), p)
  {
    var lowered := Lower(fullName);
    StripKeepsAll(lowered, IsSpace, p);
  }

  predicate NotAlnum(c: char) {
    !IsAsciiAlnum(c)
  }

  /** A name without an ASCII letter or digit gives an empty slug, so the
      code starts with the hyphen. */
  lemma NoAlnumMeansEmptySlug(fullName: string, b0: nat, b1: nat)
    requires b0 < 256 && b1 < 256
    requires AllChars(fullName, NotAlnum)
    ensures Slug(fullName) == []
    ensures GenerateInviteCode(fullName, b0, b1)[0] == '-'
  {
    assert AllChars(Lower(fullName), NotAlnum);
    HyphenatedKeepsAll(fullName, NotAlnum);
    var h := Hyphenated(fullName);
    var kept := KeepSlugChars(h);
    FilterKeepsAll(h, Kept, NotAlnum);
    assert AllChars(kept, IsHyphen);
    assert AllChars(Cut30(kept), IsHyphen);
    TrimmedChars(Cut30(kept));
  }

  lemma SlugCharIsNotSpace(c: char)
    requires SlugChar(c)
    ensures !IsSpace(c) && c != ' ' && NotUpper(c) && Kept(c) && LowerChar(c) == c
  {
  }

  /** Lower-casing leaves slug characters as they are. */
  lemma {:induction false} LowerFixes(s: string)
    requires AllChars(s, SlugChar)
    ensures Lower(s) == s
  {
    if s != [] {
      SlugCharIsNotSpace(s[0]);
      LowerFixes(s[1..]);
    }
  }

  /** Turning spaces into hyphens leaves slug characters as they are. */
  lemma {:induction false} SpacesFixes(s: string)
    requires AllChars(s, SlugChar)
    ensures SpacesToHyphens(s) == s
  {
    if s != [] {
      SpacesFixes(s[1..]);
    }
  }

  /** A string already in slug form goes through the lower-casing,
      stripping and hyphenating stages unchanged. */
  lemma HyphenatedFixes(s: string)
    requires AllChars(s, SlugChar) && (s == [] || (s[0] != '-' && s[|s| - 1] != '-'))
    ensures Hyphenated(s) == s
  {
    LowerFixes(s);
    if s != [] {
      SlugCharIsNotSpace(s[0]);
      SlugCharIsNotSpace(s[|s| - 1]);
    }
    StripNothing(s, IsSpace);
    assert Strip(Lower(s)) == s;
    SpacesFixes(s);
  }

  lemma KeepsSlug(s: string)
    requires |s| <= 30 && AllChars(s, SlugChar)
    ensures Cut30(KeepSlugChars(s)) == s
  {
    forall k | 0 <= k < |s| ensures Kept(s[k]) {
      SlugCharIsNotSpace(s[k]);
    }
    assert KeepSlugChars(s) == s;
  }

  /** A string in slug form is its own slug. */
  lemma SlugFixes(s: string)
    requires IsSlug(s)
    ensures Slug(s) == s
  {
    HyphenatedFixes(s);
    SlugOfHyphenated(s, s);
  }

  /** A name whose first stage already gives a slug has that slug. */
  lemma SlugOfHyphenated(name: string, h: string)
    requires IsSlug(h) && Hyphenated(name) == h
    ensures Slug(name) == h
  {
    KeepsSlug(h);
    StripNothing(h, IsHyphen);
  }

  /** A slug is its own slug: codes are stable under re-slugging. */
  lemma SlugIdempotent(fullName: string)
    ensures Slug(Slug(fullName)) == Slug(fullName)
  {
    SlugFixes(Slug(fullName));
  }

  /** Two names that reach the character filter equal have the same slug. */
  lemma SameHyphenatedSameSlug(n: string, m: string)
    requires Hyphenated(n) == Hyphenated(m)
    ensures Slug(n) == Slug(m)
  {
  }

  lemma LowerExample()
    ensures Lower("Ama Owusu") == "ama owusu"
  {
  }

  lemma HyphensExample()
    ensures SpacesToHyphens("ama owusu") == "ama-owusu"
  {
  }

  lemma HyphenatedExample()
    ensures Hyphenated("Ama Owusu") == "ama-owusu"
  {
    LowerExample();
    StripNothing("ama owusu", IsSpace);
    HyphensExample();
  }

  /** "Ama Owusu" gives the slug "ama-owusu", the prefix of its invite code. */
  lemma SlugExample()
    ensures Slug("Ama Owusu") == "ama-owusu"
  {
    HyphenatedExample();
    assert IsSlug("ama-owusu");
    SlugOfHyphenated("Ama Owusu", "ama-owusu");
  }

  // ---------------------------------------------------------------------
  // One-time password

  /** `generate_otp` for the random draw `r` (`secrets.randbelow(900000)`):
      six decimal digits, no leading zero, denoting `r + 100000`. */
  function GenerateOtp(r: nat): (code: string)
    requires r < 900000
    ensures |code| == 6 && AllDigits(code) && code[0] != '0'
    ensures 100000 <= DigitsValue(code) <= 999999 && DigitsValue(code) == r + 100000
  {
    assert Pow10(2) == 100 && Pow10(3) == 1000 && Pow10(4) == 10000;
    assert Pow10(5) == 100000 && Pow10(6) == 1000000;
    NumeralLength(r + 100000, 6);
    NatToString(r + 100000)
  }

  /** Every six-digit code without a leading zero can be drawn. */
  lemma EveryOtpReachable(n: nat)
    requires 100000 <= n <= 999999
    ensures DigitsValue(GenerateOtp(n - 100000)) == n
  {
  }
}
