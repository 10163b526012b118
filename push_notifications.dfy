/** The key conversion of the push-notification hook
    (`hooks/usePushNotifications.ts`, `urlBase64ToUint8Array`): a VAPID key
    in the URL-safe base64 alphabet (section 5 of RFC 4648) is padded,
    translated to the standard alphabet (section 4 of RFC 4648), decoded by
    the browser's `atob` and copied into a byte array.

    `atob` is a parameter: it gives the decoded binary string, or `None`
    where the browser would throw. */
module PushNotifications {
  import opened Wrappers

  /** `(4 - (len % 4)) % 4`: the '=' characters that bring a length up to a
      multiple of four. */
  function PaddingLength(n: nat): (p: nat)
    ensures p < 4 && (n + p) % 4 == 0
  {
    (4 - n % 4) % 4
  }

  /** The key with its padding. */
  function Padded(s: string): (r: string)
    ensures |r| == |s| + PaddingLength(|s|)
    ensures forall k :: 0 <= k < |s| ==> r[k] == s[k]
    ensures forall k :: |s| <= k < |r| ==> r[k] == '='
  {
    s + seq(PaddingLength(|s|), _ => '=')
  }

  /** `.replace(/-/g, '+').replace(/_/g, '/')` on one character. */
  function StandardChar(c: char): (d: char)
    ensures d != '-' && d != '_'
    ensures c != '-' && c != '_' ==> d == c
  {
    if c == '-' then '+' else if c == '_' then '/' else c
  }

  function ToStandardAlphabet(s: string): (r: string)
    ensures |r| == |s|
    ensures forall k :: 0 <= k < |s| ==> r[k] == StandardChar(s[k])
  {
    seq(|s|, k requires 0 <= k < |s| => StandardChar(s[k]))
  }

  /** The text handed to `atob`. */
  function Base64Form(key: string): string {
    ToStandardAlphabet(Padded(key))
  }

  /** The text handed to `atob` is the key, padded to a multiple of four
      with at most three '=', with '-' read as '+' and '_' as '/' and every
      other character kept. */
  lemma Base64FormShape(key: string)
    ensures var b := Base64Form(key);
      |b| % 4 == 0 && |key| <= |b| < |key| + 4
      && (forall k :: 0 <= k < |key| ==> b[k] == StandardChar(key[k]))
      && (forall k :: |key| <= k < |b| ==> b[k] == '=')
      && (forall k :: 0 <= k < |b| ==> b[k] != '-' && b[k] != '_')
  {
  }

  /** A key already in the standard alphabet and padded is handed over as
      it is, so converting twice is converting once. */
  lemma Base64FormIdempotent(key: string)
    ensures Base64Form(Base64Form(key)) == Base64Form(key)
  {
    var b := Base64Form(key);
    assert PaddingLength(|b|) == 0;
    assert Padded(b) == b;
  }

  predicate IsAlnum(c: char) {
    ('A' <= c <= 'Z') || ('a' <= c <= 'z') || ('0' <= c <= '9')
  }

  /** The alphabet of section 5 of RFC 4648. */
  predicate IsUrlSafeChar(c: char) {
    IsAlnum(c) || c == '-' || c == '_'
  }

  /** The alphabet of section 4 of RFC 4648. */
  predicate IsStandardChar(c: char) {
    IsAlnum(c) || c == '+' || c == '/'
  }

  /** The translation maps the URL-safe alphabet one-to-one onto the
      standard one. */
  lemma AlphabetsCorrespond(c: char, e: char)
    ensures IsUrlSafeChar(c) ==> IsStandardChar(StandardChar(c))
    ensures IsUrlSafeChar(c) && IsUrlSafeChar(e) && StandardChar(c) == StandardChar(e) ==> c == e
    ensures IsStandardChar(e) ==> exists u :: IsUrlSafeChar(u) && StandardChar(u) == e
  {
    if e == '+' {
      assert StandardChar('-') == e;
    } else if e == '/' {
      assert StandardChar('_') == e;
    } else if IsStandardChar(e) {
      assert StandardChar(e) == e;
    }
  }

  newtype Byte = x: int | 0 <= x < 256

  /** An element of a `Uint8Array` stores `x` as `x` modulo 256, so a
      character code below 256 is stored as it is. */
  function ToUint8(x: int): (b: Byte)
    ensures 0 <= x < 256 ==> b as int == x
  {
    (x % 256) as Byte
  }

  /** `urlBase64ToUint8Array`: one byte per character of the decoded
      string, each that character's code; `None` where `atob` throws. */
  method UrlBase64ToBytes(key: string, atob: string -> Option<string>) returns (output: Option<array<Byte>>)
    ensures atob(Base64Form(key)).None? ==> output.None?
    ensures atob(Base64Form(key)).Some? ==> output.Some? && fresh(output.value)
    ensures atob(Base64Form(key)).Some? ==> output.Some? && output.value.Length == |atob(Base64Form(key)).value|
    ensures atob(Base64Form(key)).Some? ==> output.Some? && forall i :: 0 <= i < output.value.Length ==>
      output.value[i] == ToUint8(atob(Base64Form(key)).value[i] as int)
  {
    var decoded := atob(Base64Form(key));
    if decoded.None? {
      return None;
    }
    var raw := decoded.value;
    var bytes := new Byte[|raw|];
    for i := 0 to |raw|
      invariant forall k :: 0 <= k < i ==> bytes[k] == ToUint8(raw[k] as int)
    {
      bytes[i] := ToUint8(raw[i] as int);
    }
    output := Some(bytes);
  }
}
