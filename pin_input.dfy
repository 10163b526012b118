/** The row of one-digit boxes used for PINs (`components/ui/PinInput.tsx`):
    what typing into a box and pasting do to the value.  Each handler
    either ignores the event or emits a new value and the box to focus
    next. */
module PinInput {
  import opened Wrappers
  import opened Text

  function Min(a: int, b: int): int {
    if a <= b then a else b
  }

  /** `/^\d?$/`: nothing, or one ASCII digit. */
  predicate IsBoxInput(ch: string) {
    ch == [] || (|ch| == 1 && IsDigit(ch[0]))
  }

  /** `value.split('')`: one piece per character. */
  function Chars(value: string): (pieces: seq<string>)
    ensures |pieces| == |value|
    ensures forall k :: 0 <= k < |value| ==> pieces[k] == [value[k]]
  {
    seq(|value|, k requires 0 <= k < |value| => [value[k]])
  }

  /** `chars[index] = ch`: past the end the array grows, and the slots in
      between are holes, which `join` writes as nothing (so they are empty
      pieces here). */
  function Assign(pieces: seq<string>, index: nat, ch: string): (r: seq<string>)
    ensures |r| == if index < |pieces| then |pieces| else index + 1
    ensures r[index] == ch
    ensures forall k :: 0 <= k < |r| && k != index ==> r[k] == if k < |pieces| then pieces[k] else []
  {
    if index < |pieces| then pieces[index := ch]
    else pieces + Holes(index - |pieces|) + [ch]
  }

  /** `n` holes of a sparse array. */
  function Holes(n: nat): (h: seq<string>)
    ensures |h| == n && forall k :: 0 <= k < n ==> h[k] == ""
  {
    seq(n, k => "")
  }

  /** `pieces.join('')`. */
  function Concat(pieces: seq<string>): string {
    if pieces == [] then [] else pieces[0] + Concat(pieces[1..])
  }

  lemma {:induction false} ConcatAppend(a: seq<string>, b: seq<string>)
    ensures Concat(a + b) == Concat(a) + Concat(b)
  {
    if a != [] {
      assert (a + b)[1..] == a[1..] + b;
      ConcatAppend(a[1..], b);
    } else {
      assert a + b == b;
    }
  }

  /** Splitting into characters and joining gives the string back. */
  lemma {:induction false} ConcatChars(value: string)
    ensures Concat(Chars(value)) == value
  {
    if value != [] {
      assert Chars(value)[1..] == Chars(value[1..]);
      ConcatChars(value[1..]);
    }
  }

  /** Holes join as nothing. */
  lemma {:induction false} ConcatHoles(n: nat)
    ensures Concat(Holes(n)) == []
  {
    if n > 0 {
      assert Holes(n)[1..] == Holes(n - 1);
      ConcatHoles(n - 1);
    }
  }

  /** What a box change emits: the new value and the box to focus, if any. */
  datatype Edit = Edit(value: string, focus: Option<nat>)

  /** `handleChange` with `length` boxes: anything but nothing or one digit
      is ignored; otherwise the character at `index` is replaced, the
      pieces joined and the result cut to `length`, and a typed digit moves
      the focus to the next box when there is one. */
  function HandleChange(value: string, index: nat, ch: string, length: nat): (r: Option<Edit>)
    requires index < length
    ensures r.None? <==> !IsBoxInput(ch)
    ensures r.Some? ==> |r.value.value| <= length
    ensures r.Some? ==> r.value.focus == if ch != [] && index + 1 < length then Some(index + 1) else None
  {
    if !IsBoxInput(ch) then None
    else
      var joined := Concat(Assign(Chars(value), index, ch));
      Some(Edit(joined[..Min(|joined|, length)], if ch != [] && index + 1 < length then Some(index + 1) else None))
  }

  /** The joined value before the cut: within the value the box's character
      is replaced (or removed, when the box is cleared); past the end the
      input is appended. */
  lemma Joined(value: string, index: nat, ch: string)
    ensures index < |value| ==> Concat(Assign(Chars(value), index, ch)) == value[..index] + ch + value[index + 1..]
    ensures index >= |value| ==> Concat(Assign(Chars(value), index, ch)) == value + ch
  {
    if index < |value| {
      JoinedWithin(value, index, ch);
    } else {
      JoinedPastEnd(value, index, ch);
    }
  }

  lemma ConcatOne(ch: string)
    ensures Concat([ch]) == ch
  {
    assert [ch][1..] == [];
  }

  lemma JoinedWithin(value: string, index: nat, ch: string)
    requires index < |value|
    ensures Concat(Assign(Chars(value), index, ch)) == value[..index] + ch + value[index + 1..]
  {
    var a, b := Chars(value[..index]), Chars(value[index + 1..]);
    assert Assign(Chars(value), index, ch) == a + [ch] + b;
    ConcatAppend(a + [ch], b);
    ConcatAppend(a, [ch]);
    ConcatChars(value[..index]);
    ConcatChars(value[index + 1..]);
    ConcatOne(ch);
  }

  lemma JoinedPastEnd(value: string, index: nat, ch: string)
    requires index >= |value|
    ensures Concat(Assign(Chars(value), index, ch)) == value + ch
  {
    var pieces, holes := Chars(value), Holes(index - |value|);
    assert Assign(pieces, index, ch) == pieces + holes + [ch];
    ConcatAppend(pieces + holes, [ch]);
    ConcatAppend(pieces, holes);
    ConcatChars(value);
    ConcatHoles(index - |value|);
    ConcatOne(ch);
  }

  /** Typing a digit into a filled box replaces that digit and nothing else. */
  lemma TypingReplacesDigit(value: string, index: nat, ch: string, length: nat)
    requires index < |value| <= length && |ch| == 1 && IsDigit(ch[0])
    ensures var v := HandleChange(value, index, ch, length).value.value;
      |v| == |value| && v[index] == ch[0] && forall k :: 0 <= k < |v| && k != index ==> v[k] == value[k]
  {
    Joined(value, index, ch);
  }

  /** Clearing a filled box removes its digit: the later digits move one box
      to the left. */
  lemma ClearingShiftsLeft(value: string, index: nat, length: nat)
    requires index < |value| <= length
    ensures HandleChange(value, index, [], length).value.value == value[..index] + value[index + 1..]
  {
    Joined(value, index, []);
  }

  /** Typing into a box past the end of the value appends the digit, however
      far past the end the box is. */
  lemma TypingPastEndAppends(value: string, index: nat, ch: string, length: nat)
    requires |value| <= index < length && |ch| == 1 && IsDigit(ch[0])
    ensures HandleChange(value, index, ch, length).value.value == value + ch
  {
    Joined(value, index, ch);
  }

  /** An edit of a value made of digits leaves a value made of digits. */
  lemma EditKeepsDigits(value: string, index: nat, ch: string, length: nat)
    requires index < length && IsBoxInput(ch) && AllDigits(value)
    ensures AllDigits(HandleChange(value, index, ch, length).value.value)
  {
    Joined(value, index, ch);
  }

  /** `handlePaste`: only the digits of the pasted text, at most `length` of
      them; nothing happens when none are left, otherwise the focus goes to
      the box after the last digit, or the last box. */
  function HandlePaste(text: string, length: nat): (r: Option<Edit>)
    ensures r.None? <==> length == 0 || Filter(text, IsDigit) == []
    ensures r.Some? ==> AllDigits(r.value.value)
    ensures r.Some? ==> |r.value.value| == Min(length, |Filter(text, IsDigit)|) && |r.value.value| >= 1
    ensures r.Some? ==> forall k :: 0 <= k < |r.value.value| ==> r.value.value[k] == Filter(text, IsDigit)[k]
    ensures r.Some? ==> r.value.focus == Some(Min(|r.value.value|, length - 1))
  {
    var digits := Filter(text, IsDigit);
    var pasted := digits[..Min(|digits|, length)];
    if pasted == [] then None
    else Some(Edit(pasted, Some(Min(|pasted|, length - 1))))
  }

  /** Pasting a run of digits that fits in the boxes gives exactly that
      run. */
  lemma PasteOfDigits(value: string, length: nat)
    requires 1 <= |value| <= length && AllDigits(value)
    ensures HandlePaste(value, length).Some? && HandlePaste(value, length).value.value == value
  {
    FilterShape(value, IsDigit);
  }
}
