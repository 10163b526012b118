/** The six-box one-time-code entry (`components/ui/OtpInput.tsx`): the same
    box editing as the PIN row with the length fixed at six, and the
    completion callback that fires once six characters are in. */
module OtpInput {
  import opened Wrappers
  import opened Text
  import opened PinInput

  const OtpLength: nat := 6

  /** `handleChange` of the code boxes. */
  function OtpChange(value: string, index: nat, ch: string): (r: Option<Edit>)
    requires index < OtpLength
    ensures r.Some? ==> |r.value.value| <= OtpLength
  {
    HandleChange(value, index, ch, OtpLength)
  }

  /** `handlePaste` of the code boxes. */
  function OtpPaste(text: string): (r: Option<Edit>)
    ensures r.Some? ==> 1 <= |r.value.value| <= OtpLength && AllDigits(r.value.value)
  {
    HandlePaste(text, OtpLength)
  }

  /** The effect on a new value: `onComplete` is called with the value
      exactly when it has six characters. */
  function CompletionCall(value: string): (call: Option<string>)
    ensures call.Some? <==> |value| == OtpLength
    ensures call.Some? ==> call.value == value
  {
    if |value| == OtpLength then Some(value) else None
  }

  /** Pasting text with at least six digits completes the code with its
      first six digits. */
  lemma PasteCompletes(text: string)
    requires |Filter(text, IsDigit)| >= OtpLength
    ensures OtpPaste(text).Some?
    ensures CompletionCall(OtpPaste(text).value.value) == Some(Filter(text, IsDigit)[..OtpLength])
  {
    var v := OtpPaste(text).value.value;
    assert v == Filter(text, IsDigit)[..OtpLength];
  }

  /** Typing the sixth digit into the last box completes the code. */
  lemma LastDigitCompletes(value: string, ch: string)
    requires |value| == OtpLength - 1 && |ch| == 1 && IsDigit(ch[0])
    ensures CompletionCall(OtpChange(value, OtpLength - 1, ch).value.value) == Some(value + ch)
  {
    TypingPastEndAppends(value, OtpLength - 1, ch, OtpLength);
  }

  /** Clearing a box of a complete code leaves it incomplete. */
  lemma ClearingUncompletes(value: string, index: nat)
    requires |value| == OtpLength && index < OtpLength
    ensures CompletionCall(OtpChange(value, index, []).value.value) == None
  {
    ClearingShiftsLeft(value, index, OtpLength);
  }
}
