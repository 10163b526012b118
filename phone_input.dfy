/** The phone-number check of the frontend (`components/ui/PhoneInput.tsx`):
    the local Ghana form, a '0' and nine more digits. */
module PhoneInput {
  import opened Text
  import SmsParser
  import Ussd

  /** `isValidGhanaPhone`: `/^0\d{9}$/`. */
  function IsValidGhanaPhone(phone: string): (ok: bool)
    ensures ok <==> |phone| == 10 && phone[0] == '0' && AllDigits(phone)
  {
    |phone| == 10 && phone[0] == '0' && forall k :: 1 <= k < 10 ==> IsDigit(phone[k])
  }

  /** Every phone number the SMS parser captures passes the frontend check. */
  lemma ParsedPhoneIsValid(text: string)
    requires SmsParser.ParseSms(text).Success? && SmsParser.ParseSms(text).value.recipientPhone.Some?
    ensures IsValidGhanaPhone(SmsParser.ParseSms(text).value.recipientPhone.value)
  {
    SmsParser.ParsedPhoneShape(text);
  }

  /** A number in the international form 233 and nine digits passes the
      check once normalized by the USSD service. */
  lemma NormalizedPhoneIsValid(digits: string)
    requires |digits| == 9 && AllDigits(digits)
    ensures IsValidGhanaPhone(Ussd.NormalizePhone("233" + digits))
    ensures !IsValidGhanaPhone("233" + digits)
  {
    Ussd.NormalizeInternational(digits);
  }
}
