/** The three automatic checks run on every SMS submission
    (`validate_submission`): a duplicate MTN transaction id rejects the
    submission outright; a recipient number other than the collector's MoMo
    number and a transaction older than 48 hours each add a flag; the trust
    level follows from the flags. */
module Validator {
  import opened Wrappers
  import opened Calendar
  import opened Ledger
  import SmsParser

  /** Forty-eight hours, in seconds. */
  const FreshnessWindow: int := 48 * 3600

  datatype ValidationResult = ValidationResult(
    autoReject: bool,
    autoRejectReason: Option<string>,
    flags: seq<Flag>,
    trustLevel: TrustLevel)

  const DuplicateReason: string := "This transaction has already been submitted."

  /** A naive parsed date-time read as UTC. */
  function InstantOfParsed(d: SmsParser.DateTime): int
    requires ValidDate(d.date)
  {
    InstantOf(d.date, d.hour, d.minute)
  }

  /** Every date the parser produces is a calendar date. */
  predicate DateWellFormed(p: SmsParser.ParsedSms) {
    p.transactionDate.Some? ==> ValidDate(p.transactionDate.value.date)
  }

  /** The recipient phone check: a phone was parsed and it is not the
      collector's MoMo number (a collector with no MoMo number flags any). */
  predicate PhoneMismatch(p: SmsParser.ParsedSms, collector: Collector) {
    p.recipientPhone.Some? && p.recipientPhone.value != ""
    && Some(p.recipientPhone.value) != collector.momoNumber
  }

  /** The freshness check: strictly more than 48 hours before `now`. */
  predicate TooOld(p: SmsParser.ParsedSms, now: int)
    requires DateWellFormed(p)
  {
    p.transactionDate.Some? && now - InstantOfParsed(p.transactionDate.value) > FreshnessWindow
  }

  /** The duplicate check, global across collectors. */
  predicate Duplicate(p: SmsParser.ParsedSms, ts: seq<Transaction>) {
    p.transactionId.Some? && p.transactionId.value != "" && IdTaken(ts, p.transactionId.value)
  }

  /** `validate_submission`, with the clock read as `now`. */
  method ValidateSubmission(db: Database, parsed: SmsParser.ParsedSms, collector: Collector, now: int)
    returns (r: ValidationResult)
    requires DateWellFormed(parsed)
    ensures r.autoReject <==> Duplicate(parsed, db.transactions)
    ensures r.autoReject ==> r.trustLevel == TrustAutoRejected && r.flags == [] && r.autoRejectReason == Some(DuplicateReason)
    ensures !r.autoReject ==> r.autoRejectReason.None?
    ensures !r.autoReject ==> (RecipientPhoneMismatch in r.flags <==> PhoneMismatch(parsed, collector))
    ensures !r.autoReject ==> ((exists f :: f in r.flags && f.DateTooOld?) <==> TooOld(parsed, now))
    ensures |r.flags| <= 2
    ensures |r.flags| == 2 ==> r.flags[0] == RecipientPhoneMismatch && r.flags[1].DateTooOld?
    ensures forall f :: f in r.flags && f.DateTooOld? ==> f.ageDays == (now - InstantOfParsed(parsed.transactionDate.value)) / 86400
    ensures !r.autoReject ==> (r.trustLevel == TrustHigh <==> r.flags == [])
    ensures !r.autoReject ==> (r.trustLevel == TrustMedium <==> r.flags != [])
  {
    r := ValidationResult(false, None, [], TrustHigh);

    if parsed.transactionId.Some? && parsed.transactionId.value != "" {
      if exists k :: 0 <= k < |db.transactions| && db.transactions[k].mtnTxnId == Some(parsed.transactionId.value) {
        r := r.(autoReject := true, autoRejectReason := Some(DuplicateReason), trustLevel := TrustAutoRejected);
        return;
      }
    }

    if PhoneMismatch(parsed, collector) {
      r := r.(flags := r.flags + [RecipientPhoneMismatch]);
    }

    if parsed.transactionDate.Some? {
      var age := now - InstantOfParsed(parsed.transactionDate.value);
      if age > FreshnessWindow {
        r := r.(flags := r.flags + [DateTooOld(age / 86400)]);
        assert r.flags[|r.flags| - 1] == DateTooOld(age / 86400);
      }
    }

    if |r.flags| == 0 {
      r := r.(trustLevel := TrustHigh);
    } else {
      r := r.(trustLevel := TrustMedium);
    }
  }
}
