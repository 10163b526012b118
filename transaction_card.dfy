/** The collector's card for one transaction (`components/transaction/
    TransactionCard.tsx`): the trust-level style, the age label, the note a
    query or rejection sends, and which actions the card offers.

    Clock readings are parameters: `now` and `submitted` are milliseconds
    since the epoch, and the locale's short date of the submission
    (`toLocaleDateString`) is `localDate`. */
module TransactionCard {
  import opened Wrappers
  import opened Text
  import opened Ledger
  import opened Transactions

  // ---------------------------------------------------------------------
  // Trust level

  /** `trustLevelColor`. */
  function TrustLevelColor(level: TrustLevel): (style: string)
    ensures |style| > 0
  {
    match level
    case TrustHigh => "text-green-600 bg-green-50"
    case TrustMedium => "text-amber-600 bg-amber-50"
    case TrustLow => "text-red-600 bg-red-50"
    case TrustAutoRejected => "text-red-600 bg-red-50"
  }

  /** Two levels share a style exactly when they are the same level or both
      are LOW or AUTO_REJECTED. */
  lemma TrustStylesDistinguish(a: TrustLevel, b: TrustLevel)
    ensures TrustLevelColor(a) == TrustLevelColor(b) <==>
      a == b || ((a == TrustLow || a == TrustAutoRejected) && (b == TrustLow || b == TrustAutoRejected))
  {
    var green, amber, red := "text-green-600 bg-green-50", "text-amber-600 bg-amber-50", "text-red-600 bg-red-50";
    assert green[5] == 'g' && amber[5] == 'a' && red[5] == 'r';
  }

  // ---------------------------------------------------------------------
  // Age label

  /** `relativeTime`: whole seconds, minutes, hours and days since the
      submission, each the floor of the one before divided down. */
  function RelativeTime(now: int, submitted: int, localDate: string): string
  {
    var diffSec := (now - submitted) / 1000;
    if diffSec < 60 then "just now"
    else
      var diffMin := diffSec / 60;
      if diffMin < 60 then NatToString(diffMin) + "m ago"
      else
        var diffHour := diffMin / 60;
        if diffHour < 24 then NatToString(diffHour) + "h ago"
        else
          var diffDay := diffHour / 24;
          if diffDay == 1 then "Yesterday"
          else if diffDay < 7 then NatToString(diffDay) + "d ago"
          else localDate
  }

  const Minute: int := 60000
  const Hour: int := 3600000
  const Day: int := 86400000

  /** The label by the age in milliseconds: under a minute (a submission
      time in the future included) is "just now"; then whole minutes, whole
      hours, "Yesterday" for the second day, whole days up to a week, and
      the date after that. */
  lemma RelativeTimeBuckets(now: int, submitted: int, localDate: string)
    ensures var age := now - submitted; var shown := RelativeTime(now, submitted, localDate);
      (age < Minute ==> shown == "just now")
      && (Minute <= age < Hour ==> 1 <= age / Minute < 60 && shown == NatToString(age / Minute) + "m ago")
      && (Hour <= age < Day ==> 1 <= age / Hour < 24 && shown == NatToString(age / Hour) + "h ago")
      && (Day <= age < 2 * Day ==> shown == "Yesterday")
      && (2 * Day <= age < 7 * Day ==> 2 <= age / Day < 7 && shown == NatToString(age / Day) + "d ago")
      && (7 * Day <= age ==> shown == localDate)
  {
    var age := now - submitted;
    assert age / 1000 / 60 == age / Minute;
    assert age / Minute / 60 == age / Hour;
    assert age / Hour / 24 == age / Day;
  }

  // ---------------------------------------------------------------------
  // Query and reject notes

  datatype NoteModal = QueryModal | RejectModal

  datatype NoteOutcome = NoteOutcome(error: string, action: Option<TxnAction>)

  /** `handleNoteSubmit`: the note is trimmed; an empty one or one longer
      than 500 characters sets an error and sends nothing; otherwise the
      error is cleared and the open dialog's action is sent with the
      trimmed note, which trimming again leaves as it is. */
  function HandleNoteSubmit(note: string, modal: Option<NoteModal>): (r: NoteOutcome)
    ensures r.error == [] <==> 1 <= |Trim(note)| <= 500
    ensures r.action.Some? <==> 1 <= |Trim(note)| <= 500 && modal.Some?
    ensures r.action.Some? ==> !r.action.value.ConfirmAction? && r.action.value.note == Trim(note)
    ensures r.action.Some? ==> (r.action.value.QueryAction? <==> modal == Some(QueryModal))
    ensures r.action.Some? ==> Trim(r.action.value.note) == r.action.value.note
  {
    StripIdempotent(note, IsJsSpace);
    var trimmed := Trim(note);
    if |trimmed| < 1 then NoteOutcome("Note is required", None)
    else if |trimmed| > 500 then NoteOutcome("Note must be 500 characters or less", None)
    else
      match modal
      case Some(QueryModal) => NoteOutcome([], Some(QueryAction(trimmed)))
      case Some(RejectModal) => NoteOutcome([], Some(RejectAction(trimmed)))
      case None => NoteOutcome([], None)
  }

  // ---------------------------------------------------------------------
  // Actions offered

  datatype CardButton = ConfirmButton | QueryButton | RejectButton

  /** The buttons under the card: Confirm and Query for PENDING, Confirm and
      Reject for QUERIED, none otherwise. */
  function Buttons(status: TxnStatus): (bs: set<CardButton>)
    ensures ConfirmButton in bs <==> status == Pending || status == Queried
  {
    match status
    case Pending => {ConfirmButton, QueryButton}
    case Queried => {ConfirmButton, RejectButton}
    case _ => {}
  }

  /** The action a button leads to (the dialog's note for Query and Reject). */
  function ButtonAction(b: CardButton, note: string): TxnAction {
    match b
    case ConfirmButton => ConfirmAction
    case QueryButton => QueryAction(note)
    case RejectButton => RejectAction(note)
  }

  /** The card offers a button exactly when the backend accepts its action
      for the entry's status. */
  lemma ButtonsMatchTransitions(t: Transaction, b: CardButton, note: string, now: int)
    ensures b in Buttons(t.status) <==> Transition(t, ButtonAction(b, note), now).Success?
  {
  }
}
