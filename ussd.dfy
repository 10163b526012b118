/** The USSD menu for feature phones (`ussd_service.py`).

    A client dials in; the phone number is the identity.  A session keyed by
    the gateway's session id remembers the client and the menu stage
    (MAIN_MENU or PAYOUT_AMOUNT).  From the main menu the client reads the
    balance, the recent confirmed payments or the collector's details, asks
    for a payout, or exits.  The session store is a map held by
    `SessionStore`; expiry is not modelled. */
module Ussd {
  import opened Wrappers
  import opened Text
  import opened Ledger
  import opened Sorting
  import opened Balance
  import opened Payouts
  import Transactions

  datatype Stage = MainMenuStage | PayoutAmountStage | OtherStage(name: string)

  datatype Session = Session(phone: string, stage: Stage, clientId: nat, collectorId: nat)

  datatype UssdRequest = UssdRequest(sessionId: string, phoneNumber: string, requestType: string, message: string)

  datatype ReplyType = Respond | Release

  /** The reply texts; those with figures carry them. */
  datatype Message =
    | NoMessage
    | InvalidRequest
    | NotRegistered
    | MainMenu
    | SessionExpired
    | InvalidSession
    | BalanceInfo(fullName: string, balance: int)
    | NoTransactions
    | RecentPayments(payments: seq<Transaction>)
    | EnterAmount
    | CollectorInfo(fullName: string, phone: string)
    | UnknownCollector
    | Goodbye
    | InvalidOption
    | InvalidAmount
    | NotPositive
    | Insufficient(available: int)
    | PayoutRequested(amount: int)

  datatype Reply = Reply(sessionId: string, replyType: ReplyType, message: Message)

  /** `scalar_one_or_none` raising on a phone registered with several
      collectors. */
  datatype UssdError = AmbiguousPhone(phone: string)

  class SessionStore {
    var sessions: map<string, Session>

    constructor()
      ensures sessions == map[]
    {
      sessions := map[];
    }

    method Save(id: string, s: Session)
      modifies this
      ensures sessions == old(sessions)[id := s]
    {
      sessions := sessions[id := s];
    }

    method Load(id: string) returns (s: Option<Session>)
      ensures s.Some? <==> id in sessions
      ensures s.Some? ==> s.value == sessions[id]
    {
      if id in sessions {
        s := Some(sessions[id]);
      } else {
        s := None;
      }
    }

    method Delete(id: string)
      modifies this
      ensures sessions == old(sessions) - {id}
    {
      sessions := sessions - {id};
    }
  }

  // ---------------------------------------------------------------------
  // Pure parts

  predicate StartsWith(s: string, prefix: string) {
    |prefix| <= |s| && s[..|prefix|] == prefix
  }

  /** `normalize_phone`: "233…" of at least 12 characters becomes "0…";
      anything else is kept. */
  function NormalizePhone(phone: string): (r: string)
    ensures StartsWith(phone, "233") && |phone| >= 12 ==> r == "0" + phone[3..] && |r| == |phone| - 2
    ensures !(StartsWith(phone, "233") && |phone| >= 12) ==> r == phone
  {
    if StartsWith(phone, "233") && |phone| >= 12 then "0" + phone[3..] else phone
  }

  /** Normalizing twice changes nothing more: a normalized number never
      starts with "233". */
  lemma NormalizeIdempotent(phone: string)
    ensures NormalizePhone(NormalizePhone(phone)) == NormalizePhone(phone)
  {
    var once := NormalizePhone(phone);
    if StartsWith(phone, "233") && |phone| >= 12 {
      assert once[0] == '0';
      assert !StartsWith(once, "233");
    }
  }

  /** The international form of a Ghana number, 233 and nine digits, maps to
      the local ten-digit form starting with 0. */
  lemma NormalizeInternational(digits: string)
    requires |digits| == 9 && AllDigits(digits)
    ensures var r := NormalizePhone("233" + digits);
      r == "0" + digits && |r| == 10 && r[0] == '0' && AllDigits(r)
  {
    var phone := "233" + digits;
    assert phone[..3] == "233";
    assert phone[3..] == digits;
  }

  lemma NormalizeExample()
    ensures NormalizePhone("233244900002") == "0244900002"
  {
    NormalizeInternational("244900002");
  }

  /** The value of at most two fraction digits, in hundredths. */
  function Hundredths(frac: string): nat
    requires AllDigits(frac) && |frac| <= 2
  {
    if |frac| == 0 then 0
    else if |frac| == 1 then DigitValue(frac[0]) * 10
    else DigitValue(frac[0]) * 10 + DigitValue(frac[1])
  }

  function IndexOfPoint(s: string): (r: Option<nat>)
    ensures r.Some? ==> r.value < |s| && s[r.value] == '.' && forall j :: 0 <= j < r.value ==> s[j] != '.'
    ensures r.None? <==> forall j :: 0 <= j < |s| ==> s[j] != '.'
  {
    if s == [] then None
    else if s[0] == '.' then Some(0)
    else match IndexOfPoint(s[1..])
      case None => None
      case Some(i) => Some(i + 1)
  }

  /** An unsigned plain numeral in pesewas: digits, optionally a point and
      at most two digits, with at least one digit in all. */
  function UnsignedAmount(s: string): Option<nat> {
    match IndexOfPoint(s)
    case None =>
      if |s| > 0 && AllDigits(s) then Some(DigitsValue(s) * 100) else None
    case Some(i) =>
      var whole := s[..i];
      var frac := s[i + 1..];
      if AllDigits(whole) && AllDigits(frac) && |frac| <= 2 && |whole| + |frac| > 0
      then Some(DigitsValue(whole) * 100 + Hundredths(frac))
      else None
  }

  /** `Decimal(text)` on plain numerals, in pesewas: an optional sign and an
      unsigned numeral; anything else is not an amount. */
  function ParseAmount(s: string): Option<int> {
    if |s| > 0 && (s[0] == '-' || s[0] == '+') then
      match UnsignedAmount(s[1..])
      case None => None
      case Some(v) => Some(if s[0] == '-' then -(v as int) else v as int)
    else
      match UnsignedAmount(s)
      case None => None
      case Some(v) => Some(v)
  }

  /** Whole cedis written as a numeral read back as that many hundred
      pesewas, negated under a minus sign. */
  lemma ParseWholeAmount(n: nat)
    ensures ParseAmount(NatToString(n)) == Some(n * 100)
    ensures ParseAmount("-" + NatToString(n)) == Some(-(n * 100))
  {
    var s := NatToString(n);
    assert IndexOfPoint(s).None? by {
      forall j | 0 <= j < |s| ensures s[j] != '.' {
        assert IsDigit(s[j]);
      }
    }
    assert ("-" + s)[1..] == s;
  }

  /** Cedis and two pesewa digits read back exactly. */
  lemma ParseAmountWithPesewas(n: nat, d1: nat, d2: nat)
    requires d1 < 10 && d2 < 10
    ensures ParseAmount(NatToString(n) + "." + [DigitChar(d1), DigitChar(d2)]) == Some(n * 100 + d1 * 10 + d2)
  {
    var w := NatToString(n);
    var frac := [DigitChar(d1), DigitChar(d2)];
    var s := w + "." + frac;
    assert forall j :: 0 <= j < |w| ==> s[j] == w[j] && s[j] != '.' by {
      forall j | 0 <= j < |w| ensures s[j] == w[j] && s[j] != '.' {
        assert IsDigit(w[j]);
      }
    }
    assert s[|w|] == '.';
    assert IndexOfPoint(s) == Some(|w|);
    assert s[..|w|] == w && s[|w| + 1..] == frac;
  }

  /** The amount stage's own checks: a readable, positive amount not above
      the balance. */
  function PayoutAmountCheck(text: string, available: int): (r: Result<int, Message>)
    ensures ParseAmount(text).None? ==> r == Failure(InvalidAmount)
    ensures ParseAmount(text).Some? && ParseAmount(text).value <= 0 ==> r == Failure(NotPositive)
    ensures ParseAmount(text).Some? && 0 < ParseAmount(text).value && ParseAmount(text).value > available
            ==> r == Failure(Insufficient(available))
    ensures r.Success? ==> Some(r.value) == ParseAmount(text) && 0 < r.value <= available
                           && RequestCheck(available, r.value).None?
  {
    match ParseAmount(text)
    case None => Failure(InvalidAmount)
    case Some(amount) =>
      if amount <= 0 then Failure(NotPositive)
      else if amount > available then Failure(Insufficient(available))
      else Success(amount)
  }

  // ---------------------------------------------------------------------
  // Option 2: recent payments

  function IsConfirmed(t: Transaction): bool { t.status == Confirmed }

  function Take<T>(xs: seq<T>, n: nat): (r: seq<T>)
    ensures |r| <= n && |r| <= |xs| && r == xs[..|r|]
    ensures |xs| >= n ==> |r| == n
  {
    if |xs| <= n then xs else xs[..n]
  }

  /** The first five CONFIRMED entries of the client's history page. */
  function RecentConfirmed(items: seq<Transaction>): (r: seq<Transaction>)
    ensures |r| <= 5
    ensures forall k :: 0 <= k < |r| ==> r[k].status == Confirmed && r[k] in items
    ensures |r| <= |Select(items, IsConfirmed)| && r == Select(items, IsConfirmed)[..|r|]
    ensures |Select(items, IsConfirmed)| >= 5 ==> |r| == 5
  {
    Take(Select(items, IsConfirmed), 5)
  }

  /** A Python value the listing loop can meet. */
  datatype PyValue = PyStr(s: string) | PyRow(t: Transaction)

  /** The keys of the dict `get_client_history` returns, in insertion order:
      iterating a dict yields these. */
  const HistoryKeys: seq<PyValue> := [PyStr("items"), PyStr("total"), PyStr("skip"), PyStr("limit")]

  datatype PyError = AttributeError(onValue: string, attribute: string)

  /** Option 2 as written: `[t for t in txns if t.status == "CONFIRMED"]`
      over whatever `txns` iterates; a string has no `status`. */
  function ConfirmedAsWritten(values: seq<PyValue>): Result<seq<Transaction>, PyError> {
    if values == [] then Success([])
    else match values[0]
      case PyStr(s) => Failure(AttributeError(s, "status"))
      case PyRow(t) =>
        match ConfirmedAsWritten(values[1..])
        case Failure(e) => Failure(e)
        case Success(rest) => Success(if t.status == Confirmed then [t] + rest else rest)
  }

  /** As written, option 2 fails on every call: the loop meets the key
      "items" first, whatever the client's history holds. */
  lemma HistoryOptionAlwaysFails(items: seq<Transaction>)
    ensures ConfirmedAsWritten(HistoryKeys) == Failure(AttributeError("items", "status"))
    ensures ConfirmedAsWritten(seq(|items|, k requires 0 <= k < |items| => PyRow(items[k])))
            == Success(Select(items, IsConfirmed))
  {
    RowsConfirmed(items);
  }

  lemma {:induction false} RowsConfirmed(items: seq<Transaction>)
    ensures ConfirmedAsWritten(seq(|items|, k requires 0 <= k < |items| => PyRow(items[k])))
            == Success(Select(items, IsConfirmed))
  {
    if items != [] {
      var rows := seq(|items|, k requires 0 <= k < |items| => PyRow(items[k]));
      assert rows[1..] == seq(|items[1..]|, k requires 0 <= k < |items[1..]| => PyRow(items[1..][k]));
      RowsConfirmed(items[1..]);
    }
  }

  /** The history page option 2 reads: the client's newest 20 entries. */
  function HistoryPage(ts: seq<Transaction>, clientId: nat): seq<Transaction> {
    Page(SortBy(Select(ts, Transactions.InClientHistory(clientId, None)), Transactions.NewestFirst), 0, 20)
  }

  // ---------------------------------------------------------------------
  // The dispatch

  predicate IsSessionEnd(requestType: string) {
    requestType == "Release" || requestType == "Timeout"
  }

  function HasPhone(phone: string): Client -> bool {
    (c: Client) => c.phone == phone
  }

  /** What an Initiation does: an unknown phone is released with nothing
      stored; a phone of exactly one client opens a session at the main
      menu; a phone shared by clients of several collectors raises. */
  ghost predicate InitiationOutcome(req: UssdRequest, clients: seq<Client>, before: map<string, Session>,
                                    after: map<string, Session>, r: Result<Reply, UssdError>)
  {
    var phone := NormalizePhone(req.phoneNumber);
    var matches := Select(clients, HasPhone(phone));
    (|matches| == 0 ==> r == Success(Reply(req.sessionId, Release, NotRegistered)) && after == before)
    && (|matches| == 1 ==>
          r == Success(Reply(req.sessionId, Respond, MainMenu))
          && after == before[req.sessionId := Session(phone, MainMenuStage, matches[0].id, matches[0].collectorId)])
    && (|matches| > 1 ==> r == Failure(AmbiguousPhone(phone)) && after == before)
  }

  /** `_handle_initiation`. */
  method HandleInitiation(store: SessionStore, db: Database, req: UssdRequest) returns (r: Result<Reply, UssdError>)
    modifies store
    ensures InitiationOutcome(req, db.clients, old(store.sessions), store.sessions, r)
  {
    var phone := NormalizePhone(req.phoneNumber);
    var matches := Select(db.clients, HasPhone(phone));
    if |matches| == 0 {
      return Success(Reply(req.sessionId, Release, NotRegistered));
    }
    if |matches| > 1 {
      return Failure(AmbiguousPhone(phone));
    }
    var client := matches[0];
    store.Save(req.sessionId, Session(phone, MainMenuStage, client.id, client.collectorId));
    r := Success(Reply(req.sessionId, Respond, MainMenu));
  }

  /** What a main-menu choice does. */
  ghost predicate MainMenuOutcome(id: string, session: Session, choice: string, db: Database,
                                  before: map<string, Session>, after: map<string, Session>, r: Reply)
    reads db
    requires db.Valid()
  {
    r.sessionId == id
    && (choice == "1" ==>
          var b := GetClientBalance(db.clients, db.transactions, db.payouts, session.clientId);
          r == Reply(id, Release, BalanceInfo(b.fullName, b.balance)) && after == before)
    && (choice == "2" ==>
          var recent := RecentConfirmed(HistoryPage(db.transactions, session.clientId));
          r == Reply(id, Release, if recent == [] then NoTransactions else RecentPayments(recent)) && after == before)
    && (choice == "3" ==>
          r == Reply(id, Respond, EnterAmount) && after == before[id := session.(stage := PayoutAmountStage)])
    && (choice == "4" ==>
          after == before
          && (session.collectorId < |db.collectors| ==>
                r == Reply(id, Release, CollectorInfo(db.collectors[session.collectorId].fullName,
                                                      db.collectors[session.collectorId].phone)))
          && (session.collectorId >= |db.collectors| ==> r == Reply(id, Release, UnknownCollector)))
    && (choice == "0" ==> r == Reply(id, Release, Goodbye) && after == before - {id})
    && (choice !in ["0", "1", "2", "3", "4"] ==> r == Reply(id, Respond, InvalidOption) && after == before)
  }

  /** `_handle_main_menu`; option 2 reads the `items` of the history page. */
  method HandleMainMenu(store: SessionStore, db: Database, id: string, session: Session, choice: string)
    returns (r: Reply)
    requires db.Valid()
    modifies store
    ensures MainMenuOutcome(id, session, choice, db, old(store.sessions), store.sessions, r)
  {
    if choice == "1" {
      var b := GetClientBalance(db.clients, db.transactions, db.payouts, session.clientId);
      r := Reply(id, Release, BalanceInfo(b.fullName, b.balance));
    } else if choice == "2" {
      var history := Transactions.GetClientHistory(db, session.clientId, None, 0, 20);
      var recent := RecentConfirmed(history.items);
      r := Reply(id, Release, if recent == [] then NoTransactions else RecentPayments(recent));
    } else if choice == "3" {
      store.Save(id, session.(stage := PayoutAmountStage));
      r := Reply(id, Respond, EnterAmount);
    } else if choice == "4" {
      if session.collectorId < |db.collectors| {
        var c := db.collectors[session.collectorId];
        r := Reply(id, Release, CollectorInfo(c.fullName, c.phone));
      } else {
        r := Reply(id, Release, UnknownCollector);
      }
    } else if choice == "0" {
      store.Delete(id);
      r := Reply(id, Release, Goodbye);
    } else {
      r := Reply(id, Respond, InvalidOption);
    }
  }

  /** What the amount stage does: a refused amount is released with the
      session kept; an accepted one stores an EMERGENCY payout request with
      the reason "USSD request" and ends the session. */
  ghost predicate PayoutAmountOutcome(id: string, session: Session, text: string, now: int, clients: seq<Client>,
                                      ts: seq<Transaction>, psBefore: seq<Payout>, psAfter: seq<Payout>,
                                      before: map<string, Session>, after: map<string, Session>, r: Reply)
    requires forall k :: 0 <= k < |clients| ==> clients[k].id == k
  {
    var check := PayoutAmountCheck(text, GetClientBalance(clients, ts, psBefore, session.clientId).balance);
    (check.Failure? ==> r == Reply(id, Release, check.error) && after == before && psAfter == psBefore)
    && (check.Success? ==>
          session.clientId < |clients|
          && psAfter == psBefore + [RequestedPayout(|psBefore|, clients[session.clientId], check.value,
                                                    Emergency, Some("USSD request"), now)]
          && after == before - {id}
          && r == Reply(id, Release, PayoutRequested(check.value)))
  }

  /** `_handle_payout_amount`.  An accepted amount is positive and within a
      balance that is therefore positive, so the client row exists and
      `request_payout`, repeating the same check, accepts it: the source's
      "Client not found." and refusal replies cannot occur. */
  method HandlePayoutAmount(store: SessionStore, db: Database, id: string, session: Session, text: string, now: int)
    returns (r: Reply)
    requires db.Valid()
    modifies store, db
    ensures db.Valid()
    ensures db.collectors == old(db.collectors) && db.clients == old(db.clients)
    ensures db.transactions == old(db.transactions)
    ensures PayoutAmountOutcome(id, session, text, now, db.clients, db.transactions, old(db.payouts), db.payouts,
                                old(store.sessions), store.sessions, r)
  {
    var available := GetClientBalance(db.clients, db.transactions, db.payouts, session.clientId).balance;
    var check := PayoutAmountCheck(text, available);
    if check.Failure? {
      return Reply(id, Release, check.error);
    }
    var client := db.clients[session.clientId];
    var requested := RequestPayout(db, client, check.value, Emergency, Some("USSD request"), now);
    assert requested.Success?;
    store.Delete(id);
    r := Reply(id, Release, PayoutRequested(check.value));
  }

  /** What a Response request does: with no stored session, "session
      expired"; otherwise the stage of the stored session picks the outcome
      for the message with surrounding whitespace removed: the main menu's,
      the amount stage's, or an invalid-session release.  `db` is the state
      after the request and `psBefore` the payouts before it. */
  ghost predicate ResponseOutcome(req: UssdRequest, now: int, db: Database, psBefore: seq<Payout>,
                                  before: map<string, Session>, after: map<string, Session>, r: Reply)
    reads db
    requires db.Valid()
  {
    r.sessionId == req.sessionId
    && (req.sessionId !in before ==>
          r == Reply(req.sessionId, Release, SessionExpired) && after == before && db.payouts == psBefore)
    && (req.sessionId in before ==>
          var session := before[req.sessionId];
          var choice := Strip(req.message);
          (session.stage == MainMenuStage ==>
             db.payouts == psBefore && MainMenuOutcome(req.sessionId, session, choice, db, before, after, r))
          && (session.stage == PayoutAmountStage ==>
                PayoutAmountOutcome(req.sessionId, session, choice, now, db.clients, db.transactions,
                                    psBefore, db.payouts, before, after, r))
          && (session.stage.OtherStage? ==>
                r == Reply(req.sessionId, Release, InvalidSession) && after == before && db.payouts == psBefore))
  }

  /** `_handle_response`: the stored session's stage picks the handler; the
      choice is the message with surrounding whitespace removed. */
  method HandleResponse(store: SessionStore, db: Database, req: UssdRequest, now: int) returns (r: Reply)
    requires db.Valid()
    modifies store, db
    ensures db.Valid()
    ensures db.collectors == old(db.collectors) && db.clients == old(db.clients)
    ensures db.transactions == old(db.transactions)
    ensures ResponseOutcome(req, now, db, old(db.payouts), old(store.sessions), store.sessions, r)
  {
    var loaded := store.Load(req.sessionId);
    if loaded.None? {
      return Reply(req.sessionId, Release, SessionExpired);
    }
    var session := loaded.value;
    var choice := Strip(req.message);
    match session.stage
    case MainMenuStage =>
      r := HandleMainMenu(store, db, req.sessionId, session, choice);
    case PayoutAmountStage =>
      r := HandlePayoutAmount(store, db, req.sessionId, session, choice, now);
    case OtherStage(_) =>
      r := Reply(req.sessionId, Release, InvalidSession);
  }

  /** `handle_ussd`: dispatch on the request type. */
  method HandleUssd(store: SessionStore, db: Database, req: UssdRequest, now: int) returns (r: Result<Reply, UssdError>)
    requires db.Valid()
    modifies store, db
    ensures db.Valid()
    ensures db.collectors == old(db.collectors) && db.clients == old(db.clients)
    ensures db.transactions == old(db.transactions)
    ensures r.Success? ==> r.value.sessionId == req.sessionId
    ensures req.requestType != "Response" ==> db.payouts == old(db.payouts)
    ensures req.requestType == "Initiation" ==> InitiationOutcome(req, db.clients, old(store.sessions), store.sessions, r)
    ensures req.requestType == "Response" ==>
              r.Success? && ResponseOutcome(req, now, db, old(db.payouts), old(store.sessions), store.sessions, r.value)
    ensures IsSessionEnd(req.requestType) ==>
              r == Success(Reply(req.sessionId, Release, NoMessage))
              && store.sessions == old(store.sessions) - {req.sessionId}
    ensures req.requestType !in ["Initiation", "Response", "Release", "Timeout"] ==>
              r == Success(Reply(req.sessionId, Release, InvalidRequest)) && store.sessions == old(store.sessions)
  {
    if req.requestType == "Initiation" {
      r := HandleInitiation(store, db, req);
    } else if req.requestType == "Response" {
      var reply := HandleResponse(store, db, req, now);
      r := Success(reply);
    } else if IsSessionEnd(req.requestType) {
      store.Delete(req.sessionId);
      r := Success(Reply(req.sessionId, Release, NoMessage));
    } else {
      r := Success(Reply(req.sessionId, Release, InvalidRequest));
    }
  }
}
