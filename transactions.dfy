/** The transaction ledger (`transaction_service.py`): submissions add one
    entry each, collectors move entries through PENDING → QUERIED → REJECTED
    or PENDING/QUERIED → CONFIRMED, and the listings are filtered, ordered
    pages of the ledger.  Every collector-side action finds its row through
    the collector's own id. */
module Transactions {
  import opened Wrappers
  import opened Ledger
  import opened Sorting
  import opened Validator
  import SmsParser

  datatype TxnError =
    | Lookup(reason: LookupError)
    | SmsUnreadable(parseError: SmsParser.ParseError)
    | CannotConfirm(status: TxnStatus)
    | CannotQuery(status: TxnStatus)
    | CannotReject(status: TxnStatus)

  /** What an SMS submission returns: the stored row, the parse and the
      validation. */
  datatype Submission = Submission(txn: Transaction, parsed: SmsParser.ParsedSms, validation: ValidationResult)

  // ---------------------------------------------------------------------
  // Submissions

  /** Parse, validate and store one SMS submission for `client` of
      `collector` (the common part of `submit_sms` and `submit_sms_as_client`). */
  method RecordSms(db: Database, collector: Collector, client: Client, smsText: string, now: int)
    returns (r: Result<Submission, TxnError>)
    requires db.Valid()
    requires client.id < |db.clients| && db.clients[client.id] == client && client.collectorId == collector.id
    modifies db
    ensures db.Valid()
    ensures db.collectors == old(db.collectors) && db.clients == old(db.clients) && db.payouts == old(db.payouts)
    ensures r.Failure? <==> SmsParser.ParseSms(smsText).Failure?
    ensures r.Failure? ==> (db.transactions == old(db.transactions)
                            && r.error == SmsUnreadable(SmsParser.ParseSms(smsText).error))
    ensures r.Success? ==> RecordedSms(r.value, old(db.transactions), db.transactions, collector, client, smsText, now)
  {
    var parsed := SmsParser.ParseSms(smsText);
    if parsed.Failure? {
      return Failure(SmsUnreadable(parsed.error));
    }
    var p := parsed.value;
    var validation := ValidateSubmission(db, p, collector, now);
    var txn := StoreSms(db, collector, client, smsText, p, validation, now);
    r := Success(Submission(txn, p, validation));
  }

  /** Store the row of a validated SMS submission. */
  method StoreSms(db: Database, collector: Collector, client: Client, smsText: string,
                  p: SmsParser.ParsedSms, validation: ValidationResult, now: int)
    returns (txn: Transaction)
    requires db.Valid()
    requires client.id < |db.clients| && db.clients[client.id] == client && client.collectorId == collector.id
    requires p.transactionId.Some? ==> |p.transactionId.value| > 0
    requires validation.autoReject <==> Duplicate(p, db.transactions)
    requires !validation.autoReject ==> (validation.trustLevel == TrustHigh <==> validation.flags == [])
    modifies db
    ensures db.Valid()
    ensures db.collectors == old(db.collectors) && db.clients == old(db.clients) && db.payouts == old(db.payouts)
    ensures StoredSms(Submission(txn, p, validation), old(db.transactions), db.transactions, collector, client, smsText, now)
  {
    var status := if validation.autoReject then AutoRejected else Pending;
    var storeTxnId := if validation.autoReject then None else p.transactionId;
    txn := Transaction(
      |db.transactions|, collector.id, client.id, p.amount.GetOr(0), storeTxnId, SmsText,
      validation.trustLevel, status, if validation.flags == [] then None else Some(validation.flags),
      Some(smsText), None, None, now, None);
    AppendKeepsConsistent(db.collectors, db.clients, db.transactions, db.payouts, txn);
    db.transactions := db.transactions + [txn];
  }

  /** The state after an SMS submission: the text parsed as `s.parsed`, and
      its row was stored. */
  ghost predicate RecordedSms(s: Submission, before: seq<Transaction>, after: seq<Transaction>,
                              collector: Collector, client: Client, smsText: string, now: int)
  {
    SmsParser.ParseSms(smsText) == Success(s.parsed)
    && StoredSms(s, before, after, collector, client, smsText, now)
  }

  /** The state after a stored SMS submission: one new row at the end, PENDING
      unless the validator rejected a duplicate, carrying the parsed amount
      (0 when none), the parsed MTN id unless rejected, the validator's trust
      level and its flags (null when there are none). */
  ghost predicate StoredSms(s: Submission, before: seq<Transaction>, after: seq<Transaction>,
                            collector: Collector, client: Client, smsText: string, now: int)
  {
    var t := s.txn;
    after == before + [t]
    && t.id == |before| && t.collectorId == collector.id && t.clientId == client.id
    && (s.validation.autoReject <==> Duplicate(s.parsed, before))
    && (t.status == AutoRejected <==> s.validation.autoReject)
    && (t.status == Pending <==> !s.validation.autoReject)
    && t.mtnTxnId == (if s.validation.autoReject then None else s.parsed.transactionId)
    && t.amount == s.parsed.amount.GetOr(0)
    && t.trustLevel == s.validation.trustLevel
    && (!s.validation.autoReject ==> (t.trustLevel == TrustHigh <==> s.validation.flags == []))
    && t.validationFlags == (if s.validation.flags == [] then None else Some(s.validation.flags))
    && t.submissionType == SmsText && t.rawSmsText == Some(smsText) && t.screenshotKey.None?
    && t.collectorNote.None? && t.submittedAt == now && t.confirmedAt.None?
  }

  /** `submit_sms`: a collector submits for one of their clients. */
  method SubmitSms(db: Database, collector: Collector, clientId: nat, smsText: string, now: int)
    returns (r: Result<Submission, TxnError>)
    requires db.Valid() && collector.id < |db.collectors| && db.collectors[collector.id] == collector
    modifies db
    ensures db.Valid()
    ensures db.collectors == old(db.collectors) && db.clients == old(db.clients) && db.payouts == old(db.payouts)
    ensures ClientForCollector(old(db.clients), clientId, collector.id).Failure? ==>
              (r == Failure(Lookup(ClientNotFound)) && db.transactions == old(db.transactions))
    ensures r.Failure? ==> db.transactions == old(db.transactions)
    ensures r.Success? <==> ClientForCollector(old(db.clients), clientId, collector.id).Success?
                            && SmsParser.ParseSms(smsText).Success?
    ensures r.Success? ==> RecordedSms(r.value, old(db.transactions), db.transactions, collector,
                                       old(db.clients)[clientId], smsText, now)
  {
    var client := ClientForCollector(db.clients, clientId, collector.id);
    if client.Failure? {
      return Failure(Lookup(client.error));
    }
    r := RecordSms(db, collector, client.value, smsText, now);
  }

  /** `submit_sms_as_client`: the client submits for themself; the row goes to
      the client's own collector, which the foreign key guarantees exists. */
  method SubmitSmsAsClient(db: Database, client: Client, smsText: string, now: int)
    returns (r: Result<Submission, TxnError>)
    requires db.Valid() && client.id < |db.clients| && db.clients[client.id] == client
    modifies db
    ensures db.Valid()
    ensures db.collectors == old(db.collectors) && db.clients == old(db.clients) && db.payouts == old(db.payouts)
    ensures r.Failure? ==> db.transactions == old(db.transactions)
    ensures r.Success? <==> SmsParser.ParseSms(smsText).Success?
    ensures r.Success? ==> RecordedSms(r.value, old(db.transactions), db.transactions,
                                       old(db.collectors)[client.collectorId], client, smsText, now)
  {
    var collector := db.collectors[client.collectorId];
    r := RecordSms(db, collector, client, smsText, now);
  }

  /** The row a screenshot submission stores: never validated, LOW trust,
      PENDING, with the declared amount. */
  function ScreenshotRow(id: nat, collectorId: nat, clientId: nat, amount: int, key: Option<string>, now: int): Transaction
  {
    Transaction(id, collectorId, clientId, amount, None, Screenshot, TrustLow, Pending, None, None, key, None, now, None)
  }

  method RecordScreenshot(db: Database, client: Client, amount: int, key: Option<string>, now: int)
    returns (t: Transaction)
    requires db.Valid() && client.id < |db.clients| && db.clients[client.id] == client
    modifies db
    ensures db.Valid()
    ensures db.collectors == old(db.collectors) && db.clients == old(db.clients) && db.payouts == old(db.payouts)
    ensures t == ScreenshotRow(|old(db.transactions)|, client.collectorId, client.id, amount, key, now)
    ensures db.transactions == old(db.transactions) + [t]
  {
    t := ScreenshotRow(|db.transactions|, client.collectorId, client.id, amount, key, now);
    AppendKeepsConsistent(db.collectors, db.clients, db.transactions, db.payouts, t);
    db.transactions := db.transactions + [t];
  }

  /** `submit_screenshot`: a collector submits a screenshot for a client. */
  method SubmitScreenshot(db: Database, collectorId: nat, clientId: nat, amount: int, key: Option<string>, now: int)
    returns (r: Result<Transaction, TxnError>)
    requires db.Valid()
    modifies db
    ensures db.Valid()
    ensures db.collectors == old(db.collectors) && db.clients == old(db.clients) && db.payouts == old(db.payouts)
    ensures r.Success? <==> ClientForCollector(old(db.clients), clientId, collectorId).Success?
    ensures r.Failure? ==> r.error == Lookup(ClientNotFound) && db.transactions == old(db.transactions)
    ensures r.Success? ==> (r.value == ScreenshotRow(|old(db.transactions)|, collectorId, clientId, amount, key, now)
                            && db.transactions == old(db.transactions) + [r.value])
  {
    var client := ClientForCollector(db.clients, clientId, collectorId);
    if client.Failure? {
      return Failure(Lookup(client.error));
    }
    var t := RecordScreenshot(db, client.value, amount, key, now);
    r := Success(t);
  }

  /** `submit_screenshot_as_client`. */
  method SubmitScreenshotAsClient(db: Database, client: Client, amount: int, key: Option<string>, now: int)
    returns (t: Transaction)
    requires db.Valid() && client.id < |db.clients| && db.clients[client.id] == client
    modifies db
    ensures db.Valid()
    ensures db.collectors == old(db.collectors) && db.clients == old(db.clients) && db.payouts == old(db.payouts)
    ensures t == ScreenshotRow(|old(db.transactions)|, client.collectorId, client.id, amount, key, now)
    ensures db.transactions == old(db.transactions) + [t]
  {
    t := RecordScreenshot(db, client, amount, key, now);
  }

  /** A stored SMS never reuses an MTN id already in the ledger, whoever
      submitted it: the validator's global duplicate check and the null id
      stored on rejection keep the unique index satisfied. */
  lemma SmsSubmissionKeepsIdsUnique(s: Submission, before: seq<Transaction>, after: seq<Transaction>,
                                    collector: Collector, client: Client, smsText: string, now: int)
    requires UniqueTxnIds(before)
    requires RecordedSms(s, before, after, collector, client, smsText, now)
    ensures UniqueTxnIds(after)
    ensures s.txn.mtnTxnId.Some? ==> !IdTaken(before, s.txn.mtnTxnId.value)
  {
    if s.txn.mtnTxnId.Some? {
      assert !s.validation.autoReject;
      assert |s.parsed.transactionId.value| > 0;
    }
    AppendKeepsTxnIdsUnique(before, s.txn);
  }

  // ---------------------------------------------------------------------
  // Collector actions

  datatype TxnAction = ConfirmAction | QueryAction(note: string) | RejectAction(note: string)

  /** What an action does to one entry: confirm from PENDING or QUERIED, query
      from PENDING, reject from QUERIED; anything else is refused with the
      current status. */
  function Transition(t: Transaction, a: TxnAction, now: int): (r: Result<Transaction, TxnError>)
    ensures r.Success? ==> SameEvidence(t, r.value)
    ensures r.Failure? ==> (r.error.CannotConfirm? || r.error.CannotQuery? || r.error.CannotReject?)
                           && r.error.status == t.status
  {
    match a
    case ConfirmAction =>
      if t.status == Pending || t.status == Queried then Success(t.(status := Confirmed, confirmedAt := Some(now)))
      else Failure(CannotConfirm(t.status))
    case QueryAction(note) =>
      if t.status == Pending then Success(t.(status := Queried, collectorNote := Some(note)))
      else Failure(CannotQuery(t.status))
    case RejectAction(note) =>
      if t.status == Queried then Success(t.(status := Rejected, collectorNote := Some(note)))
      else Failure(CannotReject(t.status))
  }

  /** Everything but the status, the confirmation time and the note stays. */
  predicate SameEvidence(t: Transaction, u: Transaction) {
    u.id == t.id && u.collectorId == t.collectorId && u.clientId == t.clientId && u.amount == t.amount
    && u.mtnTxnId == t.mtnTxnId && u.submissionType == t.submissionType && u.trustLevel == t.trustLevel
    && u.validationFlags == t.validationFlags && u.rawSmsText == t.rawSmsText
    && u.screenshotKey == t.screenshotKey && u.submittedAt == t.submittedAt
  }

  predicate IsTerminal(s: TxnStatus) {
    s == Confirmed || s == Rejected || s == AutoRejected
  }

  /** CONFIRMED, REJECTED and AUTO_REJECTED entries accept no action. */
  lemma TerminalIsFinal(t: Transaction, a: TxnAction, now: int)
    requires IsTerminal(t.status)
    ensures Transition(t, a, now).Failure?
  {
  }

  /** The only moves are PENDING→CONFIRMED, QUERIED→CONFIRMED,
      PENDING→QUERIED and QUERIED→REJECTED; confirming stamps the time and
      querying or rejecting stores the note. */
  lemma TransitionEdges(t: Transaction, a: TxnAction, now: int)
    requires Transition(t, a, now).Success?
    ensures var u := Transition(t, a, now).value;
      (t.status == Pending && u.status == Confirmed && a.ConfirmAction? && u.confirmedAt == Some(now))
      || (t.status == Queried && u.status == Confirmed && a.ConfirmAction? && u.confirmedAt == Some(now))
      || (t.status == Pending && u.status == Queried && a.QueryAction? && u.collectorNote == Some(a.note))
      || (t.status == Queried && u.status == Rejected && a.RejectAction? && u.collectorNote == Some(a.note))
  {
  }

  /** A PENDING entry must be queried before it can be rejected. */
  lemma RejectNeedsQuery(t: Transaction, note: string, note2: string, now: int)
    requires t.status == Pending
    ensures Transition(t, RejectAction(note), now) == Failure(CannotReject(Pending))
    ensures Transition(t, QueryAction(note2), now).Success?
    ensures Transition(Transition(t, QueryAction(note2), now).value, RejectAction(note), now).Success?
  {
  }

  /** Look the entry up through the collector, apply the action and store the
      new entry; a lookup failure or a refused action writes nothing. */
  method Perform(db: Database, txnId: nat, collectorId: nat, a: TxnAction, now: int)
    returns (r: Result<Transaction, TxnError>)
    requires db.Valid()
    modifies db
    ensures db.Valid()
    ensures db.collectors == old(db.collectors) && db.clients == old(db.clients) && db.payouts == old(db.payouts)
    ensures r == ActionOutcome(old(db.transactions), txnId, collectorId, a, now)
    ensures r.Success? ==> txnId < |old(db.transactions)| && db.transactions == old(db.transactions)[txnId := r.value]
    ensures r.Failure? ==> db.transactions == old(db.transactions)
  {
    var found := TransactionForCollector(db.transactions, txnId, collectorId);
    if found.Failure? {
      return Failure(Lookup(found.error));
    }
    r := Transition(found.value, a, now);
    if r.Success? {
      UpdateKeepsConsistent(db.collectors, db.clients, db.transactions, db.payouts, txnId, r.value);
      db.transactions := db.transactions[txnId := r.value];
    }
  }

  /** The outcome of an action on the entry `txnId` as seen by `collectorId`. */
  function ActionOutcome(ts: seq<Transaction>, txnId: nat, collectorId: nat, a: TxnAction, now: int): Result<Transaction, TxnError>
    requires forall k :: 0 <= k < |ts| ==> ts[k].id == k
  {
    match TransactionForCollector(ts, txnId, collectorId)
    case Failure(e) => Failure(Lookup(e))
    case Success(t) => Transition(t, a, now)
  }

  /** An entry of another collector is "not found", whatever the action. */
  lemma ForeignEntryNotFound(ts: seq<Transaction>, txnId: nat, collectorId: nat, a: TxnAction, now: int)
    requires forall k :: 0 <= k < |ts| ==> ts[k].id == k
    requires txnId < |ts| && ts[txnId].collectorId != collectorId
    ensures ActionOutcome(ts, txnId, collectorId, a, now) == Failure(Lookup(TransactionNotFound))
  {
  }

  /** `confirm_transaction`. */
  method ConfirmTransaction(db: Database, txnId: nat, collectorId: nat, now: int)
    returns (r: Result<Transaction, TxnError>)
    requires db.Valid()
    modifies db
    ensures db.Valid()
    ensures db.collectors == old(db.collectors) && db.clients == old(db.clients) && db.payouts == old(db.payouts)
    ensures r == ActionOutcome(old(db.transactions), txnId, collectorId, ConfirmAction, now)
    ensures r.Success? ==> txnId < |old(db.transactions)| && db.transactions == old(db.transactions)[txnId := r.value]
    ensures r.Failure? ==> db.transactions == old(db.transactions)
  {
    r := Perform(db, txnId, collectorId, ConfirmAction, now);
  }

  /** `query_transaction`. */
  method QueryTransaction(db: Database, txnId: nat, collectorId: nat, note: string)
    returns (r: Result<Transaction, TxnError>)
    requires db.Valid()
    modifies db
    ensures db.Valid()
    ensures db.collectors == old(db.collectors) && db.clients == old(db.clients) && db.payouts == old(db.payouts)
    ensures r == ActionOutcome(old(db.transactions), txnId, collectorId, QueryAction(note), 0)
    ensures r.Success? ==> txnId < |old(db.transactions)| && db.transactions == old(db.transactions)[txnId := r.value]
    ensures r.Failure? ==> db.transactions == old(db.transactions)
  {
    r := Perform(db, txnId, collectorId, QueryAction(note), 0);
  }

  /** `reject_transaction`. */
  method RejectTransaction(db: Database, txnId: nat, collectorId: nat, note: string)
    returns (r: Result<Transaction, TxnError>)
    requires db.Valid()
    modifies db
    ensures db.Valid()
    ensures db.collectors == old(db.collectors) && db.clients == old(db.clients) && db.payouts == old(db.payouts)
    ensures r == ActionOutcome(old(db.transactions), txnId, collectorId, RejectAction(note), 0)
    ensures r.Success? ==> txnId < |old(db.transactions)| && db.transactions == old(db.transactions)[txnId := r.value]
    ensures r.Failure? ==> db.transactions == old(db.transactions)
  {
    r := Perform(db, txnId, collectorId, RejectAction(note), 0);
  }

  // ---------------------------------------------------------------------
  // Listings

  datatype FeedItem = FeedItem(txn: Transaction, clientName: string)

  datatype Listing<T> = Listing(items: seq<T>, total: nat, skip: nat, limit: nat)

  function SubmittedAt(t: Transaction): int { t.submittedAt }

  function NewestFirst(t: Transaction): int { -t.submittedAt }

  /** `if status_filter:` — no filter, or an empty one, keeps every status. */
  predicate StatusMatches(t: Transaction, statusFilter: Option<string>) {
    statusFilter.None? || statusFilter.value == "" || StatusName(t.status) == statusFilter.value
  }

  function InFeed(collectorId: nat): Transaction -> bool {
    (t: Transaction) => t.collectorId == collectorId && t.status == Pending
  }

  function InCollectorList(collectorId: nat, statusFilter: Option<string>): Transaction -> bool {
    (t: Transaction) => t.collectorId == collectorId && t.status != AutoRejected && StatusMatches(t, statusFilter)
  }

  function InClientHistory(clientId: nat, statusFilter: Option<string>): Transaction -> bool {
    (t: Transaction) => t.clientId == clientId && t.status != AutoRejected && StatusMatches(t, statusFilter)
  }

  /** The rows matching `p`, ordered by `key`, one page of them, and how many
      match in all: the query every listing runs. */
  method QueryPage(ts: seq<Transaction>, p: Transaction -> bool, key: Transaction -> int, skip: nat, limit: nat)
    returns (page: seq<Transaction>, total: nat)
    ensures total == |Select(ts, p)|
    ensures page == Page(SortBy(Select(ts, p), key), skip, limit)
    ensures |page| <= limit && SortedBy(page, key)
    ensures forall k :: 0 <= k < |page| ==> p(page[k]) && page[k] in ts
  {
    var matched: seq<Transaction> := [];
    var i := 0;
    while i < |ts|
      invariant 0 <= i <= |ts|
      invariant matched == Select(ts[..i], p)
    {
      SelectAppend(ts[..i], [ts[i]], p);
      assert ts[..i + 1] == ts[..i] + [ts[i]];
      if p(ts[i]) {
        matched := matched + [ts[i]];
      }
      i := i + 1;
    }
    assert ts[..i] == ts;
    total := |matched|;
    var sorted := SortBy(matched, key);
    SortBySorted(matched, key);
    page := Page(sorted, skip, limit);
    PageSorted(sorted, skip, limit, key);
    PageOfSelection(ts, p, key, skip, limit);
  }

  /** `get_pending_feed`: the collector's PENDING entries, oldest first, with
      the client's name. */
  method GetPendingFeed(db: Database, collectorId: nat, skip: nat, limit: nat)
    returns (r: Listing<FeedItem>)
    requires db.Valid()
    ensures r.total == |Select(db.transactions, InFeed(collectorId))| && r.skip == skip && r.limit == limit
    ensures |r.items| == |Page(SortBy(Select(db.transactions, InFeed(collectorId)), SubmittedAt), skip, limit)|
    ensures forall k :: 0 <= k < |r.items| ==>
      r.items[k].txn == Page(SortBy(Select(db.transactions, InFeed(collectorId)), SubmittedAt), skip, limit)[k]
    ensures forall k :: 0 <= k < |r.items| ==> var t := r.items[k].txn;
      t in db.transactions && t.collectorId == collectorId && t.status == Pending
      && r.items[k].clientName == db.clients[t.clientId].fullName
    ensures forall i, j :: 0 <= i < j < |r.items| ==> r.items[i].txn.submittedAt <= r.items[j].txn.submittedAt
  {
    var page, total := QueryPage(db.transactions, InFeed(collectorId), SubmittedAt, skip, limit);
    var items: seq<FeedItem> := [];
    var i := 0;
    while i < |page|
      invariant 0 <= i <= |page|
      invariant |items| == i
      invariant forall k :: 0 <= k < i ==> items[k].txn == page[k] && items[k].clientName == db.clients[page[k].clientId].fullName
    {
      var t := page[i];
      var m :| 0 <= m < |db.transactions| && db.transactions[m] == t;
      items := items + [FeedItem(t, db.clients[t.clientId].fullName)];
      i := i + 1;
    }
    r := Listing(items, total, skip, limit);
  }

  /** `get_collector_transactions`: the collector's entries except
      AUTO_REJECTED ones, optionally of one status, newest first. */
  method GetCollectorTransactions(db: Database, collectorId: nat, statusFilter: Option<string>, skip: nat, limit: nat)
    returns (r: Listing<FeedItem>)
    requires db.Valid()
    ensures r.total == |Select(db.transactions, InCollectorList(collectorId, statusFilter))|
    ensures r.skip == skip && r.limit == limit && |r.items| <= limit
    ensures |r.items| == |Page(SortBy(Select(db.transactions, InCollectorList(collectorId, statusFilter)), NewestFirst), skip, limit)|
    ensures forall k :: 0 <= k < |r.items| ==>
      r.items[k].txn == Page(SortBy(Select(db.transactions, InCollectorList(collectorId, statusFilter)), NewestFirst), skip, limit)[k]
    ensures forall k :: 0 <= k < |r.items| ==> var t := r.items[k].txn;
      t in db.transactions && t.collectorId == collectorId && t.status != AutoRejected
      && StatusMatches(t, statusFilter) && r.items[k].clientName == db.clients[t.clientId].fullName
    ensures forall i, j :: 0 <= i < j < |r.items| ==> r.items[i].txn.submittedAt >= r.items[j].txn.submittedAt
  {
    var page, total := QueryPage(db.transactions, InCollectorList(collectorId, statusFilter), NewestFirst, skip, limit);
    var items: seq<FeedItem> := [];
    var i := 0;
    while i < |page|
      invariant 0 <= i <= |page|
      invariant |items| == i
      invariant forall k :: 0 <= k < i ==> items[k].txn == page[k] && items[k].clientName == db.clients[page[k].clientId].fullName
    {
      var t := page[i];
      var m :| 0 <= m < |db.transactions| && db.transactions[m] == t;
      items := items + [FeedItem(t, db.clients[t.clientId].fullName)];
      i := i + 1;
    }
    r := Listing(items, total, skip, limit);
  }

  /** `get_client_history`: the client's entries except AUTO_REJECTED ones,
      optionally of one status, newest first. */
  method GetClientHistory(db: Database, clientId: nat, statusFilter: Option<string>, skip: nat, limit: nat)
    returns (r: Listing<Transaction>)
    requires db.Valid()
    ensures r.total == |Select(db.transactions, InClientHistory(clientId, statusFilter))|
    ensures r.skip == skip && r.limit == limit && |r.items| <= limit
    ensures r.items == Page(SortBy(Select(db.transactions, InClientHistory(clientId, statusFilter)), NewestFirst), skip, limit)
    ensures forall k :: 0 <= k < |r.items| ==> var t := r.items[k];
      t in db.transactions && t.clientId == clientId && t.status != AutoRejected && StatusMatches(t, statusFilter)
    ensures forall i, j :: 0 <= i < j < |r.items| ==> r.items[i].submittedAt >= r.items[j].submittedAt
  {
    var page, total := QueryPage(db.transactions, InClientHistory(clientId, statusFilter), NewestFirst, skip, limit);
    r := Listing(page, total, skip, limit);
  }
}
