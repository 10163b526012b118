/** The stored rows of SusuPay (collectors, their clients, the transactions
    clients submit as evidence of a deposit, and payouts) and the database
    holding them.

    Row ids are the rows' positions in their tables: rows are only ever added
    or updated in place, never deleted, so an id once given stays valid.
    Instants are whole seconds on one UTC time line (see `Calendar`), dates
    are day ordinals and money is integer pesewas. */
module Ledger {
  import opened Wrappers

  datatype TxnStatus = Pending | Confirmed | Queried | Rejected | AutoRejected

  datatype SubmissionType = SmsText | Screenshot

  datatype TrustLevel = TrustHigh | TrustMedium | TrustLow | TrustAutoRejected

  datatype Severity = SeverityHigh | SeverityMedium

  /** One entry of a transaction's `validation_flags`: the recipient number is
      not the collector's MoMo number, or the transaction is older than 48
      hours (with its age in whole days). */
  datatype Flag = RecipientPhoneMismatch | DateTooOld(ageDays: int)

  function FlagSeverity(f: Flag): Severity {
    match f
    case RecipientPhoneMismatch => SeverityHigh
    case DateTooOld(_) => SeverityMedium
  }

  datatype PayoutType = Scheduled | Emergency

  datatype PayoutStatus = Requested | Approved | Declined | Completed

  datatype Collector = Collector(
    id: nat,
    fullName: string,
    phone: string,
    momoNumber: Option<string>,
    cycleStartDate: Option<int>,
    payoutIntervalDays: int,
    isActive: bool)

  datatype Client = Client(
    id: nat,
    collectorId: nat,
    fullName: string,
    phone: string,
    dailyAmount: int,
    payoutPosition: Option<int>,
    isActive: bool)

  datatype Transaction = Transaction(
    id: nat,
    collectorId: nat,
    clientId: nat,
    amount: int,
    mtnTxnId: Option<string>,
    submissionType: SubmissionType,
    trustLevel: TrustLevel,
    status: TxnStatus,
    validationFlags: Option<seq<Flag>>,
    rawSmsText: Option<string>,
    screenshotKey: Option<string>,
    collectorNote: Option<string>,
    submittedAt: int,
    confirmedAt: Option<int>)

  datatype Payout = Payout(
    id: nat,
    collectorId: nat,
    clientId: nat,
    amount: int,
    payoutType: PayoutType,
    status: PayoutStatus,
    reason: Option<string>,
    requestedAt: int,
    approvedAt: Option<int>,
    completedAt: Option<int>)

  /** The text stored in the `status` column. */
  function StatusName(s: TxnStatus): string {
    match s
    case Pending => "PENDING"
    case Confirmed => "CONFIRMED"
    case Queried => "QUERIED"
    case Rejected => "REJECTED"
    case AutoRejected => "AUTO_REJECTED"
  }

  /** The text stored in a payout's `status` column. */
  function PayoutStatusName(s: PayoutStatus): string {
    match s
    case Requested => "REQUESTED"
    case Approved => "APPROVED"
    case Declined => "DECLINED"
    case Completed => "COMPLETED"
  }

  // ---------------------------------------------------------------------
  // Table invariants: primary keys, foreign keys and unique indexes

  /** The unique index on `mtn_txn_id` where it is not null: no two
      transactions, of any collectors, share an MTN transaction id. */
  predicate UniqueTxnIds(ts: seq<Transaction>) {
    forall i, j :: 0 <= i < |ts| && 0 <= j < |ts| && i != j && ts[i].mtnTxnId.Some? ==> ts[i].mtnTxnId != ts[j].mtnTxnId
  }

  /** Some stored transaction carries the MTN id `id`. */
  predicate IdTaken(ts: seq<Transaction>, id: string) {
    exists k :: 0 <= k < |ts| && ts[k].mtnTxnId == Some(id)
  }

  /** The unique constraint on (collector_id, phone) of clients. */
  predicate UniqueClientPhones(cs: seq<Client>) {
    forall i, j :: 0 <= i < |cs| && 0 <= j < |cs| && i != j && cs[i].collectorId == cs[j].collectorId ==> cs[i].phone != cs[j].phone
  }

  /** The unique index on (collector_id, payout_position) where the position
      is not null. */
  predicate UniquePositions(cs: seq<Client>) {
    forall i, j :: (0 <= i < |cs| && 0 <= j < |cs| && i != j && cs[i].collectorId == cs[j].collectorId
                    && cs[i].payoutPosition.Some?) ==> cs[i].payoutPosition != cs[j].payoutPosition
  }

  predicate CollectorsNumbered(cs: seq<Collector>) {
    forall k :: 0 <= k < |cs| ==> cs[k].id == k
  }

  predicate ClientsLinked(cs: seq<Client>, collectorCount: nat) {
    forall k :: 0 <= k < |cs| ==> cs[k].id == k && cs[k].collectorId < collectorCount
  }

  /** Every transaction names an existing client, and the client's collector. */
  predicate TransactionLinked(t: Transaction, clients: seq<Client>) {
    t.clientId < |clients| && clients[t.clientId].collectorId == t.collectorId
  }

  predicate TransactionsLinked(ts: seq<Transaction>, clients: seq<Client>) {
    forall k :: 0 <= k < |ts| ==> ts[k].id == k && TransactionLinked(ts[k], clients)
  }

  predicate PayoutLinked(p: Payout, clients: seq<Client>) {
    p.clientId < |clients| && clients[p.clientId].collectorId == p.collectorId
  }

  predicate PayoutsLinked(ps: seq<Payout>, clients: seq<Client>) {
    forall k :: 0 <= k < |ps| ==> ps[k].id == k && PayoutLinked(ps[k], clients)
  }

  predicate ConsistentTables(collectors: seq<Collector>, clients: seq<Client>,
                             transactions: seq<Transaction>, payouts: seq<Payout>) {
    CollectorsNumbered(collectors)
    && ClientsLinked(clients, |collectors|)
    && TransactionsLinked(transactions, clients)
    && PayoutsLinked(payouts, clients)
    && UniqueTxnIds(transactions)
    && UniqueClientPhones(clients)
    && UniquePositions(clients)
  }

  class Database {
    var collectors: seq<Collector>
    var clients: seq<Client>
    var transactions: seq<Transaction>
    var payouts: seq<Payout>

    ghost predicate Valid()
      reads this
    {
      ConsistentTables(collectors, clients, transactions, payouts)
    }

    constructor()
      ensures Valid()
      ensures collectors == [] && clients == [] && transactions == [] && payouts == []
    {
      collectors := [];
      clients := [];
      transactions := [];
      payouts := [];
    }
  }

  // ---------------------------------------------------------------------
  // Ownership lookups: a row is found only through its own collector

  datatype LookupError = ClientNotFound | CollectorNotFound | TransactionNotFound | PayoutNotFound

  /** `_get_client_for_collector`: the client with this id, if it belongs to
      this collector. */
  function ClientForCollector(clients: seq<Client>, clientId: nat, collectorId: nat): (r: Result<Client, LookupError>)
    requires forall k :: 0 <= k < |clients| ==> clients[k].id == k
    ensures r.Success? <==> (exists k :: 0 <= k < |clients| && clients[k].id == clientId && clients[k].collectorId == collectorId)
    ensures r.Success? ==> r.value.id == clientId && r.value.collectorId == collectorId && r.value in clients
    ensures r.Failure? ==> r.error == ClientNotFound
  {
    if clientId < |clients| && clients[clientId].collectorId == collectorId then Success(clients[clientId])
    else Failure(ClientNotFound)
  }

  /** `_get_transaction_for_collector`. */
  function TransactionForCollector(ts: seq<Transaction>, txnId: nat, collectorId: nat): (r: Result<Transaction, LookupError>)
    requires forall k :: 0 <= k < |ts| ==> ts[k].id == k
    ensures r.Success? <==> (exists k :: 0 <= k < |ts| && ts[k].id == txnId && ts[k].collectorId == collectorId)
    ensures r.Success? ==> r.value.id == txnId && r.value.collectorId == collectorId && txnId < |ts| && ts[txnId] == r.value
    ensures r.Failure? ==> r.error == TransactionNotFound
  {
    if txnId < |ts| && ts[txnId].collectorId == collectorId then Success(ts[txnId])
    else Failure(TransactionNotFound)
  }

  /** `_get_payout_for_collector`. */
  function PayoutForCollector(ps: seq<Payout>, payoutId: nat, collectorId: nat): (r: Result<Payout, LookupError>)
    requires forall k :: 0 <= k < |ps| ==> ps[k].id == k
    ensures r.Success? <==> (exists k :: 0 <= k < |ps| && ps[k].id == payoutId && ps[k].collectorId == collectorId)
    ensures r.Success? ==> r.value.id == payoutId && r.value.collectorId == collectorId && payoutId < |ps| && ps[payoutId] == r.value
    ensures r.Failure? ==> r.error == PayoutNotFound
  {
    if payoutId < |ps| && ps[payoutId].collectorId == collectorId then Success(ps[payoutId])
    else Failure(PayoutNotFound)
  }

  /** A transaction found for one collector is never found for another: the
      lookup isolates tenants. */
  lemma TenantIsolation(ts: seq<Transaction>, txnId: nat, c1: nat, c2: nat)
    requires forall k :: 0 <= k < |ts| ==> ts[k].id == k
    requires TransactionForCollector(ts, txnId, c1).Success? && TransactionForCollector(ts, txnId, c2).Success?
    ensures c1 == c2
  {
  }

  // ---------------------------------------------------------------------
  // Invariant maintenance

  /** Adding a transaction with a fresh (or no) MTN id keeps ids unique. */
  lemma AppendKeepsTxnIdsUnique(ts: seq<Transaction>, t: Transaction)
    requires UniqueTxnIds(ts)
    requires t.mtnTxnId.Some? ==> !IdTaken(ts, t.mtnTxnId.value)
    ensures UniqueTxnIds(ts + [t])
  {
    var us := ts + [t];
    forall i, j | 0 <= i < |us| && 0 <= j < |us| && i != j && us[i].mtnTxnId.Some?
      ensures us[i].mtnTxnId != us[j].mtnTxnId
    {
      if i == |ts| {
        assert us[j] == ts[j];
      } else if j == |ts| {
        assert us[i] == ts[i];
      }
    }
  }

  /** Appending a linked transaction with the next id and a fresh (or no) MTN
      id keeps the table invariants. */
  lemma AppendKeepsConsistent(collectors: seq<Collector>, clients: seq<Client>, ts: seq<Transaction>,
                              ps: seq<Payout>, t: Transaction)
    requires ConsistentTables(collectors, clients, ts, ps)
    requires t.id == |ts| && TransactionLinked(t, clients)
    requires t.mtnTxnId.Some? ==> !IdTaken(ts, t.mtnTxnId.value)
    ensures ConsistentTables(collectors, clients, ts + [t], ps)
  {
    AppendKeepsTxnIdsUnique(ts, t);
  }

  /** Rewriting a transaction without touching its ids or links keeps the
      table invariants. */
  lemma UpdateKeepsConsistent(collectors: seq<Collector>, clients: seq<Client>, ts: seq<Transaction>,
                              ps: seq<Payout>, k: nat, t: Transaction)
    requires ConsistentTables(collectors, clients, ts, ps)
    requires k < |ts| && t.id == ts[k].id && t.collectorId == ts[k].collectorId
    requires t.clientId == ts[k].clientId && t.mtnTxnId == ts[k].mtnTxnId
    ensures ConsistentTables(collectors, clients, ts[k := t], ps)
  {
    var us := ts[k := t];
    forall i, j | 0 <= i < |us| && 0 <= j < |us| && i != j && us[i].mtnTxnId.Some?
      ensures us[i].mtnTxnId != us[j].mtnTxnId
    {
      assert us[i].mtnTxnId == ts[i].mtnTxnId && us[j].mtnTxnId == ts[j].mtnTxnId;
    }
  }

  lemma UpdatePayoutKeepsConsistent(collectors: seq<Collector>, clients: seq<Client>, ts: seq<Transaction>,
                                    ps: seq<Payout>, k: nat, p: Payout)
    requires ConsistentTables(collectors, clients, ts, ps)
    requires k < |ps| && p.id == ps[k].id && p.collectorId == ps[k].collectorId && p.clientId == ps[k].clientId
    ensures ConsistentTables(collectors, clients, ts, ps[k := p])
  {
  }
}
