/** Client balances: the `client_balances` view and the two reads of it.

    A balance row exists for every active client; its deposits are the sum of
    the client's CONFIRMED transactions, its payouts the sum of the client's
    COMPLETED payouts (each 0 when there are none) and its balance their
    difference.  Nothing else (pending deposits, requested or approved
    payouts) moves a balance. */
module Balance {
  import opened Wrappers
  import opened Ledger
  import opened Sorting

  /** A row of the `client_balances` view. */
  datatype BalanceRow = BalanceRow(
    clientId: nat,
    collectorId: nat,
    fullName: string,
    phone: string,
    totalDeposits: int,
    totalPayouts: int,
    balance: int)

  /** What `get_client_balance` and `get_all_client_balances` return per client. */
  datatype ClientBalance = ClientBalance(
    clientId: nat,
    fullName: string,
    totalDeposits: int,
    totalPayouts: int,
    balance: int)

  function TxnAmount(t: Transaction): int { t.amount }

  function PayoutAmount(p: Payout): int { p.amount }

  function ConfirmedFor(clientId: nat): Transaction -> bool {
    (t: Transaction) => t.clientId == clientId && t.status == Confirmed
  }

  function CompletedFor(clientId: nat): Payout -> bool {
    (p: Payout) => p.clientId == clientId && p.status == Completed
  }

  predicate IsActiveClient(c: Client) { c.isActive }

  /** `COALESCE(SUM(amount), 0)` over the client's CONFIRMED transactions. */
  function TotalDeposits(ts: seq<Transaction>, clientId: nat): int {
    SumOf(Select(ts, ConfirmedFor(clientId)), TxnAmount)
  }

  /** `COALESCE(SUM(amount), 0)` over the client's COMPLETED payouts. */
  function TotalPayouts(ps: seq<Payout>, clientId: nat): int {
    SumOf(Select(ps, CompletedFor(clientId)), PayoutAmount)
  }

  function RowFor(c: Client, ts: seq<Transaction>, ps: seq<Payout>): BalanceRow {
    var d := TotalDeposits(ts, c.id);
    var p := TotalPayouts(ps, c.id);
    BalanceRow(c.id, c.collectorId, c.fullName, c.phone, d, p, d - p)
  }

  /** The view: one row per active client, in table order. */
  function ClientBalances(clients: seq<Client>, ts: seq<Transaction>, ps: seq<Payout>): (rows: seq<BalanceRow>)
    requires forall k :: 0 <= k < |clients| ==> clients[k].id == k
    ensures |rows| == |Select(clients, IsActiveClient)|
    ensures forall k :: 0 <= k < |rows| ==>
      rows[k].clientId < |clients| && clients[rows[k].clientId].isActive
      && rows[k].collectorId == clients[rows[k].clientId].collectorId
      && rows[k].fullName == clients[rows[k].clientId].fullName
      && rows[k].totalDeposits == TotalDeposits(ts, rows[k].clientId)
      && rows[k].totalPayouts == TotalPayouts(ps, rows[k].clientId)
      && rows[k].balance == rows[k].totalDeposits - rows[k].totalPayouts
  {
    var active := Select(clients, IsActiveClient);
    seq(|active|, k requires 0 <= k < |active| => RowFor(active[k], ts, ps))
  }

  /** Every active client has a row in the view, and no inactive one has. */
  lemma ActiveClientsAppear(clients: seq<Client>, ts: seq<Transaction>, ps: seq<Payout>, clientId: nat)
    requires forall k :: 0 <= k < |clients| ==> clients[k].id == k
    ensures (exists k :: 0 <= k < |ClientBalances(clients, ts, ps)| && ClientBalances(clients, ts, ps)[k].clientId == clientId)
            <==> clientId < |clients| && clients[clientId].isActive
  {
    var rows := ClientBalances(clients, ts, ps);
    if clientId < |clients| && clients[clientId].isActive {
      var active := Select(clients, IsActiveClient);
      SelectKeeps(clients, IsActiveClient, clients[clientId]);
      var m :| 0 <= m < |active| && active[m] == clients[clientId];
      assert rows[m].clientId == clientId;
    }
  }

  /** The first row with this client id. */
  function FindRow(rows: seq<BalanceRow>, clientId: nat): (r: Option<BalanceRow>)
    ensures r.Some? ==> r.value in rows && r.value.clientId == clientId
    ensures r.None? <==> forall k :: 0 <= k < |rows| ==> rows[k].clientId != clientId
  {
    if rows == [] then None
    else if rows[0].clientId == clientId then Some(rows[0])
    else
      var r := FindRow(rows[1..], clientId);
      assert forall k :: 1 <= k < |rows| ==> rows[k] == rows[1..][k - 1];
      r
  }

  function Summary(r: BalanceRow): ClientBalance {
    ClientBalance(r.clientId, r.fullName, r.totalDeposits, r.totalPayouts, r.balance)
  }

  /** `get_client_balance`: the client's row of the view, or zeros and an
      empty name when the client is unknown or inactive. */
  function GetClientBalance(clients: seq<Client>, ts: seq<Transaction>, ps: seq<Payout>, clientId: nat): (r: ClientBalance)
    requires forall k :: 0 <= k < |clients| ==> clients[k].id == k
    ensures r.clientId == clientId
    ensures clientId < |clients| && clients[clientId].isActive ==>
      r.fullName == clients[clientId].fullName
      && r.totalDeposits == TotalDeposits(ts, clientId)
      && r.totalPayouts == TotalPayouts(ps, clientId)
      && r.balance == r.totalDeposits - r.totalPayouts
    ensures !(clientId < |clients| && clients[clientId].isActive) ==>
      r == ClientBalance(clientId, "", 0, 0, 0)
  {
    var rows := ClientBalances(clients, ts, ps);
    ActiveClientsAppear(clients, ts, ps, clientId);
    match FindRow(rows, clientId)
    case None => ClientBalance(clientId, "", 0, 0, 0)
    case Some(row) => Summary(row)
  }

  function InCollector(collectorId: nat): BalanceRow -> bool {
    (r: BalanceRow) => r.collectorId == collectorId
  }

  /** `get_all_client_balances`: the view rows of one collector. */
  function GetAllClientBalances(clients: seq<Client>, ts: seq<Transaction>, ps: seq<Payout>, collectorId: nat): (r: seq<ClientBalance>)
    requires forall k :: 0 <= k < |clients| ==> clients[k].id == k
    ensures forall k :: 0 <= k < |r| ==>
      r[k].clientId < |clients| && clients[r[k].clientId].isActive
      && clients[r[k].clientId].collectorId == collectorId
      && r[k] == GetClientBalance(clients, ts, ps, r[k].clientId)
  {
    var rows := Select(ClientBalances(clients, ts, ps), InCollector(collectorId));
    seq(|rows|, k requires 0 <= k < |rows| => Summary(rows[k]))
  }

  /** Every active client of the collector is listed. */
  lemma AllBalancesComplete(clients: seq<Client>, ts: seq<Transaction>, ps: seq<Payout>, collectorId: nat, clientId: nat)
    requires forall k :: 0 <= k < |clients| ==> clients[k].id == k
    requires clientId < |clients| && clients[clientId].isActive && clients[clientId].collectorId == collectorId
    ensures GetClientBalance(clients, ts, ps, clientId) in GetAllClientBalances(clients, ts, ps, collectorId)
  {
    var view := ClientBalances(clients, ts, ps);
    ActiveClientsAppear(clients, ts, ps, clientId);
    var m :| 0 <= m < |view| && view[m].clientId == clientId;
    SelectKeeps(view, InCollector(collectorId), view[m]);
    var rows := Select(view, InCollector(collectorId));
    var j :| 0 <= j < |rows| && rows[j] == view[m];
    assert GetAllClientBalances(clients, ts, ps, collectorId)[j] == Summary(view[m]);
  }

  // ---------------------------------------------------------------------
  // What moves a balance

  /** A selection none of whose candidates qualify is empty, so its sum is 0. */
  lemma {:induction false} SumOfNoneSelected<T>(xs: seq<T>, p: T -> bool, f: T -> int)
    requires forall k :: 0 <= k < |xs| ==> !p(xs[k])
    ensures SumOf(Select(xs, p), f) == 0
  {
    if xs != [] {
      SumOfNoneSelected(xs[1..], p, f);
    }
  }

  /** A client with no CONFIRMED transaction and no COMPLETED payout has
      deposits, payouts and balance 0. */
  lemma NothingSettledMeansZero(ts: seq<Transaction>, ps: seq<Payout>, clientId: nat)
    requires forall k :: 0 <= k < |ts| ==> !(ts[k].clientId == clientId && ts[k].status == Confirmed)
    requires forall k :: 0 <= k < |ps| ==> !(ps[k].clientId == clientId && ps[k].status == Completed)
    ensures TotalDeposits(ts, clientId) == 0 && TotalPayouts(ps, clientId) == 0
  {
    SumOfNoneSelected(ts, ConfirmedFor(clientId), TxnAmount);
    SumOfNoneSelected(ps, CompletedFor(clientId), PayoutAmount);
  }

  /** A new submission, stored PENDING or AUTO_REJECTED, moves no deposit total. */
  lemma SubmissionKeepsDeposits(ts: seq<Transaction>, t: Transaction, clientId: nat)
    requires t.status != Confirmed
    ensures TotalDeposits(ts + [t], clientId) == TotalDeposits(ts, clientId)
  {
    SumSelectAppend(ts, t, ConfirmedFor(clientId), TxnAmount);
  }

  /** Confirming an entry adds its amount to its client's deposits; a change
      between two unconfirmed states moves nothing. */
  lemma StatusChangeDeposits(ts: seq<Transaction>, k: nat, u: Transaction)
    requires k < |ts| && u.clientId == ts[k].clientId && u.amount == ts[k].amount
    requires ts[k].status != Confirmed
    ensures TotalDeposits(ts[k := u], u.clientId)
         == TotalDeposits(ts, u.clientId) + (if u.status == Confirmed then u.amount else 0)
  {
    SumSelectUpdate(ts, k, u, ConfirmedFor(u.clientId), TxnAmount);
  }

  /** The deposits of other clients do not move when one entry changes. */
  lemma OtherClientsDepositsKept(ts: seq<Transaction>, k: nat, u: Transaction, clientId: nat)
    requires k < |ts| && u.clientId == ts[k].clientId && ts[k].clientId != clientId
    ensures TotalDeposits(ts[k := u], clientId) == TotalDeposits(ts, clientId)
  {
    SumSelectUpdate(ts, k, u, ConfirmedFor(clientId), TxnAmount);
  }

  /** A new payout request is not COMPLETED, so it moves no payout total: the
      balance does not reserve requested amounts. */
  lemma RequestKeepsPayouts(ps: seq<Payout>, p: Payout, clientId: nat)
    requires p.status == Requested
    ensures TotalPayouts(ps + [p], clientId) == TotalPayouts(ps, clientId)
  {
    SumSelectAppend(ps, p, CompletedFor(clientId), PayoutAmount);
  }

  /** Completing a payout adds its amount to its client's payouts; any other
      change of an uncompleted payout moves nothing. */
  lemma StatusChangePayouts(ps: seq<Payout>, k: nat, q: Payout)
    requires k < |ps| && q.clientId == ps[k].clientId && q.amount == ps[k].amount
    requires ps[k].status != Completed
    ensures TotalPayouts(ps[k := q], q.clientId)
         == TotalPayouts(ps, q.clientId) + (if q.status == Completed then q.amount else 0)
  {
    SumSelectUpdate(ps, k, q, CompletedFor(q.clientId), PayoutAmount);
  }
}
