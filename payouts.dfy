/** Payouts (`payout_service.py`): a client asks for money back, the collector
    approves or declines the request, and an approved payout is later marked
    completed.  A request is gated by the client's balance at that moment,
    and only a COMPLETED payout lowers that balance. */
module Payouts {
  import opened Wrappers
  import opened Ledger
  import opened Balance

  datatype PayoutError =
    | Lookup(reason: LookupError)
    | NoAvailableBalance
    | ExceedsBalance(amount: int, available: int)
    | CannotApprove(status: PayoutStatus)
    | CannotDecline(status: PayoutStatus)
    | CannotComplete(status: PayoutStatus)

  /** The balance a request is checked against. */
  function Available(db: Database, clientId: nat): int
    reads db
    requires db.Valid()
  {
    GetClientBalance(db.clients, db.transactions, db.payouts, clientId).balance
  }

  /** The request check: something must be available and the amount may not
      exceed it (asking for exactly the balance is allowed). */
  function RequestCheck(available: int, amount: int): (r: Option<PayoutError>)
    ensures r.None? <==> 0 < available && amount <= available
    ensures available <= 0 ==> r == Some(NoAvailableBalance)
    ensures 0 < available < amount ==> r == Some(ExceedsBalance(amount, available))
  {
    if available <= 0 then Some(NoAvailableBalance)
    else if amount > available then Some(ExceedsBalance(amount, available))
    else None
  }

  /** The row a successful request stores. */
  function RequestedPayout(id: nat, client: Client, amount: int, payoutType: PayoutType,
                           reason: Option<string>, now: int): Payout
  {
    Payout(id, client.collectorId, client.id, amount, payoutType, Requested, reason, now, None, None)
  }

  /** `request_payout`. */
  method RequestPayout(db: Database, client: Client, amount: int, payoutType: PayoutType,
                       reason: Option<string>, now: int)
    returns (r: Result<Payout, PayoutError>)
    requires db.Valid() && client.id < |db.clients| && db.clients[client.id] == client
    modifies db
    ensures db.Valid()
    ensures db.collectors == old(db.collectors) && db.clients == old(db.clients)
    ensures db.transactions == old(db.transactions)
    ensures r.Failure? <==> RequestCheck(old(Available(db, client.id)), amount).Some?
    ensures r.Failure? ==> r.error == RequestCheck(old(Available(db, client.id)), amount).value
                           && db.payouts == old(db.payouts)
    ensures r.Success? ==> r.value == RequestedPayout(|old(db.payouts)|, client, amount, payoutType, reason, now)
                           && db.payouts == old(db.payouts) + [r.value]
  {
    var check := RequestCheck(Available(db, client.id), amount);
    if check.Some? {
      return Failure(check.value);
    }
    var p := RequestedPayout(|db.payouts|, client, amount, payoutType, reason, now);
    db.payouts := db.payouts + [p];
    r := Success(p);
  }

  /** Requests are not reserved: a stored request leaves the balance as it
      was, so a second request passing the same check is accepted too, and
      the two together may exceed the balance. */
  lemma RequestsAreNotReserved(clients: seq<Client>, ts: seq<Transaction>, ps: seq<Payout>,
                               client: Client, amount: int, payoutType: PayoutType,
                               reason: Option<string>, now: int)
    requires forall k :: 0 <= k < |clients| ==> clients[k].id == k
    requires client.id < |clients| && clients[client.id] == client
    requires RequestCheck(GetClientBalance(clients, ts, ps, client.id).balance, amount).None?
    ensures var p := RequestedPayout(|ps|, client, amount, payoutType, reason, now);
      GetClientBalance(clients, ts, ps + [p], client.id).balance == GetClientBalance(clients, ts, ps, client.id).balance
      && RequestCheck(GetClientBalance(clients, ts, ps + [p], client.id).balance, amount).None?
  {
    var p := RequestedPayout(|ps|, client, amount, payoutType, reason, now);
    RequestKeepsPayouts(ps, p, client.id);
  }

  // ---------------------------------------------------------------------
  // Collector actions

  datatype PayoutAction = ApproveAction | DeclineAction(reason: string) | CompleteAction

  /** approve: REQUESTED → APPROVED, stamped; decline: REQUESTED → DECLINED
      with the collector's reason; complete: APPROVED → COMPLETED, stamped;
      anything else is refused with the current status. */
  function PayoutTransition(p: Payout, a: PayoutAction, now: int): (r: Result<Payout, PayoutError>)
    ensures r.Success? ==> SamePayout(p, r.value)
    ensures r.Failure? ==> (r.error.CannotApprove? || r.error.CannotDecline? || r.error.CannotComplete?)
                           && r.error.status == p.status
  {
    match a
    case ApproveAction =>
      if p.status == Requested then Success(p.(status := Approved, approvedAt := Some(now)))
      else Failure(CannotApprove(p.status))
    case DeclineAction(reason) =>
      if p.status == Requested then Success(p.(status := Declined, reason := Some(reason)))
      else Failure(CannotDecline(p.status))
    case CompleteAction =>
      if p.status == Approved then Success(p.(status := Completed, completedAt := Some(now)))
      else Failure(CannotComplete(p.status))
  }

  /** The owner, client, amount, type and request time never change. */
  predicate SamePayout(p: Payout, q: Payout) {
    q.id == p.id && q.collectorId == p.collectorId && q.clientId == p.clientId && q.amount == p.amount
    && q.payoutType == p.payoutType && q.requestedAt == p.requestedAt
  }

  predicate IsSettled(s: PayoutStatus) {
    s == Declined || s == Completed
  }

  /** DECLINED and COMPLETED payouts accept no action. */
  lemma SettledIsFinal(p: Payout, a: PayoutAction, now: int)
    requires IsSettled(p.status)
    ensures PayoutTransition(p, a, now).Failure?
  {
  }

  /** The only moves are REQUESTED→APPROVED, REQUESTED→DECLINED and
      APPROVED→COMPLETED. */
  lemma PayoutTransitionEdges(p: Payout, a: PayoutAction, now: int)
    requires PayoutTransition(p, a, now).Success?
    ensures var q := PayoutTransition(p, a, now).value;
      (p.status == Requested && q.status == Approved && a.ApproveAction? && q.approvedAt == Some(now)
         && q.reason == p.reason)
      || (p.status == Requested && q.status == Declined && a.DeclineAction? && q.reason == Some(a.reason))
      || (p.status == Approved && q.status == Completed && a.CompleteAction? && q.completedAt == Some(now)
         && q.reason == p.reason)
  {
  }

  /** A REQUESTED payout must be approved before it can be completed. */
  lemma CompleteNeedsApproval(p: Payout, now: int)
    requires p.status == Requested
    ensures PayoutTransition(p, CompleteAction, now) == Failure(CannotComplete(Requested))
    ensures PayoutTransition(PayoutTransition(p, ApproveAction, now).value, CompleteAction, now).Success?
  {
  }

  /** The outcome of an action on the payout `payoutId` as seen by `collectorId`. */
  function PayoutOutcome(ps: seq<Payout>, payoutId: nat, collectorId: nat, a: PayoutAction, now: int): Result<Payout, PayoutError>
    requires forall k :: 0 <= k < |ps| ==> ps[k].id == k
  {
    match PayoutForCollector(ps, payoutId, collectorId)
    case Failure(e) => Failure(Lookup(e))
    case Success(p) => PayoutTransition(p, a, now)
  }

  /** A payout of another collector is "not found", whatever the action. */
  lemma ForeignPayoutNotFound(ps: seq<Payout>, payoutId: nat, collectorId: nat, a: PayoutAction, now: int)
    requires forall k :: 0 <= k < |ps| ==> ps[k].id == k
    requires payoutId < |ps| && ps[payoutId].collectorId != collectorId
    ensures PayoutOutcome(ps, payoutId, collectorId, a, now) == Failure(Lookup(PayoutNotFound))
  {
  }

  /** Only completing a payout moves its client's balance, down by the amount. */
  lemma CompletionLowersBalance(clients: seq<Client>, ts: seq<Transaction>, ps: seq<Payout>,
                                payoutId: nat, collectorId: nat, a: PayoutAction, now: int)
    requires forall k :: 0 <= k < |clients| ==> clients[k].id == k
    requires forall k :: 0 <= k < |ps| ==> ps[k].id == k
    requires PayoutOutcome(ps, payoutId, collectorId, a, now).Success?
    ensures var q := PayoutOutcome(ps, payoutId, collectorId, a, now).value;
      TotalPayouts(ps[payoutId := q], q.clientId)
        == TotalPayouts(ps, q.clientId) + (if a.CompleteAction? then q.amount else 0)
  {
    var q := PayoutOutcome(ps, payoutId, collectorId, a, now).value;
    StatusChangePayouts(ps, payoutId, q);
  }

  /** Look the payout up through the collector, apply the action and store
      the result; a lookup failure or a refused action writes nothing. */
  method PerformPayout(db: Database, payoutId: nat, collectorId: nat, a: PayoutAction, now: int)
    returns (r: Result<Payout, PayoutError>)
    requires db.Valid()
    modifies db
    ensures db.Valid()
    ensures db.collectors == old(db.collectors) && db.clients == old(db.clients)
    ensures db.transactions == old(db.transactions)
    ensures r == PayoutOutcome(old(db.payouts), payoutId, collectorId, a, now)
    ensures r.Success? ==> payoutId < |old(db.payouts)| && db.payouts == old(db.payouts)[payoutId := r.value]
    ensures r.Failure? ==> db.payouts == old(db.payouts)
  {
    var found := PayoutForCollector(db.payouts, payoutId, collectorId);
    if found.Failure? {
      return Failure(Lookup(found.error));
    }
    r := PayoutTransition(found.value, a, now);
    if r.Success? {
      UpdatePayoutKeepsConsistent(db.collectors, db.clients, db.transactions, db.payouts, payoutId, r.value);
      db.payouts := db.payouts[payoutId := r.value];
    }
  }

  /** `approve_payout`. */
  method ApprovePayout(db: Database, payoutId: nat, collectorId: nat, now: int)
    returns (r: Result<Payout, PayoutError>)
    requires db.Valid()
    modifies db
    ensures db.Valid()
    ensures db.collectors == old(db.collectors) && db.clients == old(db.clients)
    ensures db.transactions == old(db.transactions)
    ensures r == PayoutOutcome(old(db.payouts), payoutId, collectorId, ApproveAction, now)
    ensures r.Success? ==> payoutId < |old(db.payouts)| && db.payouts == old(db.payouts)[payoutId := r.value]
    ensures r.Failure? ==> db.payouts == old(db.payouts)
  {
    r := PerformPayout(db, payoutId, collectorId, ApproveAction, now);
  }

  /** `decline_payout`. */
  method DeclinePayout(db: Database, payoutId: nat, collectorId: nat, reason: string)
    returns (r: Result<Payout, PayoutError>)
    requires db.Valid()
    modifies db
    ensures db.Valid()
    ensures db.collectors == old(db.collectors) && db.clients == old(db.clients)
    ensures db.transactions == old(db.transactions)
    ensures r == PayoutOutcome(old(db.payouts), payoutId, collectorId, DeclineAction(reason), 0)
    ensures r.Success? ==> payoutId < |old(db.payouts)| && db.payouts == old(db.payouts)[payoutId := r.value]
    ensures r.Failure? ==> db.payouts == old(db.payouts)
  {
    r := PerformPayout(db, payoutId, collectorId, DeclineAction(reason), 0);
  }

  /** `complete_payout`. */
  method CompletePayout(db: Database, payoutId: nat, collectorId: nat, now: int)
    returns (r: Result<Payout, PayoutError>)
    requires db.Valid()
    modifies db
    ensures db.Valid()
    ensures db.collectors == old(db.collectors) && db.clients == old(db.clients)
    ensures db.transactions == old(db.transactions)
    ensures r == PayoutOutcome(old(db.payouts), payoutId, collectorId, CompleteAction, now)
    ensures r.Success? ==> payoutId < |old(db.payouts)| && db.payouts == old(db.payouts)[payoutId := r.value]
    ensures r.Failure? ==> db.payouts == old(db.payouts)
  {
    r := PerformPayout(db, payoutId, collectorId, CompleteAction, now);
  }
}
