/** The status badge of the frontend (`components/ui/Badge.tsx`): the colour
    shown for a transaction or payout status. */
module Badge {
  import opened Ledger

  datatype BadgeColor = Green | Blue | Amber | Red | Gray

  /** `statusBadgeColor`: settled statuses are green, those awaiting the
      collector blue, a queried entry amber, refusals red and anything else
      gray. */
  function StatusBadgeColor(status: string): (color: BadgeColor)
    ensures color == Gray <==> !IsBackendStatus(status)
  {
    BackendStatusesColoured(status);
    if status == "CONFIRMED" || status == "COMPLETED" || status == "APPROVED" then Green
    else if status == "PENDING" || status == "REQUESTED" then Blue
    else if status == "QUERIED" then Amber
    else if status == "REJECTED" || status == "AUTO_REJECTED" || status == "DECLINED" then Red
    else Gray
  }

  /** A status the backend writes, for a transaction or for a payout. */
  predicate IsBackendStatus(status: string) {
    (exists t: TxnStatus :: StatusName(t) == status) || (exists p: PayoutStatus :: PayoutStatusName(p) == status)
  }

  /** The statuses given a colour are exactly those the backend writes. */
  lemma BackendStatusesColoured(status: string)
    ensures IsBackendStatus(status) <==>
      status in {"CONFIRMED", "COMPLETED", "APPROVED", "PENDING", "REQUESTED", "QUERIED",
                 "REJECTED", "AUTO_REJECTED", "DECLINED"}
  {
    if status == "CONFIRMED" { assert StatusName(Confirmed) == status; }
    if status == "PENDING" { assert StatusName(Pending) == status; }
    if status == "QUERIED" { assert StatusName(Queried) == status; }
    if status == "REJECTED" { assert StatusName(Rejected) == status; }
    if status == "AUTO_REJECTED" { assert StatusName(AutoRejected) == status; }
    if status == "COMPLETED" { assert PayoutStatusName(Completed) == status; }
    if status == "APPROVED" { assert PayoutStatusName(Approved) == status; }
    if status == "REQUESTED" { assert PayoutStatusName(Requested) == status; }
    if status == "DECLINED" { assert PayoutStatusName(Declined) == status; }
  }

  /** The badge of each transaction status. */
  lemma TransactionBadges(t: TxnStatus)
    ensures StatusBadgeColor(StatusName(t)) == Green <==> t == Confirmed
    ensures StatusBadgeColor(StatusName(t)) == Blue <==> t == Pending
    ensures StatusBadgeColor(StatusName(t)) == Amber <==> t == Queried
    ensures StatusBadgeColor(StatusName(t)) == Red <==> t == Rejected || t == AutoRejected
  {
  }

  /** The badge of each payout status. */
  lemma PayoutBadges(p: PayoutStatus)
    ensures StatusBadgeColor(PayoutStatusName(p)) == Green <==> p == Approved || p == Completed
    ensures StatusBadgeColor(PayoutStatusName(p)) == Blue <==> p == Requested
    ensures StatusBadgeColor(PayoutStatusName(p)) == Red <==> p == Declined
    ensures StatusBadgeColor(PayoutStatusName(p)) != Amber
  {
  }
}
