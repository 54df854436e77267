/** The `deliveries` row: one lease per (finding, channel), its three writes, and the
    three readers of the lease (the claim, the lane source and the channel page). */
module Deliveries {
  import opened Common

  const DELIVERY_TICK_INTERVAL_MS: int := 15 * 60 * 1000
  const DELIVERY_CLAIM_TTL_MS: int := 2 * DELIVERY_TICK_INTERVAL_MS

  function ClaimsExpireBefore(at: int): int {
    at - DELIVERY_CLAIM_TTL_MS
  }

  /** The closed vocabulary a failure reason is composed from; the page reads it back. */
  datatype Reason = CouldNotPost | PostFailure(code: nat) | ResidualPii(kind: nat)

  datatype Row =
    | Pending(projectId: string, claimedAt: int, attempts: nat)
    | Posted(projectId: string, claimedAt: int, attempts: nat, postedAt: Option<int>)
    | Failed(projectId: string, claimedAt: int, attempts: nat, reason: Reason)

  /** The conflict predicate of the claim statement. */
  predicate Reclaimable(row: Row, staleClaimsBefore: int) {
    row.Failed? || (row.Pending? && row.claimedAt < staleClaimsBefore)
  }

  predicate ClaimGranted(row: Option<Row>, staleClaimsBefore: int) {
    row.None? || Reclaimable(row.value, staleClaimsBefore)
  }

  /** INSERT ... ON CONFLICT DO UPDATE ... WHERE reclaimable, for one key. */
  function ClaimRow(row: Option<Row>, projectId: string, claimedAt: int, staleClaimsBefore: int): Option<Row> {
    match row
    case None => Some(Pending(projectId, claimedAt, 1))
    case Some(r) =>
      if Reclaimable(r, staleClaimsBefore) then Some(Pending(r.projectId, claimedAt, r.attempts + 1)) else row
  }

  /** An update by key: a missing row is left missing, and a first `postedAt` is kept. */
  function MarkPostedRow(row: Option<Row>, at: int): Option<Row> {
    match row
    case None => None
    case Some(r) =>
      var first := if r.Posted? && r.postedAt.Some? then r.postedAt else Some(at);
      Some(Posted(r.projectId, r.claimedAt, r.attempts, first))
  }

  /** An update by key that refuses to touch a row already `posted`. */
  function MarkFailedRow(row: Option<Row>, reason: Reason): Option<Row> {
    match row
    case None => None
    case Some(r) => if r.Posted? then row else Some(Failed(r.projectId, r.claimedAt, r.attempts, reason))
  }

  /** The lane source's reading of a lease. */
  predicate IsSpokenFor(row: Option<Row>, staleClaimsBefore: int) {
    match row
    case None => false
    case Some(Failed(_, _, _, _)) => false
    case Some(Pending(_, claimedAt, _)) => claimedAt >= staleClaimsBefore
    case Some(Posted(_, _, _, _)) => true
  }

  predicate WasPostedInWindow(row: Option<Row>, windowStart: int, at: int) {
    row.Some? && row.value.Posted? && row.value.postedAt.Some? && windowStart <= row.value.postedAt.value <= at
  }

  /** A row the tick counts as an open delivery of its project. */
  predicate IsOpen(row: Row, projectId: string, staleClaimsBefore: int) {
    row.Pending? && row.projectId == projectId && row.claimedAt >= staleClaimsBefore
  }

  datatype DeliveryState = PostedState | PostedRetried | Posting | Stalled | FailedState | HeldBack

  /** The channel page's reading of a lease. */
  function DeriveDeliveryState(row: Row, staleClaimsBefore: int): DeliveryState {
    match row
    case Pending(_, claimedAt, _) => if claimedAt < staleClaimsBefore then Stalled else Posting
    case Failed(_, _, _, reason) => if reason.ResidualPii? then HeldBack else FailedState
    case Posted(_, _, attempts, _) => if attempts > 1 then PostedRetried else PostedState
  }

  /** The lane source offers a finding exactly when the claim statement would take it, and
      the open list, the claim and the page split pending rows the same way. */
  lemma ReadersAgree(row: Option<Row>, projectId: string, at: int)
    ensures IsSpokenFor(row, ClaimsExpireBefore(at)) <==> !ClaimGranted(row, ClaimsExpireBefore(at))
    ensures row.Some? && row.value.Pending? ==>
              var state := DeriveDeliveryState(row.value, ClaimsExpireBefore(at));
              && (state == Stalled <==> ClaimGranted(row, ClaimsExpireBefore(at)))
              && (state == Posting <==> IsSpokenFor(row, ClaimsExpireBefore(at)))
              && (IsOpen(row.value, row.value.projectId, ClaimsExpireBefore(at)) <==> state == Posting)
    ensures row.Some? && !row.value.Pending? ==>
              var state := DeriveDeliveryState(row.value, ClaimsExpireBefore(at));
              && state != Posting && state != Stalled
              && (ClaimGranted(row, ClaimsExpireBefore(at)) <==> state == FailedState || state == HeldBack)
  {
    if row.Some? {
      match row.value
      case Pending(_, _, _) =>
      case Posted(_, _, _, _) =>
      case Failed(_, _, _, _) =>
    }
  }

  /** What the three writes leave of a row: a claim stamps its own instant and one attempt more on
      a row that failed or was left behind for half an hour, and keeps its project; a mark keeps
      everything but the status; a posted row keeps its first instant and takes no failure. */
  lemma WritesLeave(row: Row, project: string, at: int, reason: Reason)
    ensures ClaimRow(None, project, at, ClaimsExpireBefore(at)) == Some(Pending(project, at, 1))
    ensures ClaimRow(Some(row), project, at, ClaimsExpireBefore(at)) ==
            Some(if row.Failed? || (row.Pending? && row.claimedAt < at - 30 * 60 * 1000)
                 then Pending(row.projectId, at, row.attempts + 1) else row)
    ensures MarkPostedRow(None, at) == None && MarkFailedRow(None, reason) == None
    ensures match row
            case Posted(p, c, n, Some(first)) => MarkPostedRow(Some(row), at) == Some(row)
            case _ => MarkPostedRow(Some(row), at) == Some(Posted(row.projectId, row.claimedAt, row.attempts, Some(at)))
    ensures MarkFailedRow(Some(row), reason) ==
            Some(if row.Posted? then row else Failed(row.projectId, row.claimedAt, row.attempts, reason))
  {
  }

  /** What the channel page shows of a row. */
  lemma StatesAre(row: Row, at: int)
    ensures var state := DeriveDeliveryState(row, ClaimsExpireBefore(at));
            && (state == Stalled <==> row.Pending? && row.claimedAt < at - 30 * 60 * 1000)
            && (state == Posting <==> row.Pending? && row.claimedAt >= at - 30 * 60 * 1000)
            && (state == HeldBack <==> row.Failed? && row.reason.ResidualPii?)
            && (state == FailedState <==> row.Failed? && !row.reason.ResidualPii?)
            && (state == PostedRetried <==> row.Posted? && row.attempts >= 2)
            && (state == PostedState <==> row.Posted? && row.attempts <= 1)
  {
  }

  /** A row left pending by a dead tick comes back exactly one lease lifetime after the
      instant stamped on it: before that it is spoken for, after it any claim takes it over. */
  lemma AbandonedClaimReturns(row: Row, at: int)
    requires row.Pending?
    ensures ClaimGranted(Some(row), ClaimsExpireBefore(at)) <==> at > row.claimedAt + DELIVERY_CLAIM_TTL_MS
    ensures at > row.claimedAt + DELIVERY_CLAIM_TTL_MS ==>
              var taken := ClaimRow(Some(row), row.projectId, at, ClaimsExpireBefore(at));
              taken == Some(Pending(row.projectId, at, row.attempts + 1))
  {
  }

  /** `posted` is final: no claim and no failure write moves a posted row, and marking it
      posted again keeps the first instant and the attempt count. */
  lemma PostedIsFinal(row: Row, projectId: string, at: int, stale: int, reason: Reason)
    requires row.Posted?
    ensures !ClaimGranted(Some(row), stale)
    ensures ClaimRow(Some(row), projectId, at, stale) == Some(row)
    ensures MarkFailedRow(Some(row), reason) == Some(row)
    ensures row.postedAt.Some? ==> MarkPostedRow(Some(row), at) == Some(row)
  {
  }
}
