/** The `notification_sends` receipt: one lease per (notification, channel, target), with
    counted attempts and outcomes that only ever improve. */
module Sends {
  import opened Common

  const NOTIFICATION_DISPATCH_CLAIM_TTL_MS: int := 5 * 60 * 1000
  const NOTIFICATION_DISPATCH_MAX_ATTEMPTS: nat := 5

  function ClaimsExpireBefore(at: int): int {
    at - NOTIFICATION_DISPATCH_CLAIM_TTL_MS
  }

  datatype FailureReason = CallFailed | Rejected | NotAuthorised | ChannelUnavailable | QueueUnavailable

  predicate IsRetryable(reason: FailureReason) {
    reason.CallFailed? || reason.QueueUnavailable?
  }

  predicate IsConnectionShaped(reason: FailureReason) {
    reason.CallFailed? || reason.NotAuthorised? || reason.ChannelUnavailable?
  }

  datatype QuietReason = NoChannel | Digest

  datatype Outcome =
    | Sent
    | Failed(reason: Option<FailureReason>)
    | Quiet(why: QuietReason)
    | Pending(claimedAt: int)

  datatype Send = Send(outcome: Outcome, attempts: nat)

  predicate Abandoned(send: Send, staleClaimsBefore: int) {
    send.outcome.Pending? && send.outcome.claimedAt < staleClaimsBefore
  }

  /** In an unchanged world only a retryable failure or an abandoned lease is taken, and
      only below the cap. */
  predicate RetryReclaimable(send: Send, staleClaimsBefore: int) {
    && ((send.outcome.Failed? && send.outcome.reason.Some? && IsRetryable(send.outcome.reason.value))
        || Abandoned(send, staleClaimsBefore))
    && send.attempts < NOTIFICATION_DISPATCH_MAX_ATTEMPTS
  }

  /** Once the connection is not failing, what the connection broke may be tried again,
      whatever the attempt count. */
  predicate RescueReclaimable(send: Send, staleClaimsBefore: int) {
    (send.outcome.Failed? && (send.outcome.reason.None? || send.outcome.reason.value.QueueUnavailable?
                              || IsConnectionShaped(send.outcome.reason.value)))
    || Abandoned(send, staleClaimsBefore)
  }

  predicate ClaimGranted(send: Option<Send>, repaired: bool, staleClaimsBefore: int) {
    send.None? || (if repaired then RescueReclaimable(send.value, staleClaimsBefore)
                   else RetryReclaimable(send.value, staleClaimsBefore))
  }

  /** The lease and the attempt count move in one statement. */
  function ClaimSend(send: Option<Send>, repaired: bool, claimedAt: int, staleClaimsBefore: int): Option<Send> {
    if !ClaimGranted(send, repaired, staleClaimsBefore) then send
    else Some(Send(Pending(claimedAt), if send.Some? then send.value.attempts + 1 else 1))
  }

  function Rank(outcome: Outcome): nat {
    match outcome
    case Pending(_) => 0
    case Quiet(_) => 1
    case Failed(_) => 2
    case Sent => 3
  }

  /** Upsert of an outcome; a stored outcome of the same or a higher rank is left alone, and
      the attempt count never moves here. */
  function RecordOutcome(send: Option<Send>, outcome: Outcome): Send {
    match send
    case None => Send(outcome, 1)
    case Some(stored) => if Rank(stored.outcome) < Rank(outcome) then Send(outcome, stored.attempts) else stored
  }

  /** A receipt that closes the notification for every runner. */
  predicate Settles(send: Send) {
    send.outcome.Sent? || (send.outcome.Quiet? && send.outcome.why.Digest?)
  }

  /** A receipt that hides the notification from the rescue sweep: settled, or in flight. */
  predicate HidesFromSweep(send: Send, staleClaimsBefore: int) {
    Settles(send) || (send.outcome.Pending? && send.outcome.claimedAt >= staleClaimsBefore)
  }

  /** Every claim, receipt by receipt. */
  lemma ClaimTable(send: Option<Send>, repaired: bool, at: int)
    ensures ClaimGranted(send, repaired, ClaimsExpireBefore(at)) <==>
            match send
            case None => true
            case Some(Send(outcome, attempts)) =>
              match outcome
              case Sent => false
              case Quiet(_) => false
              case Pending(claimedAt) => claimedAt < at - 5 * 60 * 1000 && (repaired || attempts < 5)
              case Failed(None) => repaired
              case Failed(Some(CallFailed)) => repaired || attempts < 5
              case Failed(Some(QueueUnavailable)) => repaired || attempts < 5
              case Failed(Some(Rejected)) => false
              case Failed(Some(NotAuthorised)) => repaired
              case Failed(Some(ChannelUnavailable)) => repaired
  {
  }

  /** What a claim leaves: the lease at its own instant and one attempt more, or the receipt it
      was refused over. */
  lemma ClaimLeaves(send: Option<Send>, repaired: bool, at: int)
    ensures ClaimSend(send, repaired, at, ClaimsExpireBefore(at)) ==
            if ClaimGranted(send, repaired, ClaimsExpireBefore(at))
            then Some(Send(Pending(at), 1 + match send case None => 0 case Some(prior) => prior.attempts))
            else send
  {
  }

  /** A message Slack refused is never claimed again, by anyone, at any time. */
  lemma RejectedIsNeverClaimed(attempts: nat, repaired: bool, at: int)
    ensures var send := Some(Send(Failed(Some(Rejected)), attempts));
            ClaimSend(send, repaired, at, ClaimsExpireBefore(at)) == send
            && !ClaimGranted(send, repaired, ClaimsExpireBefore(at))
  {
  }

  /** An outcome is stored over a live lease and over anything it improves on, and never moves
      the attempt count: sent over all but sent, failed over a lease or quiet, quiet over a
      lease. */
  lemma OutcomeTable(stored: Send, outcome: Outcome)
    requires !outcome.Pending?
    ensures RecordOutcome(None, outcome) == Send(outcome, 1)
    ensures RecordOutcome(Some(stored), outcome).attempts == stored.attempts
    ensures RecordOutcome(Some(stored), outcome).outcome ==
            if stored.outcome.Pending? || (outcome.Sent? && !stored.outcome.Sent?) || (outcome.Failed? && stored.outcome.Quiet?)
            then outcome else stored.outcome
  {
  }

  /** The sweep passes over a notification sent, left to the digest, or in flight for less than
      five minutes. */
  lemma HidesIff(send: Send, at: int)
    ensures HidesFromSweep(send, ClaimsExpireBefore(at)) <==>
            match send.outcome
            case Sent => true
            case Quiet(why) => why == Digest
            case Failed(_) => false
            case Pending(claimedAt) => claimedAt >= at - 5 * 60 * 1000
  {
  }

  /** `sent` is final for the claim and for every later outcome. */
  lemma SentIsFinal(send: Send, repaired: bool, at: int, outcome: Outcome)
    requires send.outcome.Sent?
    ensures ClaimSend(Some(send), repaired, at, ClaimsExpireBefore(at)) == Some(send)
    ensures RecordOutcome(Some(send), outcome) == send
  {
  }

  /** What a sweep's job is good for, at the sweep's own instant: a receipt it can see is
      claimed exactly unless it is a refused message, a quiet receipt, or (while the
      connection is failing) a failure that cannot be retried or has spent its attempts. */
  lemma SweepVersusClaim(send: Send, repaired: bool, at: int)
    requires !HidesFromSweep(send, ClaimsExpireBefore(at))
    ensures !ClaimGranted(Some(send), repaired, ClaimsExpireBefore(at)) <==>
            match send.outcome
            case Quiet(_) => true
            case Pending(_) => !repaired && send.attempts >= NOTIFICATION_DISPATCH_MAX_ATTEMPTS
            case Failed(None) => !repaired
            case Failed(Some(reason)) =>
              if repaired then reason.Rejected?
              else !IsRetryable(reason) || send.attempts >= NOTIFICATION_DISPATCH_MAX_ATTEMPTS
            case Sent => false
  {
  }
}
