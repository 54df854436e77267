/** The dispatch task (settled guard, claim, render, post, receipt, health edge, retry throw)
    and the rescue sweep that queues it again. */
module DispatchTask {
  import opened Common
  import opened Sends
  import P = DispatchProtocol

  type Target = P.Target

  /** The target a receipt names when there is no channel. */
  const NO_TARGET: Target := ""

  datatype Call =
    | ClaimCall(target: Target, repaired: bool, at: int, write: Write)
    | PostCall(answer: PostAnswer)
    | OutcomeCall(target: Target, outcome: Outcome, write: Write)
    | HealthCall(healthy: bool)

  datatype PosterLookup = LookupThrew | Missing | Found

  /** What the outside world does during one run. */
  datatype Happens = Happens(
    contextFound: bool, notificationFound: bool, channel: Option<Target>, repaired: bool, now: int,
    claimWrite: Write, poster: PosterLookup, renderThrew: bool, answer: PostAnswer, refusal: FailureReason,
    outcomeWrite: Write)

  /** `RetryThrow` is the throw that asks the queue for another attempt. */
  datatype Result = Returned | RetryThrow(reason: FailureReason) | Threw

  function SendAt(sends: map<Target, Send>, target: Target): Option<Send> {
    if target in sends then Some(sends[target]) else None
  }

  function ApplyCall(sends: map<Target, Send>, call: Call): map<Target, Send> {
    match call
    case ClaimCall(target, repaired, at, write) =>
      var claimed := ClaimSend(SendAt(sends, target), repaired, at, ClaimsExpireBefore(at));
      if write.Stored() && claimed.Some? then sends[target := claimed.value] else sends
    case OutcomeCall(target, outcome, write) =>
      if write.Stored() then sends[target := RecordOutcome(SendAt(sends, target), outcome)] else sends
    case _ => sends
  }

  function ApplyCalls(sends: map<Target, Send>, calls: seq<Call>): map<Target, Send> {
    if calls == [] then sends else ApplyCall(ApplyCalls(sends, calls[..|calls| - 1]), calls[|calls| - 1])
  }

  /** The receipts of one notification, and a journal of the calls made for it. */
  class Store {
    var sends: map<Target, Send>
    var journal: seq<Call>

    method Make(call: Call)
      modifies this
      ensures journal == old(journal) + [call] && sends == ApplyCall(old(sends), call)
    {
      sends := ApplyCall(sends, call);
      journal := journal + [call];
    }
  }

  predicate AnySettled(sends: map<Target, Send>) {
    exists t | t in sends :: Settles(sends[t])
  }

  function FailureOf(h: Happens): FailureReason {
    if h.poster.Missing? then NotAuthorised else if h.answer.Refused? then h.refusal else CallFailed
  }

  /** The receipt, and the health edge that follows it when the receipt was stored. */
  function RecordCalls(target: Target, outcome: Outcome, write: Write, edge: Option<bool>): seq<Call> {
    if write.Threw() || edge.None? then [OutcomeCall(target, outcome, write)]
    else [OutcomeCall(target, outcome, write), HealthCall(edge.value)]
  }

  /** Only a failure shaped like the connection moves its health. */
  function EdgeOf(failure: FailureReason): Option<bool> {
    if IsConnectionShaped(failure) then Some(false) else None
  }

  /** The calls a run owes once it holds the lease. */
  function Delivery(target: Target, h: Happens): seq<Call> {
    match h.poster
    case LookupThrew => []
    case Missing => RecordCalls(target, Failed(Some(NotAuthorised)), h.outcomeWrite, Some(false))
    case Found =>
      if h.renderThrew then []
      else if h.answer.Accepted? then [PostCall(h.answer)] + RecordCalls(target, Sent, h.outcomeWrite, Some(true))
      else [PostCall(h.answer)]
           + RecordCalls(target, Failed(Some(FailureOf(h))), h.outcomeWrite, EdgeOf(FailureOf(h)))
  }

  /** Every call of a run that reached its claim. */
  function Script(target: Target, granted: bool, h: Happens): seq<Call> {
    [ClaimCall(target, h.repaired, h.now, h.claimWrite)]
    + (if !granted || h.claimWrite.Threw() then [] else Delivery(target, h))
  }

  method Record(db: Store, target: Target, outcome: Outcome, write: Write, edge: Option<bool>) returns (threw: bool)
    modifies db
    ensures threw == write.Threw()
    ensures db.journal == old(db.journal) + RecordCalls(target, outcome, write, edge)
    ensures db.sends == ApplyCalls(old(db.sends), RecordCalls(target, outcome, write, edge))
  {
    ghost var sends0, calls := db.sends, RecordCalls(target, outcome, write, edge);
    db.Make(OutcomeCall(target, outcome, write));
    CallsSoFar(sends0, calls, 0);
    threw := write.Threw();
    if !threw && edge.Some? {
      db.Make(HealthCall(edge.value));
      CallsSoFar(sends0, calls, 1);
    }
  }

  /** Post, then record what became of it. */
  method PostAndRecord(db: Store, target: Target, outcome: Outcome, edge: Option<bool>, h: Happens) returns (threw: bool)
    modifies db
    ensures threw == h.outcomeWrite.Threw()
    ensures var calls := [PostCall(h.answer)] + RecordCalls(target, outcome, h.outcomeWrite, edge);
            db.journal == old(db.journal) + calls && db.sends == ApplyCalls(old(db.sends), calls)
  {
    ghost var sends0 := db.sends;
    db.Make(PostCall(h.answer));
    threw := Record(db, target, outcome, h.outcomeWrite, edge);
    FirstCall(sends0, PostCall(h.answer), RecordCalls(target, outcome, h.outcomeWrite, edge));
  }

  /** Everything a run does from its granted claim on. */
  method Deliver(db: Store, target: Target, attempts: nat, h: Happens) returns (result: Result)
    modifies db
    ensures db.journal == old(db.journal) + Delivery(target, h)
    ensures db.sends == ApplyCalls(old(db.sends), Delivery(target, h))
    ensures result.RetryThrow? <==>
            Delivery(target, h) != [] && !h.outcomeWrite.Threw() && h.poster.Found? && !h.answer.Accepted?
            && P.OwedRetry(FailureOf(h), attempts)
    ensures result.RetryThrow? ==> result.reason == FailureOf(h)
    ensures result.Threw? <==> Delivery(target, h) == [] || h.outcomeWrite.Threw()
  {
    if h.poster.LookupThrew? { return Threw; }
    if h.poster.Missing? {
      var threw := Record(db, target, Failed(Some(NotAuthorised)), h.outcomeWrite, Some(false));
      return if threw then Threw else Returned;
    }

    if h.renderThrew { return Threw; }
    if !h.answer.Accepted? {
      var failure := FailureOf(h);
      var threw := PostAndRecord(db, target, Failed(Some(failure)), EdgeOf(failure), h);
      if threw { return Threw; }
      return if P.OwedRetry(failure, attempts) then RetryThrow(failure) else Returned;
    }

    var threw := PostAndRecord(db, target, Sent, Some(true), h);
    return if threw then Threw else Returned;
  }

  /** The target a run claims or, without a channel, leaves its quiet receipt on. */
  function TargetOf(h: Happens): Target {
    if h.channel.Some? then h.channel.value else NO_TARGET
  }

  function Granted(sends: map<Target, Send>, h: Happens): bool {
    ClaimGranted(SendAt(sends, TargetOf(h)), h.repaired, ClaimsExpireBefore(h.now))
  }

  /** Every call of one run: the settled guard first, then the quiet receipt or the script. */
  function CallsOf(sends: map<Target, Send>, h: Happens): seq<Call> {
    if !h.contextFound || !h.notificationFound || AnySettled(sends) then []
    else if h.channel.None? then [OutcomeCall(NO_TARGET, Quiet(NoChannel), h.outcomeWrite)]
    else Script(TargetOf(h), Granted(sends, h), h)
  }

  /** The attempt number a granted claim hands out. */
  function NextAttempt(sends: map<Target, Send>, h: Happens): nat {
    if TargetOf(h) in sends then sends[TargetOf(h)].attempts + 1 else 1
  }

  /** From the claim on. */
  method ClaimAndDeliver(db: Store, target: Target, h: Happens) returns (result: Result)
    requires target == TargetOf(h)
    modifies db
    ensures var calls := Script(target, Granted(old(db.sends), h), h);
            && db.journal == old(db.journal) + calls && db.sends == ApplyCalls(old(db.sends), calls)
            && (result.RetryThrow? <==>
                |calls| > 1 && !h.outcomeWrite.Threw() && h.poster.Found? && !h.answer.Accepted?
                && P.OwedRetry(FailureOf(h), NextAttempt(old(db.sends), h)))
            && (result.RetryThrow? ==> result.reason == FailureOf(h))
            && (|calls| > 1 ==> (result.Threw? <==> h.outcomeWrite.Threw()))
            && (|calls| <= 1 ==> (result.Threw? <==> h.claimWrite.Threw() || Granted(old(db.sends), h)))
  {
    ghost var sends0 := db.sends;
    var granted := Granted(db.sends, h);
    ghost var claim := ClaimCall(target, h.repaired, h.now, h.claimWrite);
    db.Make(ClaimCall(target, h.repaired, h.now, h.claimWrite));
    FirstCall(sends0, claim, if !granted || h.claimWrite.Threw() then [] else Delivery(target, h));
    if h.claimWrite.Threw() { return Threw; }
    if !granted { return Returned; }
    result := Deliver(db, target, db.sends[target].attempts, h);
  }

  /** The poster was found, the text rendered, and the post threw or was refused for a reason
      another attempt may cure. */
  predicate CallMayBeRetried(h: Happens) {
    && h.poster == Found && !h.renderThrew
    && (h.answer == ThrewUnsent || h.answer == ThrewSent
        || (h.answer == Refused && (h.refusal == CallFailed || h.refusal == QueueUnavailable)))
  }

  /** No receipt closes the notification: none is sent, none was left to the digest. */
  ghost predicate StillOwed(sends: map<Target, Send>) {
    forall t | t in sends :: sends[t].outcome != Sent && sends[t].outcome != Quiet(Digest)
  }

  /** A run posts and records, rather than stop at a guard, at its claim or without a channel. */
  ghost predicate Claims(sends: map<Target, Send>, h: Happens) {
    && h.contextFound && h.notificationFound && StillOwed(sends) && h.channel.Some?
    && ClaimGranted(SendAt(sends, h.channel.value), h.repaired, ClaimsExpireBefore(h.now)) && h.claimWrite == Landed
  }

  /** A run throws for a retry exactly when it claimed, its call may be retried, the failed
      receipt was stored with no throw, and its attempt is below five. */
  lemma RetryIff(sends: map<Target, Send>, h: Happens)
    ensures Claims(sends, h) && CallMayBeRetried(h) && !h.outcomeWrite.Threw() && NextAttempt(sends, h) < 5 <==>
            && |CallsOf(sends, h)| > 1 && !h.outcomeWrite.Threw() && h.poster.Found? && !h.answer.Accepted?
            && P.OwedRetry(FailureOf(h), NextAttempt(sends, h))
  {
    assert AnySettled(sends) <==> !StillOwed(sends);
  }

  method RunNotificationDispatch(db: Store, h: Happens) returns (result: Result)
    modifies db
    ensures result.RetryThrow? <==>
            Claims(old(db.sends), h) && CallMayBeRetried(h) && !h.outcomeWrite.Threw() && NextAttempt(old(db.sends), h) < 5
    ensures result.Threw? <==>
            || (Claims(old(db.sends), h) && (h.poster == LookupThrew || (h.poster == Found && h.renderThrew) || h.outcomeWrite.Threw()))
            || (CallsOf(old(db.sends), h) != [] && if h.channel.Some? then h.claimWrite.Threw() else h.outcomeWrite.Threw())
    ensures db.journal == old(db.journal) + CallsOf(old(db.sends), h)
    ensures db.sends == ApplyCalls(old(db.sends), CallsOf(old(db.sends), h))
    ensures var calls := CallsOf(old(db.sends), h);
            && (result.RetryThrow? <==>
                |calls| > 1 && !h.outcomeWrite.Threw() && h.poster.Found? && !h.answer.Accepted?
                && P.OwedRetry(FailureOf(h), NextAttempt(old(db.sends), h)))
            && (result.RetryThrow? ==> result.reason == FailureOf(h))
            && (|calls| > 1 ==> (result.Threw? <==> h.outcomeWrite.Threw()))
            && (calls == [] ==> result.Returned?)
  {
    RetryIff(db.sends, h);
    CallsSayWhy(db.sends, h);
    if !h.contextFound { return Returned; }
    if !h.notificationFound { return Returned; }
    if AnySettled(db.sends) { return Returned; }

    if h.channel.None? {
      var threw := Record(db, NO_TARGET, Quiet(NoChannel), h.outcomeWrite, None);
      return if threw then Threw else Returned;
    }

    result := ClaimAndDeliver(db, h.channel.value, h);
  }

  /** What a run puts on record, call by call. Without a channel it leaves one quiet receipt. A
      claim is made at its own instant; a missing poster is recorded as a failed authorisation; an
      accepted post as sent; a refused one with its reason, and a thrown one as a failed call. The
      health of the connection follows a stored receipt: up after an accepted post, down after a
      failure of the connection's own and after no other. */
  lemma CallsSayWhy(sends: map<Target, Send>, h: Happens)
    ensures var calls := CallsOf(sends, h);
            var failure := if h.poster == Missing then NotAuthorised else if h.answer == Refused then h.refusal else CallFailed;
            var sent := h.poster == Found && h.answer == Accepted;
            var shaped := failure == CallFailed || failure == NotAuthorised || failure == ChannelUnavailable;
            && (calls == [] <==> !h.contextFound || !h.notificationFound || !StillOwed(sends))
            && (calls != [] && h.channel.None? ==> calls == [OutcomeCall(NO_TARGET, Quiet(NoChannel), h.outcomeWrite)])
            && (calls != [] && h.channel.Some? ==> calls[0] == ClaimCall(h.channel.value, h.repaired, h.now, h.claimWrite))
            && (forall i | 0 < i < |calls| ::
                  match calls[i]
                  case ClaimCall(_, _, _, _) => false
                  case PostCall(answer) => i == 1 && answer == h.answer && h.poster == Found && !h.renderThrew
                  case OutcomeCall(t, outcome, write) =>
                    && Some(t) == h.channel && write == h.outcomeWrite && i == (if h.poster == Found then 2 else 1)
                    && outcome == if sent then Sent else Failed(Some(failure))
                  case HealthCall(healthy) => i == |calls| - 1 && !h.outcomeWrite.Threw() && healthy == sent && (sent || shaped))
            && (|calls| > 1 <==> Claims(sends, h) && h.poster != LookupThrew && (h.poster == Found ==> !h.renderThrew))
            && (|calls| > 1 ==>
                  |calls| == 2 + (if h.poster == Found then 1 else 0) + (if !h.outcomeWrite.Threw() && (sent || shaped) then 1 else 0))
  {
    assert AnySettled(sends) <==> !StillOwed(sends);
  }

  /** The first call of a list applies first. */
  lemma {:induction false} FirstCall(sends: map<Target, Send>, call: Call, rest: seq<Call>)
    ensures ApplyCalls(sends, [call] + rest) == ApplyCalls(ApplyCall(sends, call), rest)
  {
    if rest == [] {
      assert [call] + rest == [call] && [call][..0] == [];
    } else {
      FirstCall(sends, call, rest[..|rest| - 1]);
      assert ([call] + rest)[..|rest|] == [call] + rest[..|rest| - 1];
    }
  }

  lemma CallsSoFar(sends: map<Target, Send>, calls: seq<Call>, n: nat)
    requires n < |calls|
    ensures ApplyCalls(sends, calls[..n + 1]) == ApplyCall(ApplyCalls(sends, calls[..n]), calls[n])
    ensures n + 1 == |calls| ==> calls[..n + 1] == calls
    ensures ApplyCalls(sends, calls[..0]) == sends
  {
    assert calls[..n + 1][..n] == calls[..n];
  }

  /** A run that posts does so once, straight after its claim, and its very next call is the
      one outcome it records, before it returns or throws; nothing is posted without a
      granted claim. A run that claimed and recorded no outcome never reached the channel. */
  lemma OneOutcomePerPost(target: Target, granted: bool, h: Happens)
    ensures var calls := Script(target, granted, h);
            && (forall i | 0 <= i < |calls| && calls[i].PostCall? ::
                  i == 1 && granted && !h.claimWrite.Threw() && |calls| > 2
                  && calls[2].OutcomeCall? && calls[2].target == target
                  && (calls[2].outcome.Sent? <==> h.answer.Accepted?))
            && (forall i, j | 0 <= i < j < |calls| :: !(calls[i].OutcomeCall? && calls[j].OutcomeCall?))
            && (|calls| > 1 ==> exists i | 0 <= i < |calls| :: calls[i].OutcomeCall? && calls[i].target == target)
  {
    var calls := Script(target, granted, h);
    if |calls| > 1 {
      assert calls[if h.poster.Found? then 2 else 1].OutcomeCall?;
    }
  }

  // ------------------------------------------------------------------ rescue

  datatype Notification = Notification(createdAt: int, sends: map<Target, Send>)

  const NOTIFICATION_TASK_PREFIX: string := "notification:dispatch:"

  /** The job key of a notification's dispatch job; the queue holds one job per key. */
  function JobKey(id: string): string {
    NOTIFICATION_TASK_PREFIX + id
  }

  class JobQueue {
    var jobs: map<string, string>

    /** `job_key_mode := 'replace'`; a failing enqueue is reported, never thrown. */
    method Enqueue(id: string, accepted: bool)
      modifies this
      ensures jobs == if accepted then old(jobs)[JobKey(id) := id] else old(jobs)
    {
      if accepted { jobs := jobs[JobKey(id) := id]; }
    }
  }

  predicate InSweep(n: Notification, since: int, staleClaimsBefore: int) {
    n.createdAt >= since && forall t | t in n.sends :: !HidesFromSweep(n.sends[t], staleClaimsBefore)
  }

  /** The sweep sees a notification from its horizon on, unless some receipt is sent, left to the
      digest, or in flight for less than five minutes. */
  lemma InSweepIff(n: Notification, since: int, at: int)
    ensures InSweep(n, since, ClaimsExpireBefore(at)) <==>
            n.createdAt >= since
            && forall t | t in n.sends ::
                 match n.sends[t].outcome
                 case Sent => false
                 case Quiet(why) => why != Digest
                 case Failed(_) => true
                 case Pending(claimedAt) => claimedAt < at - 5 * 60 * 1000
  {
    forall t | t in n.sends
      ensures !HidesFromSweep(n.sends[t], ClaimsExpireBefore(at)) <==>
              match n.sends[t].outcome
              case Sent => false
              case Quiet(why) => why != Digest
              case Failed(_) => true
              case Pending(claimedAt) => claimedAt < at - 5 * 60 * 1000
    {
      HidesIff(n.sends[t], at);
    }
  }

  /** The sweep queues one job per unsettled notification it was given, collapsing with any
      job already queued under the same key, and leaves every other job alone. */
  method RunNotificationRescue(queue: JobQueue, unsettled: seq<string>, accepted: seq<bool>)
    requires |accepted| == |unsettled|
    modifies queue
    ensures forall key | key in queue.jobs ::
              (key in old(queue.jobs) && queue.jobs[key] == old(queue.jobs)[key])
              || exists i | 0 <= i < |unsettled| :: accepted[i] && key == JobKey(unsettled[i]) && queue.jobs[key] == unsettled[i]
    ensures forall i | 0 <= i < |unsettled| && accepted[i] :: queue.jobs.Keys >= {JobKey(unsettled[i])} && queue.jobs[JobKey(unsettled[i])] == unsettled[i]
    ensures old(queue.jobs).Keys <= queue.jobs.Keys
    ensures |queue.jobs| <= |old(queue.jobs)| + |unsettled|
  {
    for n := 0 to |unsettled|
      invariant old(queue.jobs).Keys <= queue.jobs.Keys
      invariant |queue.jobs| <= |old(queue.jobs)| + n
      invariant forall key | key in queue.jobs ::
                  (key in old(queue.jobs) && queue.jobs[key] == old(queue.jobs)[key])
                  || exists i | 0 <= i < n :: accepted[i] && key == JobKey(unsettled[i]) && queue.jobs[key] == unsettled[i]
      invariant forall i | 0 <= i < n && accepted[i] ::
                  JobKey(unsettled[i]) in queue.jobs && queue.jobs[JobKey(unsettled[i])] == unsettled[i]
    {
      forall i | 0 <= i < n && JobKey(unsettled[i]) == JobKey(unsettled[n]) ensures unsettled[i] == unsettled[n] {
        JobKeyInjective(unsettled[i], unsettled[n]);
      }
      queue.Enqueue(unsettled[n], accepted[n]);
    }
  }

  lemma JobKeyInjective(a: string, b: string)
    requires JobKey(a) == JobKey(b)
    ensures a == b
  {
    assert a == JobKey(a)[|NOTIFICATION_TASK_PREFIX|..];
    assert b == JobKey(b)[|NOTIFICATION_TASK_PREFIX|..];
  }

  /** The job of a swept notification passes the settled guard and, on a connection that is not
      failing, delivers to whatever channel the connection names by now, unless the receipt
      there is quiet or a message Slack refused. */
  lemma SweptIsClaimed(n: Notification, target: Target, since: int, at: int)
    requires InSweep(n, since, ClaimsExpireBefore(at))
    ensures !AnySettled(n.sends)
    ensures ClaimGranted(SendAt(n.sends, target), true, ClaimsExpireBefore(at)) <==>
            target in n.sends ==>
              !n.sends[target].outcome.Quiet? && n.sends[target].outcome != Failed(Some(Rejected))
  {
    if target in n.sends {
      SweepVersusClaim(n.sends[target], true, at);
    }
  }
}
