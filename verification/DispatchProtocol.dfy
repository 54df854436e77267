/** Any number of dispatch runners (first jobs, queue retries, rescue jobs) racing to deliver
    one notification, whose connection may be pointed at another channel between them. */
module DispatchProtocol {
  import opened Common
  import opened Sends

  type Target = string

  /** `MustFail` owes the receipt a `failed` outcome. */
  datatype Phase = Ready | Holding | PostAccepted | MustFail(reason: FailureReason) | Done

  /** `at` is both the claim instant and the outcome instant of a run; `attempts` is what the
      claim returned. */
  datatype Runner = Runner(target: Target, at: int, attempts: nat, phase: Phase)
  {
    predicate InFlight() {
      phase.Holding? || phase.PostAccepted? || phase.MustFail?
    }
  }

  /** `thrown` lists the retry throws of the notification as (target, attempt number). */
  datatype State = State(
    now: int, sends: map<Target, Send>, runners: map<nat, Runner>,
    delivered: multiset<Target>, lost: multiset<Target>, thrown: seq<(Target, nat)>)
  {
    function At(target: Target): Option<Send> {
      if target in sends then Some(sends[target]) else None
    }

    ghost predicate Settled() {
      exists t | t in sends :: Settles(sends[t])
    }
  }

  datatype Action =
    | Advance(to: int)
    | Begin(id: nat, target: Target)
    | Claim(id: nat, repaired: bool, write: Write)
    | NoPoster(id: nat)
    | Post(id: nat, answer: PostAnswer, refusal: FailureReason)
    | RecordSent(id: nat, write: Write)
    | RecordFailed(id: nat, write: Write)
    | Crash(id: nat)

  ghost predicate Enabled(s: State, a: Action) {
    match a
    case Advance(to) => s.now <= to
    case Begin(id, _) => id !in s.runners && !s.Settled()
    case Claim(id, _, _) => id in s.runners && s.runners[id].phase.Ready?
    case NoPoster(id) => id in s.runners && s.runners[id].phase.Holding?
    case Post(id, _, _) => id in s.runners && s.runners[id].phase.Holding?
    case RecordSent(id, _) => id in s.runners && s.runners[id].phase.PostAccepted?
    case RecordFailed(id, _) => id in s.runners && s.runners[id].phase.MustFail?
    case Crash(id) => id in s.runners && !s.runners[id].phase.Done?
  }

  ghost function Move(s: State, id: nat, phase: Phase): State
    requires id in s.runners
  {
    s.(runners := s.runners[id := s.runners[id].(phase := phase)])
  }

  /** The retry rule: the receipt is committed, the failure is retryable, attempts remain. */
  predicate OwedRetry(reason: FailureReason, attempts: nat) {
    IsRetryable(reason) && attempts < NOTIFICATION_DISPATCH_MAX_ATTEMPTS
  }

  ghost function Step(s: State, a: Action): State
    requires Enabled(s, a)
  {
    match a
    case Advance(to) => s.(now := to)
    case Begin(id, target) => s.(runners := s.runners[id := Runner(target, s.now, 0, Ready)])
    case Claim(id, repaired, write) =>
      var r := s.runners[id];
      var granted := ClaimGranted(s.At(r.target), repaired, ClaimsExpireBefore(r.at));
      if !granted then Move(s, id, Done)
      else
        var claimed := ClaimSend(s.At(r.target), repaired, r.at, ClaimsExpireBefore(r.at)).value;
        var s1 := if write.Stored() then s.(sends := s.sends[r.target := claimed]) else s;
        if write.Threw() then Move(s1, id, Done)
        else s1.(runners := s1.runners[id := Runner(r.target, r.at, claimed.attempts, Holding)])
    case NoPoster(id) => Move(s, id, MustFail(NotAuthorised))
    case Post(id, answer, refusal) =>
      var t := s.runners[id].target;
      var s1 := if answer.Delivered() then s.(delivered := s.delivered + multiset{t}) else s;
      var s2 := if answer.ThrewSent? then s1.(lost := s1.lost + multiset{t}) else s1;
      Move(s2, id, if answer.Accepted? then PostAccepted
                   else MustFail(if answer.Refused? then refusal else CallFailed))
    case RecordSent(id, write) =>
      var t := s.runners[id].target;
      var s1 := if write.Stored() then s.(sends := s.sends[t := RecordOutcome(s.At(t), Sent)])
                else s.(lost := s.lost + multiset{t});
      Move(s1, id, Done)
    case RecordFailed(id, write) =>
      var r := s.runners[id];
      var s1 := if write.Stored()
                then s.(sends := s.sends[r.target := RecordOutcome(s.At(r.target), Failed(Some(r.phase.reason)))])
                else s;
      var s2 := if !write.Threw() && OwedRetry(r.phase.reason, r.attempts)
                then s1.(thrown := s1.thrown + [(r.target, r.attempts)]) else s1;
      Move(s2, id, Done)
    case Crash(id) =>
      var r := s.runners[id];
      var s1 := if r.phase.PostAccepted? then s.(lost := s.lost + multiset{r.target}) else s;
      Move(s1, id, Done)
  }

  ghost predicate Init(s: State) {
    && s.sends == map[] && s.runners == map[]
    && s.delivered == multiset{} && s.lost == multiset{} && s.thrown == []
  }

  ghost predicate Trace(states: seq<State>, run: seq<Action>) {
    && |states| == |run| + 1
    && Init(states[0])
    && (forall i | 0 <= i < |run| :: Enabled(states[i], run[i]) && states[i + 1] == Step(states[i], run[i]))
  }

  /** Every run between claim and outcome is shorter than the lease. */
  ghost predicate Punctual(s: State) {
    forall id | id in s.runners && s.runners[id].InFlight() ::
      s.now <= s.runners[id].at + NOTIFICATION_DISPATCH_CLAIM_TTL_MS
  }

  // ------------------------------------------------------------------ posts

  ghost predicate SomeoneAccepted(s: State, t: Target) {
    exists id | id in s.runners :: s.runners[id].target == t && s.runners[id].phase.PostAccepted?
  }

  ghost predicate InFlightOn(s: State, id: nat, t: Target) {
    id in s.runners && s.runners[id].target == t && s.runners[id].InFlight()
  }

  ghost predicate Exclusive(s: State, t: Target) {
    forall a, b | InFlightOn(s, a, t) && InFlightOn(s, b, t) :: a == b
  }

  ghost predicate LeaseMatches(s: State, t: Target) {
    forall id | InFlightOn(s, id, t) :: t in s.sends && s.sends[t].outcome == Pending(s.runners[id].at)
  }

  /** Where each delivered message is accounted for: on the receipt, in a runner's hands, or lost. */
  ghost predicate Accounted(s: State, t: Target) {
    s.delivered[t] == s.lost[t] + (if t in s.sends && s.sends[t].outcome.Sent? then 1 else 0)
                      + (if SomeoneAccepted(s, t) then 1 else 0)
  }

  ghost predicate TargetInv(s: State, t: Target) {
    && (forall id | id in s.runners :: s.runners[id].at <= s.now)
    && Exclusive(s, t) && LeaseMatches(s, t) && Accounted(s, t)
  }

  /** Only runner `id` moved, and nothing about target `t` did. */
  ghost predicate ElsewhereOnly(s: State, s': State, id: nat, t: Target) {
    && s'.now == s.now && s'.At(t) == s.At(t)
    && s'.delivered[t] == s.delivered[t] && s'.lost[t] == s.lost[t]
    && id in s'.runners && s'.runners[id].at <= s'.now
    && (forall k | k != id :: k in s'.runners <==> k in s.runners)
    && (forall k | k in s.runners && k != id :: s'.runners[k] == s.runners[k])
    && !InFlightOn(s, id, t) && !InFlightOn(s', id, t)
  }

  lemma ElsewhereKeepsTargetInv(s: State, s': State, id: nat, t: Target)
    requires TargetInv(s, t) && ElsewhereOnly(s, s', id, t)
    ensures TargetInv(s', t)
  {
    assert forall k :: InFlightOn(s', k, t) <==> InFlightOn(s, k, t);
    assert t in s'.sends <==> t in s.sends;
    assert t in s.sends ==> s.At(t) == Some(s.sends[t]) && s'.At(t) == Some(s'.sends[t]);
    if k :| k in s.runners && s.runners[k].target == t && s.runners[k].phase.PostAccepted? {
      assert InFlightOn(s, k, t);
      assert k in s'.runners && s'.runners[k].target == t && s'.runners[k].phase.PostAccepted?;
    }
    if k :| k in s'.runners && s'.runners[k].target == t && s'.runners[k].phase.PostAccepted? {
      assert InFlightOn(s', k, t);
      assert k in s.runners && s.runners[k].target == t && s.runners[k].phase.PostAccepted?;
    }
  }

  lemma ClaimKeepsTargetInv(s: State, id: nat, repaired: bool, write: Write, t: Target)
    requires TargetInv(s, t) && Punctual(s) && Enabled(s, Claim(id, repaired, write))
    ensures TargetInv(Step(s, Claim(id, repaired, write)), t)
  {
    var r := s.runners[id];
    var s' := Step(s, Claim(id, repaired, write));
    if r.target != t || !ClaimGranted(s.At(t), repaired, ClaimsExpireBefore(r.at)) {
      ElsewhereKeepsTargetInv(s, s', id, t);
    } else {
      forall h ensures !InFlightOn(s, h, t) {
        if InFlightOn(s, h, t) { assert false; }
      }
      assert !SomeoneAccepted(s, t) by {
        if k :| k in s.runners && s.runners[k].target == t && s.runners[k].phase.PostAccepted? {
          assert InFlightOn(s, k, t);
        }
      }
      assert !SomeoneAccepted(s', t);
      assert forall k | k != id :: !InFlightOn(s', k, t);
      assert t in s.sends ==> !s.sends[t].outcome.Sent? by {
        if t in s.sends { assert s.At(t) == Some(s.sends[t]); }
      }
    }
  }

  lemma PostKeepsTargetInv(s: State, id: nat, answer: PostAnswer, refusal: FailureReason, t: Target)
    requires TargetInv(s, t) && Enabled(s, Post(id, answer, refusal))
    ensures TargetInv(Step(s, Post(id, answer, refusal)), t)
  {
    var s' := Step(s, Post(id, answer, refusal));
    if s.runners[id].target == t {
      assert InFlightOn(s, id, t);
      assert !SomeoneAccepted(s, t) by {
        if k :| k in s.runners && s.runners[k].target == t && s.runners[k].phase.PostAccepted? {
          assert InFlightOn(s, k, t);
        }
      }
      assert forall k :: InFlightOn(s', k, t) <==> InFlightOn(s, k, t);
      if answer.Accepted? {
        assert id in s'.runners && s'.runners[id].target == t && s'.runners[id].phase.PostAccepted?;
      } else {
        assert !SomeoneAccepted(s', t);
      }
    } else {
      ElsewhereKeepsTargetInv(s, s', id, t);
    }
  }

  /** The runner in flight on a target is the only one, and the only one that can have been
      accepted. */
  lemma OnlyFlier(s: State, id: nat, t: Target)
    requires Exclusive(s, t) && InFlightOn(s, id, t)
    ensures forall k | k != id :: !InFlightOn(s, k, t)
    ensures SomeoneAccepted(s, t) <==> s.runners[id].phase.PostAccepted?
  {
    if k :| k in s.runners && s.runners[k].target == t && s.runners[k].phase.PostAccepted? {
      assert InFlightOn(s, k, t);
    }
  }

  /** Where only one runner can be in flight on a target and only it moved, not to accepted. */
  lemma OnlyMoved(s: State, s': State, id: nat, t: Target)
    requires forall k | k != id :: !InFlightOn(s, k, t)
    requires s'.runners.Keys == s.runners.Keys && id in s'.runners && !s'.runners[id].phase.PostAccepted?
    requires forall k | k in s.runners && k != id :: s'.runners[k] == s.runners[k]
    ensures Exclusive(s', t) && !SomeoneAccepted(s', t)
    ensures forall k | InFlightOn(s', k, t) :: k == id
  {
    assert forall k | k != id && InFlightOn(s', k, t) :: InFlightOn(s, k, t);
    if k :| k in s'.runners && s'.runners[k].target == t && s'.runners[k].phase.PostAccepted? {
      assert InFlightOn(s', k, t);
    }
  }

  /** The same target's runner moves without touching the receipt: a missing poster, or a crash. */
  lemma LeaveKeepsTargetInv(s: State, a: Action, t: Target)
    requires TargetInv(s, t) && Enabled(s, a) && (a.Crash? || a.NoPoster?)
    ensures TargetInv(Step(s, a), t)
  {
    var s', id := Step(s, a), a.id;
    if !InFlightOn(s, id, t) {
      ElsewhereKeepsTargetInv(s, s', id, t);
    } else {
      OnlyFlier(s, id, t);
      OnlyMoved(s, s', id, t);
    }
  }

  lemma SentKeepsTargetInv(s: State, a: Action, t: Target)
    requires TargetInv(s, t) && Enabled(s, a) && a.RecordSent?
    ensures TargetInv(Step(s, a), t)
  {
    var s', id := Step(s, a), a.id;
    if s.runners[id].target != t {
      ElsewhereKeepsTargetInv(s, s', id, t);
    } else {
      assert InFlightOn(s, id, t);
      OnlyFlier(s, id, t);
      OnlyMoved(s, s', id, t);
      assert s.At(t) == Some(s.sends[t]);
    }
  }

  lemma FailedKeepsTargetInv(s: State, a: Action, t: Target)
    requires TargetInv(s, t) && Enabled(s, a) && a.RecordFailed?
    ensures TargetInv(Step(s, a), t)
  {
    var s', id := Step(s, a), a.id;
    if s.runners[id].target != t {
      ElsewhereKeepsTargetInv(s, s', id, t);
    } else {
      assert InFlightOn(s, id, t);
      OnlyFlier(s, id, t);
      OnlyMoved(s, s', id, t);
      assert s.At(t) == Some(s.sends[t]);
    }
  }

  lemma RecordKeepsTargetInv(s: State, a: Action, t: Target)
    requires TargetInv(s, t) && Enabled(s, a)
    requires a.RecordSent? || a.RecordFailed? || a.Crash? || a.NoPoster?
    ensures TargetInv(Step(s, a), t)
  {
    match a
    case RecordSent(_, _) => SentKeepsTargetInv(s, a, t);
    case RecordFailed(_, _) => FailedKeepsTargetInv(s, a, t);
    case _ => LeaveKeepsTargetInv(s, a, t);
  }

  /** Only a claim needs the runners in flight to be punctual. */
  lemma StepKeepsTargetInv(s: State, a: Action, t: Target)
    requires TargetInv(s, t) && Enabled(s, a) && (a.Claim? ==> Punctual(s))
    ensures TargetInv(Step(s, a), t)
  {
    match a
    case Advance(_) =>
      var s' := Step(s, a);
      assert forall k :: InFlightOn(s', k, t) <==> InFlightOn(s, k, t);
      assert SomeoneAccepted(s, t) <==> SomeoneAccepted(s', t);
    case Begin(id, _) => ElsewhereKeepsTargetInv(s, Step(s, a), id, t);
    case Claim(id, repaired, write) => ClaimKeepsTargetInv(s, id, repaired, write, t);
    case Post(id, answer, refusal) => PostKeepsTargetInv(s, id, answer, refusal, t);
    case _ => RecordKeepsTargetInv(s, a, t);
  }

  lemma {:induction false} TraceKeepsTargetInv(states: seq<State>, run: seq<Action>, n: nat, t: Target)
    requires Trace(states, run) && n <= |run|
    requires forall i | 0 <= i < n :: Punctual(states[i])
    ensures TargetInv(states[n], t)
  {
    if n > 0 {
      TraceKeepsTargetInv(states, run, n - 1, t);
      StepKeepsTargetInv(states[n - 1], run[n - 1], t);
    }
  }

  /** At most one message per target, plus those whose receipt was lost: over every
      interleaving of runners, retries and rescues whose runs are shorter than the lease. */
  lemma AtMostOncePerTarget(states: seq<State>, run: seq<Action>, n: nat, t: Target)
    requires Trace(states, run) && n <= |run|
    requires forall i | 0 <= i < n :: Punctual(states[i])
    ensures states[n].delivered[t] <= 1 + states[n].lost[t]
    ensures t in states[n].sends && states[n].sends[t].outcome.Sent? ==> states[n].delivered[t] == 1 + states[n].lost[t]
  {
    TraceKeepsTargetInv(states, run, n, t);
    if id :| id in states[n].runners && states[n].runners[id].target == t && states[n].runners[id].phase.PostAccepted? {
      assert InFlightOn(states[n], id, t);
    }
  }

  /** The invariant of every target at once. */
  ghost predicate AllTargets(s: State) {
    forall t: Target :: TargetInv(s, t)
  }

  lemma TraceKeepsAllTargets(states: seq<State>, run: seq<Action>, n: nat)
    requires Trace(states, run) && n <= |run|
    requires forall i | 0 <= i < n :: Punctual(states[i])
    ensures AllTargets(states[n])
  {
    var s := states[n];
    forall t: Target ensures TargetInv(s, t) { TraceKeepsTargetInv(states, run, n, t); }
  }

  /** A trace with one more step. */
  lemma OneStepMore(states: seq<State>, run: seq<Action>, a: Action)
    requires Trace(states, run) && Enabled(states[|run|], a)
    ensures Trace(states + [Step(states[|run|], a)], run + [a])
  {
    var longer, next := states + [Step(states[|run|], a)], run + [a];
    forall i | 0 <= i < |next| ensures Enabled(longer[i], next[i]) && longer[i + 1] == Step(longer[i], next[i]) {
      assert i < |run| ==> next[i] == run[i] && longer[i + 1] == states[i + 1];
      assert longer[i] == states[i];
    }
  }
}
