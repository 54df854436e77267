/** Messages per notification, over every target its connection was ever pointed at. */
module DispatchBounds {
  import opened Common
  import opened Sends
  import opened DispatchProtocol

  /** Targets whose receipt says sent. */
  ghost function SentTargets(s: State): set<Target> {
    set t | t in s.sends && s.sends[t].outcome.Sent?
  }

  /** Targets a runner has had a post accepted for and not yet recorded. */
  ghost function AcceptedTargets(s: State): set<Target> {
    set id | id in s.runners && s.runners[id].phase.PostAccepted? :: s.runners[id].target
  }

  ghost function Reached(s: State): set<Target> {
    SentTargets(s) + AcceptedTargets(s)
  }

  /** Every message not lost is that of one reached target. */
  ghost predicate Excess(s: State) {
    |s.delivered| == |s.lost| + |Reached(s)|
  }

  lemma AcceptedMeans(s: State, t: Target)
    ensures t in AcceptedTargets(s) <==> SomeoneAccepted(s, t)
  {
  }

  /** A runner in flight is on a target not yet sent to, and not accepted for unless by itself. */
  lemma FlierNotReached(s: State, id: nat)
    requires id in s.runners && s.runners[id].InFlight() && AllTargets(s)
    ensures s.runners[id].target !in SentTargets(s)
    ensures s.runners[id].target in AcceptedTargets(s) <==> s.runners[id].phase.PostAccepted?
  {
    var t := s.runners[id].target;
    assert TargetInv(s, t) && InFlightOn(s, id, t);
    OnlyFlier(s, id, t);
    AcceptedMeans(s, t);
  }

  predicate AcceptedBy(s: State, id: nat) {
    id in s.runners && s.runners[id].phase.PostAccepted?
  }

  /** How the accepted targets move when one runner does. */
  lemma OneRunnerMovesAccepted(s: State, s': State, id: nat)
    requires id in s'.runners && s'.runners.Keys == s.runners.Keys + {id}
    requires forall k | k in s.runners && k != id :: s'.runners[k] == s.runners[k]
    requires AcceptedBy(s, id) ==> !AcceptedBy(s', id) && Exclusive(s, s.runners[id].target)
    ensures AcceptedTargets(s') == if AcceptedBy(s', id) then AcceptedTargets(s) + {s'.runners[id].target}
                                   else if AcceptedBy(s, id) then AcceptedTargets(s) - {s.runners[id].target}
                                   else AcceptedTargets(s)
  {
    assert forall k | k != id :: AcceptedBy(s', k) <==> AcceptedBy(s, k);
    if AcceptedBy(s, id) {
      var t := s.runners[id].target;
      assert InFlightOn(s, id, t);
      forall k | k != id && AcceptedBy(s, k) ensures s.runners[k].target != t {
        if s.runners[k].target == t { assert InFlightOn(s, k, t); }
      }
    }
  }

  lemma StepMovesAccepted(s: State, a: Action)
    requires Enabled(s, a) && AllTargets(s) && !a.Advance?
    ensures AcceptedTargets(Step(s, a)) ==
            match a
            case Post(id, answer, _) =>
              if answer.Accepted? then AcceptedTargets(s) + {s.runners[id].target} else AcceptedTargets(s)
            case RecordSent(id, _) => AcceptedTargets(s) - {s.runners[id].target}
            case Crash(id) =>
              if s.runners[id].phase.PostAccepted? then AcceptedTargets(s) - {s.runners[id].target} else AcceptedTargets(s)
            case _ => AcceptedTargets(s)
  {
    if a.id in s.runners { assert TargetInv(s, s.runners[a.id].target); }
    OneRunnerMovesAccepted(s, Step(s, a), a.id);
  }

  /** A step that writes no sent receipt, over a target without one, moves no sent target. */
  lemma OneReceiptMovesSent(s: State, s': State, t: Target)
    requires s'.sends == s.sends || exists r :: s'.sends == s.sends[t := r] && !r.outcome.Sent?
    requires t !in SentTargets(s)
    ensures SentTargets(s') == SentTargets(s)
  {
  }

  /** A granted claim is never over a sent receipt, nor is a failure stored by a runner in
      flight; a sent outcome always is stored. */
  lemma StepMovesSent(s: State, a: Action)
    requires Enabled(s, a) && AllTargets(s)
    ensures SentTargets(Step(s, a)) ==
            if a.RecordSent? && a.write.Stored() then SentTargets(s) + {s.runners[a.id].target} else SentTargets(s)
  {
    var s' := Step(s, a);
    if a.Claim? || a.RecordSent? || a.RecordFailed? {
      var t := s.runners[a.id].target;
      assert t in s.sends ==> s.At(t) == Some(s.sends[t]);
      if s.runners[a.id].InFlight() { FlierNotReached(s, a.id); }
      if a.RecordSent? {
        assert a.write.Stored() ==> s'.sends == s.sends[t := s'.sends[t]] && s'.sends[t].outcome.Sent?;
      } else if s'.sends != s.sends {
        assert s'.sends == s.sends[t := s'.sends[t]] && !s'.sends[t].outcome.Sent?;
        OneReceiptMovesSent(s, s', t);
      }
    } else {
      assert s'.sends == s.sends;
    }
  }

  /** How one step moves the reached targets: an accepted post adds its own, and only a lost
      record or a crash takes one away. */
  lemma StepMovesReached(s: State, a: Action)
    requires Enabled(s, a) && AllTargets(s)
    ensures var s' := Step(s, a);
            match a
            case Post(id, answer, _) =>
              Reached(s') == if answer.Accepted? then Reached(s) + {s.runners[id].target} else Reached(s)
            case RecordSent(id, write) =>
              Reached(s') == if write.Stored() then Reached(s) else Reached(s) - {s.runners[id].target}
            case Crash(id) =>
              Reached(s') == if s.runners[id].phase.PostAccepted? then Reached(s) - {s.runners[id].target} else Reached(s)
            case _ => Reached(s') == Reached(s)
  {
    StepMovesSent(s, a);
    if !a.Advance? {
      StepMovesAccepted(s, a);
      if a.id in s.runners && s.runners[a.id].InFlight() { FlierNotReached(s, a.id); }
    }
  }

  lemma PostKeepsExcess(s: State, a: Action)
    requires Enabled(s, a) && AllTargets(s) && Excess(s) && a.Post?
    ensures Excess(Step(s, a))
  {
    StepMovesReached(s, a);
    FlierNotReached(s, a.id);
  }

  lemma SentKeepsExcess(s: State, a: Action)
    requires Enabled(s, a) && AllTargets(s) && Excess(s) && a.RecordSent?
    ensures Excess(Step(s, a))
  {
    StepMovesReached(s, a);
    FlierNotReached(s, a.id);
  }

  lemma CrashKeepsExcess(s: State, a: Action)
    requires Enabled(s, a) && AllTargets(s) && Excess(s) && a.Crash?
    ensures Excess(Step(s, a))
  {
    StepMovesReached(s, a);
    if s.runners[a.id].phase.PostAccepted? { FlierNotReached(s, a.id); }
  }

  /** The messages delivered and lost, and the reached targets, move together. */
  lemma StepKeepsExcess(s: State, a: Action)
    requires Enabled(s, a) && AllTargets(s) && Excess(s)
    ensures Excess(Step(s, a))
  {
    match a
    case Post(_, _, _) => PostKeepsExcess(s, a);
    case RecordSent(_, _) => SentKeepsExcess(s, a);
    case Crash(_) => CrashKeepsExcess(s, a);
    case _ => StepMovesReached(s, a);
  }

  lemma {:induction false} TraceKeepsExcess(states: seq<State>, run: seq<Action>, n: nat)
    requires Trace(states, run) && n <= |run|
    requires forall i | 0 <= i < n :: Punctual(states[i])
    ensures Excess(states[n])
  {
    if n == 0 {
      assert Reached(states[0]) == {};
    } else {
      TraceKeepsExcess(states, run, n - 1);
      TraceKeepsAllTargets(states, run, n - 1);
      StepKeepsExcess(states[n - 1], run[n - 1]);
    }
  }

  /** Exactly how many messages a notification costs in any punctual run, however often its
      connection is re-pointed: the lost ones, and one for each target sent or accepted. */
  lemma BoundIff(states: seq<State>, run: seq<Action>, n: nat)
    requires Trace(states, run) && n <= |run|
    requires forall i | 0 <= i < n :: Punctual(states[i])
    ensures |states[n].delivered| == |states[n].lost| + |Reached(states[n])|
    ensures |states[n].delivered| <= 1 + |states[n].lost| <==> |Reached(states[n])| <= 1
  {
    TraceKeepsExcess(states, run, n);
  }

  /** The step that breaks the bound: an accepted post breaks it exactly when another target is
      already sent or accepted. */
  lemma PostBreaksBoundIff(states: seq<State>, run: seq<Action>, n: nat)
    requires Trace(states, run) && n < |run| && run[n].Post? && run[n].answer.Accepted?
    requires forall i | 0 <= i <= n :: Punctual(states[i])
    requires |states[n].delivered| <= 1 + |states[n].lost|
    ensures |states[n + 1].delivered| > 1 + |states[n + 1].lost| <==>
            exists t :: t in Reached(states[n]) && t != states[n].runners[run[n].id].target
  {
    var s, id := states[n], run[n].id;
    BoundIff(states, run, n);
    BoundIff(states, run, n + 1);
    TraceKeepsAllTargets(states, run, n);
    StepMovesReached(s, run[n]);
    FlierNotReached(s, id);
    if Reached(s) != {} {
      var t :| t in Reached(s);
      assert t != s.runners[id].target;
    }
  }

  /** A run begins while every runner still at work is on its own target. */
  ghost predicate Alone(s: State, a: Action) {
    a.Begin? ==> forall k | k in s.runners && !s.runners[k].phase.Done? :: s.runners[k].target == a.target
  }

  /** Every runner at work is on `t`, and no other target has a sent receipt. */
  ghost predicate AllOn(s: State, t: Target) {
    && SentTargets(s) <= {t}
    && forall k | k in s.runners && !s.runners[k].phase.Done? :: s.runners[k].target == t
  }

  /** The target everyone is on after a step. */
  function NextOn(a: Action, t: Target): Target {
    if a.Begin? then a.target else t
  }

  /** The settled guard lets a run begin only over no sent receipt at all. */
  lemma StepKeepsAllOn(s: State, a: Action, t: Target)
    requires Enabled(s, a) && AllTargets(s) && AllOn(s, t) && Alone(s, a)
    ensures AllOn(Step(s, a), NextOn(a, t))
  {
    var s' := Step(s, a);
    StepMovesSent(s, a);
    if a.Begin? {
      assert forall u | u in SentTargets(s) :: Settles(s.sends[u]);
      assert SentTargets(s) == {};
    } else if !a.Advance? {
      assert s'.runners[a.id].target == s.runners[a.id].target;
      assert forall k | k != a.id && k in s'.runners :: k in s.runners && s'.runners[k] == s.runners[k];
    }
  }

  lemma {:induction false} TraceKeepsAllOn(states: seq<State>, run: seq<Action>, n: nat) returns (t: Target)
    requires Trace(states, run) && n <= |run|
    requires forall i | 0 <= i < n :: Punctual(states[i]) && Alone(states[i], run[i])
    ensures AllOn(states[n], t)
  {
    if n == 0 {
      t := "";
    } else {
      t := TraceKeepsAllOn(states, run, n - 1);
      TraceKeepsAllTargets(states, run, n - 1);
      StepKeepsAllOn(states[n - 1], run[n - 1], t);
      t := NextOn(run[n - 1], t);
    }
  }

  lemma AllOnReachesOne(s: State, t: Target)
    requires AllOn(s, t)
    ensures |Reached(s)| <= 1
  {
    assert Reached(s) <= {t};
    SubsetCount(Reached(s), {t});
  }

  /** At most one message per notification, plus the lost receipts, across any number of
      re-points, as long as no run begins on a new target beside a run still at work on an old
      one: the settled guard then sees the old run's receipt. */
  lemma AtMostOncePerNotification(states: seq<State>, run: seq<Action>, n: nat)
    requires Trace(states, run) && n <= |run|
    requires forall i | 0 <= i < n :: Punctual(states[i]) && Alone(states[i], run[i])
    ensures |states[n].delivered| <= 1 + |states[n].lost|
  {
    BoundIff(states, run, n);
    var t := TraceKeepsAllOn(states, run, n);
    AllOnReachesOne(states[n], t);
  }

  /** So a second message always has such a begin behind it. */
  lemma SecondMessageNeedsOverlap(states: seq<State>, run: seq<Action>, n: nat) returns (i: nat)
    requires Trace(states, run) && n <= |run|
    requires forall i | 0 <= i < n :: Punctual(states[i])
    requires |states[n].delivered| > 1 + |states[n].lost|
    ensures i < n && run[i].Begin?
    ensures exists k :: k in states[i].runners && !states[i].runners[k].phase.Done?
                        && states[i].runners[k].target != run[i].target
  {
    if forall j | 0 <= j < n :: Alone(states[j], run[j]) {
      AtMostOncePerNotification(states, run, n);
      assert false;
    }
    i :| 0 <= i < n && !Alone(states[i], run[i]);
  }

  ghost function Start(): State {
    State(0, map[], map[], multiset{}, multiset{}, [])
  }

  /** And such a begin is enough: a run that began before the connection moved and one that
      began after it both post, punctually, and no receipt is lost. */
  lemma RepointPostsTwice() returns (states: seq<State>, run: seq<Action>)
    ensures Trace(states, run) && (forall i | 0 <= i < |states| :: Punctual(states[i]))
    ensures |states[|run|].delivered| == 2 && |states[|run|].lost| == 0
  {
    var s1 := BothBegin();
    var s2 := Step(s1[2], Claim(0, true, Landed));
    var s3 := Step(s2, Claim(1, true, Landed));
    var s4 := Step(s3, Post(0, Accepted, CallFailed));
    run := [Begin(0, "C1"), Begin(1, "C2"), Claim(0, true, Landed), Claim(1, true, Landed),
            Post(0, Accepted, CallFailed), Post(1, Accepted, CallFailed)];
    states := s1 + [s2, s3, s4, Step(s4, run[5])];
  }

  lemma BothBegin() returns (states: seq<State>)
    ensures Trace(states, [Begin(0, "C1"), Begin(1, "C2")])
    ensures states[2] == Start().(runners := map[0 := Runner("C1", 0, 0, Ready), 1 := Runner("C2", 0, 0, Ready)])
  {
    var s1 := Step(Start(), Begin(0, "C1"));
    states := [Start(), s1, Step(s1, Begin(1, "C2"))];
  }

  lemma SubsetCount<T>(a: set<T>, b: set<T>)
    requires a <= b
    ensures |a| <= |b|
  {
    assert b == a + (b - a);
  }
}
