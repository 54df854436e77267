/** Retry throws per notification: attempt numbers are handed out once each. */
module DispatchRetries {
  import opened Common
  import opened Sends
  import opened DispatchProtocol
  import opened DispatchBounds

  /** The receipt an attempt number belongs to has counted at least that far. */
  ghost predicate Counted(s: State, t: Target, attempt: nat) {
    t in s.sends && 1 <= attempt <= s.sends[t].attempts
  }

  ghost predicate Holds(s: State, id: nat, t: Target, attempt: nat) {
    InFlightOn(s, id, t) && s.runners[id].attempts == attempt
  }

  /** Attempt numbers are never handed out twice, so no two retry throws share one. */
  ghost predicate ThrowInv(s: State) {
    && (forall id | id in s.runners && s.runners[id].InFlight() ::
          Counted(s, s.runners[id].target, s.runners[id].attempts))
    && (forall a, b, t, n | Holds(s, a, t, n) && Holds(s, b, t, n) :: a == b)
    && (forall i | 0 <= i < |s.thrown| ::
          Counted(s, s.thrown[i].0, s.thrown[i].1) && s.thrown[i].1 < NOTIFICATION_DISPATCH_MAX_ATTEMPTS)
    && (forall i, j | 0 <= i < j < |s.thrown| :: s.thrown[i] != s.thrown[j])
    && (forall i, id | 0 <= i < |s.thrown| :: !Holds(s, id, s.thrown[i].0, s.thrown[i].1))
  }

  /** Counts only rise, and every attempt number held afterwards was held before. */
  lemma QuietStepKeepsThrowInv(s: State, s': State)
    requires ThrowInv(s) && s'.thrown == s.thrown
    requires forall t | t in s.sends :: t in s'.sends && s.sends[t].attempts <= s'.sends[t].attempts
    requires forall id, t, n | Holds(s', id, t, n) :: Holds(s, id, t, n)
    ensures ThrowInv(s')
  {
    forall id | id in s'.runners && s'.runners[id].InFlight()
      ensures Counted(s', s'.runners[id].target, s'.runners[id].attempts)
    {
      assert Holds(s', id, s'.runners[id].target, s'.runners[id].attempts);
      assert Counted(s, s'.runners[id].target, s'.runners[id].attempts);
    }
    forall i | 0 <= i < |s'.thrown| ensures Counted(s', s'.thrown[i].0, s'.thrown[i].1) {
      assert Counted(s, s.thrown[i].0, s.thrown[i].1);
    }
  }

  /** Handing out a number that was never counted keeps the invariant. */
  lemma FreshNumberKeepsThrowInv(s: State, s': State, id: nat)
    requires ThrowInv(s) && id in s'.runners && s'.thrown == s.thrown
    requires Counted(s', s'.runners[id].target, s'.runners[id].attempts)
    requires !Counted(s, s'.runners[id].target, s'.runners[id].attempts)
    requires forall t | t in s.sends :: t in s'.sends && s.sends[t].attempts <= s'.sends[t].attempts
    requires forall k, t, n | k != id && Holds(s', k, t, n) :: Holds(s, k, t, n)
    ensures ThrowInv(s')
  {
    var r := s'.runners[id];
    var s1 := s'.(runners := s'.runners[id := r.(phase := Done)]);
    forall k, t, n | Holds(s1, k, t, n) ensures Holds(s, k, t, n) {
      assert k != id && Holds(s', k, t, n);
    }
    QuietStepKeepsThrowInv(s, s1);
    forall k | k != id ensures !Holds(s', k, r.target, r.attempts) {
      if Holds(s', k, r.target, r.attempts) {
        assert false;
      }
    }
    assert forall i | 0 <= i < |s.thrown| :: Counted(s, s.thrown[i].0, s.thrown[i].1);
    forall k | k in s'.runners && s'.runners[k].InFlight()
      ensures Counted(s', s'.runners[k].target, s'.runners[k].attempts)
    {
      if k != id { assert s1.runners[k] == s'.runners[k] && Counted(s1, s'.runners[k].target, s'.runners[k].attempts); }
    }
    assert forall k, i | 0 <= i < |s.thrown| :: k != id ==> !Holds(s', k, s.thrown[i].0, s.thrown[i].1);
  }

  /** A granted claim hands out one more than everything the receipt ever handed out. */
  lemma ClaimKeepsThrowInv(s: State, id: nat, repaired: bool, write: Write)
    requires ThrowInv(s) && Enabled(s, Claim(id, repaired, write))
    ensures ThrowInv(Step(s, Claim(id, repaired, write)))
  {
    var s' := Step(s, Claim(id, repaired, write));
    var t := s.runners[id].target;
    assert t in s.sends ==> s.At(t) == Some(s.sends[t]);
    assert forall k, u, n | k != id && Holds(s', k, u, n) :: Holds(s, k, u, n);
    if !s'.runners[id].InFlight() {
      QuietStepKeepsThrowInv(s, s');
    } else {
      FreshNumberKeepsThrowInv(s, s', id);
    }
  }

  /** A runner that throws the number it holds, and holds it no more, keeps the invariant. */
  lemma SpentNumberKeepsThrowInv(s: State, s': State, id: nat)
    requires ThrowInv(s) && id in s.runners && s.runners[id].InFlight()
    requires s.runners[id].attempts < NOTIFICATION_DISPATCH_MAX_ATTEMPTS
    requires s'.thrown == s.thrown + [(s.runners[id].target, s.runners[id].attempts)]
    requires forall t | t in s.sends :: t in s'.sends && s.sends[t].attempts <= s'.sends[t].attempts
    requires forall k, t, n | Holds(s', k, t, n) :: k != id && Holds(s, k, t, n)
    ensures ThrowInv(s')
  {
    var r, s1 := s.runners[id], s'.(thrown := s.thrown);
    assert Holds(s, id, r.target, r.attempts) && Counted(s, r.target, r.attempts);
    forall k, t, n | Holds(s1, k, t, n) ensures Holds(s, k, t, n) {
      assert Holds(s', k, t, n);
    }
    QuietStepKeepsThrowInv(s, s1);
    assert forall i | 0 <= i < |s.thrown| :: s'.thrown[i] == s.thrown[i] && Counted(s1, s.thrown[i].0, s.thrown[i].1);
    assert forall i | 0 <= i < |s.thrown| :: !Holds(s, id, s.thrown[i].0, s.thrown[i].1);
    assert forall i | 0 <= i < |s'.thrown| :: Counted(s', s'.thrown[i].0, s'.thrown[i].1);
    forall k | k in s'.runners && s'.runners[k].InFlight()
      ensures Counted(s', s'.runners[k].target, s'.runners[k].attempts)
    {
      assert Counted(s1, s1.runners[k].target, s1.runners[k].attempts);
    }
  }

  lemma FailedKeepsThrowInv(s: State, id: nat, write: Write)
    requires ThrowInv(s) && Enabled(s, RecordFailed(id, write))
    ensures ThrowInv(Step(s, RecordFailed(id, write)))
  {
    var s' := Step(s, RecordFailed(id, write));
    var t := s.runners[id].target;
    assert t in s.sends ==> s.At(t) == Some(s.sends[t]);
    assert forall k, u, n | Holds(s', k, u, n) :: k != id && Holds(s, k, u, n);
    if s'.thrown == s.thrown {
      QuietStepKeepsThrowInv(s, s');
    } else {
      SpentNumberKeepsThrowInv(s, s', id);
    }
  }

  lemma StepKeepsThrowInv(s: State, a: Action)
    requires ThrowInv(s) && Enabled(s, a)
    ensures ThrowInv(Step(s, a))
  {
    match a
    case Claim(id, repaired, write) => ClaimKeepsThrowInv(s, id, repaired, write);
    case RecordFailed(id, write) => FailedKeepsThrowInv(s, id, write);
    case RecordSent(id, write) =>
      var t := s.runners[id].target;
      assert t in s.sends ==> s.At(t) == Some(s.sends[t]);
      QuietStepKeepsThrowInv(s, Step(s, a));
    case _ => QuietStepKeepsThrowInv(s, Step(s, a));
  }

  lemma {:induction false} TraceKeepsThrowInv(states: seq<State>, run: seq<Action>, n: nat)
    requires Trace(states, run) && n <= |run|
    ensures ThrowInv(states[n])
  {
    if n > 0 {
      TraceKeepsThrowInv(states, run, n - 1);
      StepKeepsThrowInv(states[n - 1], run[n - 1]);
    }
  }

  /** The retry throws recorded against one target. */
  function ThrowsFor(thrown: seq<(Target, nat)>, t: Target): nat {
    if thrown == [] then 0
    else ThrowsFor(thrown[..|thrown| - 1], t) + (if thrown[|thrown| - 1].0 == t then 1 else 0)
  }

  function AttemptsOf(thrown: seq<(Target, nat)>, t: Target): set<nat> {
    set i | 0 <= i < |thrown| && thrown[i].0 == t :: thrown[i].1
  }

  lemma AttemptsNext(rest: seq<(Target, nat)>, last: (Target, nat), t: Target)
    ensures AttemptsOf(rest + [last], t) == AttemptsOf(rest, t) + (if last.0 == t then {last.1} else {})
  {
    var thrown := rest + [last];
    assert forall i | 0 <= i < |rest| :: thrown[i] == rest[i];
    assert thrown[|rest|] == last;
  }

  lemma {:induction false} DistinctThrows(thrown: seq<(Target, nat)>, t: Target)
    requires forall i, j | 0 <= i < j < |thrown| :: thrown[i] != thrown[j]
    ensures ThrowsFor(thrown, t) == |AttemptsOf(thrown, t)|
  {
    if thrown != [] {
      var rest, last := thrown[..|thrown| - 1], thrown[|thrown| - 1];
      DistinctThrows(rest, t);
      assert thrown == rest + [last];
      AttemptsNext(rest, last, t);
      assert last.0 == t ==> last.1 !in AttemptsOf(rest, t);
    }
  }

  // ------------------------------------------------------- over every target

  /** The targets any run of the notification was ever begun on. */
  ghost function Begun(s: State): set<Target> {
    set id | id in s.runners :: s.runners[id].target
  }

  ghost predicate ThrownWasBegun(s: State) {
    forall i | 0 <= i < |s.thrown| :: s.thrown[i].0 in Begun(s)
  }

  lemma BegunStays(s: State, a: Action)
    requires Enabled(s, a)
    ensures Begun(s) <= Begun(Step(s, a))
  {
    var s' := Step(s, a);
    assert forall k | k in s.runners :: k in s'.runners && s'.runners[k].target == s.runners[k].target;
  }

  lemma StepKeepsThrownBegun(s: State, a: Action)
    requires ThrownWasBegun(s) && Enabled(s, a)
    ensures ThrownWasBegun(Step(s, a))
  {
    BegunStays(s, a);
    if a.RecordFailed? { assert s.runners[a.id].target in Begun(s); }
  }

  lemma {:induction false} TraceKeepsThrownBegun(states: seq<State>, run: seq<Action>, n: nat)
    requires Trace(states, run) && n <= |run|
    ensures ThrownWasBegun(states[n])
  {
    if n > 0 {
      TraceKeepsThrownBegun(states, run, n - 1);
      StepKeepsThrownBegun(states[n - 1], run[n - 1]);
    }
  }

  /** At most four attempt numbers below the cap for each of the targets. */
  lemma {:induction false} PairsBounded(pairs: set<(Target, nat)>, targets: set<Target>)
    requires forall p | p in pairs :: p.0 in targets && 1 <= p.1 < NOTIFICATION_DISPATCH_MAX_ATTEMPTS
    ensures |pairs| <= (NOTIFICATION_DISPATCH_MAX_ATTEMPTS - 1) * |targets|
    decreases |targets|
  {
    if pairs != {} {
      var p :| p in pairs;
      var t := p.0;
      var own, rest := set q | q in pairs && q.0 == t, set q | q in pairs && q.0 != t;
      SubsetCount(own, {(t, 1), (t, 2), (t, 3), (t, 4)});
      PairsBounded(rest, targets - {t});
      assert pairs == own + rest;
    }
  }

  ghost function PairsOf(thrown: seq<(Target, nat)>): set<(Target, nat)> {
    set p | p in thrown
  }

  lemma {:induction false} DistinctPairs(thrown: seq<(Target, nat)>)
    requires forall i, j | 0 <= i < j < |thrown| :: thrown[i] != thrown[j]
    ensures |PairsOf(thrown)| == |thrown|
  {
    if thrown != [] {
      var rest, last := thrown[..|thrown| - 1], thrown[|thrown| - 1];
      DistinctPairs(rest);
      assert thrown == rest + [last];
      assert PairsOf(thrown) == PairsOf(rest) + {last};
      assert last !in rest;
    }
  }

  /** What the invariants bound: four throws per target, over every target begun. */
  lemma CountedBounds(s: State, t: Target)
    requires ThrowInv(s) && ThrownWasBegun(s)
    ensures ThrowsFor(s.thrown, t) <= NOTIFICATION_DISPATCH_MAX_ATTEMPTS - 1
    ensures |s.thrown| <= (NOTIFICATION_DISPATCH_MAX_ATTEMPTS - 1) * |Begun(s)|
  {
    DistinctThrows(s.thrown, t);
    assert AttemptsOf(s.thrown, t) <= {1, 2, 3, 4};
    SubsetCount(AttemptsOf(s.thrown, t), {1, 2, 3, 4});
    var pairs := PairsOf(s.thrown);
    DistinctPairs(s.thrown);
    forall p | p in pairs ensures p.0 in Begun(s) && 1 <= p.1 < NOTIFICATION_DISPATCH_MAX_ATTEMPTS {
      var i :| 0 <= i < |s.thrown| && s.thrown[i] == p;
      assert Counted(s, s.thrown[i].0, s.thrown[i].1);
    }
    PairsBounded(pairs, Begun(s));
  }

  /** In its whole life a notification throws for a retry at most four times for each target it
      was ever run on, with no condition on time, crashes, repaired connections or rescued
      attempts. */
  lemma RetryThrowsBounded(states: seq<State>, run: seq<Action>, n: nat, t: Target)
    requires Trace(states, run) && n <= |run|
    ensures ThrowsFor(states[n].thrown, t) <= NOTIFICATION_DISPATCH_MAX_ATTEMPTS - 1
    ensures |states[n].thrown| <= (NOTIFICATION_DISPATCH_MAX_ATTEMPTS - 1) * |Begun(states[n])|
  {
    TraceKeepsThrowInv(states, run, n);
    TraceKeepsThrownBegun(states, run, n);
    CountedBounds(states[n], t);
  }

  /** So at most four times in all if its connection is never re-pointed. */
  lemma OneTargetThrows(states: seq<State>, run: seq<Action>, n: nat, t: Target)
    requires Trace(states, run) && n <= |run| && Begun(states[n]) <= {t}
    ensures |states[n].thrown| <= NOTIFICATION_DISPATCH_MAX_ATTEMPTS - 1
  {
    RetryThrowsBounded(states, run, n, t);
    SubsetCount(Begun(states[n]), {t});
  }

  /** A notification between failed runs: nobody at work, every receipt a call that failed. */
  ghost predicate Idle(s: State, runs: nat) {
    && (forall id | id in s.runners :: id < runs && s.runners[id].phase.Done?)
    && (forall t | t in s.sends :: s.sends[t].outcome == Failed(Some(CallFailed)))
  }

  /** Punctual, and no run begins beside one on another target. */
  ghost predicate Orderly(states: seq<State>, run: seq<Action>) {
    |states| > |run| && forall i | 0 <= i < |run| :: Punctual(states[i]) && Alone(states[i], run[i])
  }

  ghost function CountOf(s: State, t: Target): nat {
    if t in s.sends then s.sends[t].attempts else 0
  }

  /** A run up to its claim, over a receipt that failed or was never written. */
  lemma ClaimAfterFailure(s: State, id: nat, t: Target)
    requires Idle(s, id) && CountOf(s, t) < NOTIFICATION_DISPATCH_MAX_ATTEMPTS - 1
    ensures Enabled(s, Begin(id, t)) && Enabled(Step(s, Begin(id, t)), Claim(id, false, Landed))
    ensures Step(Step(s, Begin(id, t)), Claim(id, false, Landed)) ==
            s.(runners := s.runners[id := Runner(t, s.now, CountOf(s, t) + 1, Holding)],
               sends := s.sends[t := Send(Pending(s.now), CountOf(s, t) + 1)])
    ensures Punctual(s) && Alone(s, Begin(id, t)) && Punctual(Step(s, Begin(id, t)))
    ensures Punctual(Step(Step(s, Begin(id, t)), Claim(id, false, Landed)))
  {
    assert t in s.sends ==> s.At(t) == Some(s.sends[t]);
    var s1 := Step(s, Begin(id, t));
    var s2 := Step(s1, Claim(id, false, Landed));
    assert s2.runners == s.runners[id := Runner(t, s.now, CountOf(s, t) + 1, Holding)];
  }

  /** The rest of it: the call fails, and the failure is recorded and thrown. */
  lemma FailAfterClaim(s: State, id: nat)
    requires id in s.runners && s.runners[id].phase.Holding?
    requires var r := s.runners[id]; s.At(r.target) == Some(Send(Pending(r.at), r.attempts))
    requires s.runners[id].attempts < NOTIFICATION_DISPATCH_MAX_ATTEMPTS
    ensures Enabled(s, Post(id, ThrewUnsent, CallFailed))
    ensures Enabled(Step(s, Post(id, ThrewUnsent, CallFailed)), RecordFailed(id, Landed))
    ensures var r := s.runners[id];
            Step(Step(s, Post(id, ThrewUnsent, CallFailed)), RecordFailed(id, Landed)) ==
            s.(runners := s.runners[id := r.(phase := Done)],
               sends := s.sends[r.target := Send(Failed(Some(CallFailed)), r.attempts)],
               thrown := s.thrown + [(r.target, r.attempts)])
    ensures Punctual(s) ==> Punctual(Step(s, Post(id, ThrewUnsent, CallFailed)))
  {
    var s1 := Step(s, Post(id, ThrewUnsent, CallFailed));
    var s2 := Step(s1, RecordFailed(id, Landed));
    assert s2.runners == s.runners[id := s.runners[id].(phase := Done)];
  }

  /** The four steps of a failing run, and where they lead. */
  lemma FailingRun(s: State, id: nat, t: Target) returns (run: seq<Action>, states: seq<State>)
    requires Idle(s, id) && CountOf(s, t) < NOTIFICATION_DISPATCH_MAX_ATTEMPTS - 1
    ensures |run| == 4 && |states| == 5 && states[0] == s
    ensures forall i | 0 <= i < 4 :: Enabled(states[i], run[i]) && states[i + 1] == Step(states[i], run[i])
    ensures Orderly(states, run)
    ensures states[4] == s.(runners := s.runners[id := Runner(t, s.now, CountOf(s, t) + 1, Done)],
                            sends := s.sends[t := Send(Failed(Some(CallFailed)), CountOf(s, t) + 1)],
                            thrown := s.thrown + [(t, CountOf(s, t) + 1)])
  {
    ClaimAfterFailure(s, id, t);
    var begin, claim, post, fail := Begin(id, t), Claim(id, false, Landed), Post(id, ThrewUnsent, CallFailed), RecordFailed(id, Landed);
    var s1 := Step(s, begin);
    var s2 := Step(s1, claim);
    FailAfterClaim(s2, id);
    var s3 := Step(s2, post);
    var s4 := Step(s3, fail);
    assert s4.runners == s.runners[id := Runner(t, s.now, CountOf(s, t) + 1, Done)];
    assert s4.sends == s.sends[t := Send(Failed(Some(CallFailed)), CountOf(s, t) + 1)];
    run, states := [begin, claim, post, fail], [s, s1, s2, s3, s4];
  }

  lemma BegunOneMore(s: State, s': State, id: nat, r: Runner)
    requires id !in s.runners && s'.runners == s.runners[id := r]
    ensures Begun(s') == Begun(s) + {r.target}
  {
    forall t | t in Begun(s) ensures t in Begun(s') {
      var k :| k in s.runners && s.runners[k].target == t;
      assert s'.runners[k].target == t;
    }
    assert s'.runners[id].target == r.target;
  }

  /** One more failing run on `t`, after a trace. */
  lemma OneMoreFailure(states: seq<State>, run: seq<Action>, runs: nat, t: Target)
    returns (states': seq<State>, run': seq<Action>)
    requires Trace(states, run) && Orderly(states, run) && Idle(states[|run|], runs)
    requires CountOf(states[|run|], t) < NOTIFICATION_DISPATCH_MAX_ATTEMPTS - 1
    ensures Trace(states', run') && Orderly(states', run')
    ensures var s, s' := states[|run|], states'[|run'|];
            && Idle(s', runs + 1) && Begun(s') == Begun(s) + {t}
            && s'.sends == s.sends[t := Send(Failed(Some(CallFailed)), CountOf(s, t) + 1)]
            && |s'.thrown| == |s.thrown| + 1
  {
    var s := states[|run|];
    var steps, after := FailingRun(s, runs, t);
    states', run' := states, run;
    for i := 0 to 4
      invariant Trace(states', run') && Orderly(states', run') && states'[|run'|] == after[i]
    {
      OneStepMore(states', run', steps[i]);
      states', run' := states' + [Step(after[i], steps[i])], run' + [steps[i]];
    }
    BegunOneMore(s, after[4], runs, after[4].runners[runs]);
  }

  /** Four failing runs spend the attempts of a target never run on before. */
  lemma FourFailures(states: seq<State>, run: seq<Action>, runs: nat, t: Target)
    returns (states': seq<State>, run': seq<Action>)
    requires Trace(states, run) && Orderly(states, run) && Idle(states[|run|], runs) && t !in states[|run|].sends
    ensures Trace(states', run') && Orderly(states', run')
    ensures var s, s' := states[|run|], states'[|run'|];
            && Idle(s', runs + 4) && Begun(s') == Begun(s) + {t} && s'.sends.Keys == s.sends.Keys + {t}
            && |s'.thrown| == |s.thrown| + 4
  {
    states', run' := OneMoreFailure(states, run, runs, t);
    states', run' := OneMoreFailure(states', run', runs + 1, t);
    states', run' := OneMoreFailure(states', run', runs + 2, t);
    states', run' := OneMoreFailure(states', run', runs + 3, t);
  }

  /** The bound is reached for every number of targets, even where each run ends before the
      next begins: re-pointing the connection starts a fresh count of four. */
  lemma {:induction false} ThrowsReachBound(targets: set<Target>) returns (states: seq<State>, run: seq<Action>, runs: nat)
    ensures Trace(states, run) && Orderly(states, run) && Idle(states[|run|], runs)
    ensures Begun(states[|run|]) == targets && states[|run|].sends.Keys == targets
    ensures |states[|run|].thrown| == (NOTIFICATION_DISPATCH_MAX_ATTEMPTS - 1) * |targets|
  {
    if targets == {} {
      states, run, runs := [Start()], [], 0;
    } else {
      var t :| t in targets;
      states, run, runs := ThrowsReachBound(targets - {t});
      states, run := FourFailures(states, run, runs, t);
      runs := runs + 4;
    }
  }
}
