/** Any number of dispatch jobs running their code at once for one notification: each makes the
    calls of its own script one at a time, with any other run, the clock or a crash in between.
    Every such run is a run of the dispatch protocol. */
module DispatchSystem {
  import opened Common
  import opened Sends
  import opened DispatchTask
  import P = DispatchProtocol
  import B = DispatchBounds
  import R = DispatchRetries

  /** A run past its settled guard: its clock was read there, `made` calls are made, and
      `granted` and `attempts` are what its claim answered once made. */
  datatype Running = Running(target: Target, at: int, h: Happens, made: nat, granted: bool, attempts: nat, alive: bool)

  /** `delivered` are the messages in the channels; `lost` those whose run died before its
      receipt, whose poster threw after sending, or whose receipt was not stored. `thrown` are
      the retries owed as (target, attempt), from the moment the failed receipt is committed. */
  datatype System = System(
    now: int, sends: map<Target, Send>, runs: map<nat, Running>,
    delivered: multiset<Target>, lost: multiset<Target>, thrown: seq<(Target, nat)>)

  datatype Event =
    | Advance(to: int)
    | Begin(id: nat, h: Happens)
    | Next(id: nat)
    | Crash(id: nat)

  /** The calls of a run past its guard, as DispatchTask.CallsOf lists them. */
  function ScriptOf(r: Running): seq<Call> {
    if r.target == NO_TARGET then [OutcomeCall(NO_TARGET, Quiet(NoChannel), r.h.outcomeWrite)]
    else Script(r.target, r.granted, r.h)
  }

  function NextCall(r: Running): Option<Call> {
    if r.alive && r.made < |ScriptOf(r)| then Some(ScriptOf(r)[r.made]) else None
  }

  /** Where the run stands in the protocol; a health write left to make is past its end. */
  function PhaseOf(r: Running): P.Phase {
    var calls := ScriptOf(r);
    if !r.alive || r.made >= |calls| || calls[r.made].HealthCall? then P.Done
    else if r.made == 0 then P.Ready
    else if calls[r.made - 1].ClaimCall? then P.Holding
    else if r.h.answer.Accepted? then P.PostAccepted
    else P.MustFail(FailureOf(r.h))
  }

  /** A run begins past its guards; a connected channel has a name. */
  ghost predicate Possible(s: System, e: Event) {
    match e
    case Advance(to) => s.now <= to
    case Begin(id, h) =>
      && id !in s.runs && h.contextFound && h.notificationFound && !AnySettled(s.sends)
      && h.now == s.now && h.channel != Some(NO_TARGET)
    case Next(id) => id in s.runs && NextCall(s.runs[id]).Some?
    case Crash(id) => id in s.runs && NextCall(s.runs[id]).Some?
  }

  /** What a claim finds: granted, and the attempt it would be. */
  function ClaimAnswer(s: System, r: Running): Option<nat> {
    var stale := ClaimsExpireBefore(r.at);
    if ClaimGranted(SendAt(s.sends, r.target), r.h.repaired, stale)
    then Some(ClaimSend(SendAt(s.sends, r.target), r.h.repaired, r.at, stale).value.attempts)
    else None
  }

  /** The run after a call. */
  function After(s: System, r: Running, call: Call): Running {
    if call.ClaimCall? then
      var answer := ClaimAnswer(s, r);
      r.(made := 1, granted := answer.Some?,
         attempts := if answer.Some? && !call.write.Threw() then answer.value else 0)
    else r.(made := r.made + 1)
  }

  /** The calls of the system are those of the code: the first a run makes is the first of its
      job over the receipts as they stand, and the rest follow in order, by what its claim found. */
  lemma NextIsTheCodes(s: System, id: nat, h: Happens)
    requires id in s.runs && s.runs[id].alive && s.runs[id].h == h && WellRun(s.runs[id]) && h.channel != Some(NO_TARGET)
    ensures var r, calls := s.runs[id], CallsOf(s.sends, h);
            r.made == 0 && calls != [] ==>
              NextCall(r) == Some(calls[0]) && (calls[0].ClaimCall? ==> After(s, r, calls[0]).granted == Granted(s.sends, h))
    ensures forall sends | CallsOf(sends, h) != [] && Granted(sends, h) == s.runs[id].granted ::
              NextCall(s.runs[id]) == if s.runs[id].made < |CallsOf(sends, h)| then Some(CallsOf(sends, h)[s.runs[id].made]) else None
  {
  }

  predicate OwesRetry(r: Running, call: Call) {
    call.OutcomeCall? && call.outcome.Failed? && !call.write.Threw() && P.OwedRetry(FailureOf(r.h), r.attempts)
  }

  ghost function Happen(s: System, e: Event): System
    requires Possible(s, e)
  {
    match e
    case Advance(to) => s.(now := to)
    case Begin(id, h) => s.(runs := s.runs[id := Running(TargetOf(h), h.now, h, 0, false, 0, true)])
    case Next(id) =>
      var r := s.runs[id];
      var call := NextCall(r).value;
      System(s.now, ApplyCall(s.sends, call), s.runs[id := After(s, r, call)],
             if call.PostCall? && call.answer.Delivered() then s.delivered + multiset{r.target} else s.delivered,
             if (call.PostCall? && call.answer.ThrewSent?)
                || (call.OutcomeCall? && call.outcome.Sent? && !call.write.Stored())
             then s.lost + multiset{r.target} else s.lost,
             if OwesRetry(r, call) then s.thrown + [(r.target, r.attempts)] else s.thrown)
    case Crash(id) =>
      var r := s.runs[id];
      s.(runs := s.runs[id := r.(alive := false)],
         lost := if PhaseOf(r).PostAccepted? then s.lost + multiset{r.target} else s.lost)
  }

  ghost predicate SystemRun(states: seq<System>, events: seq<Event>) {
    && |states| == |events| + 1
    && states[0].sends == map[] && states[0].runs == map[]
    && states[0].delivered == multiset{} && states[0].lost == multiset{} && states[0].thrown == []
    && forall i | 0 <= i < |events| :: Possible(states[i], events[i]) && states[i + 1] == Happen(states[i], events[i])
  }

  function RunnerOf(r: Running): P.Runner {
    P.Runner(r.target, r.at, r.attempts, PhaseOf(r))
  }

  /** The protocol's state: quiet receipts, and the runs that leave them, are no part of it. */
  ghost function View(s: System): P.State {
    P.State(s.now, s.sends - {NO_TARGET},
            map id | id in s.runs && s.runs[id].target != NO_TARGET :: RunnerOf(s.runs[id]),
            s.delivered, s.lost, s.thrown)
  }

  /** `v'` is where the actions lead from `v`. */
  ghost predicate Via(v: P.State, actions: seq<P.Action>, v': P.State)
    decreases |actions|
  {
    if actions == [] then v' == v
    else P.Enabled(v, actions[0]) && Via(P.Step(v, actions[0]), actions[1..], v')
  }

  lemma OneAction(v: P.State, a: P.Action, v': P.State)
    requires P.Enabled(v, a) && P.Step(v, a) == v'
    ensures Via(v, [a], v')
  {
    assert [a][1..] == [];
  }

  lemma TwoActions(v: P.State, a: P.Action, b: P.Action, v': P.State)
    requires P.Enabled(v, a) && P.Enabled(P.Step(v, a), b) && P.Step(P.Step(v, a), b) == v'
    ensures Via(v, [a, b], v')
  {
    OneAction(P.Step(v, a), b, v');
    assert [a, b][1..] == [b];
  }

  /** Every run in the system has its script's own clock, and is where a run can be. */
  predicate WellRun(r: Running) {
    && r.h.now == r.at && r.target == TargetOf(r.h)
    && (r.made == 0 ==> r.attempts == 0)
  }

  ghost predicate AllWellRun(s: System) {
    forall id | id in s.runs :: WellRun(s.runs[id])
  }

  lemma HappenKeepsWellRun(s: System, e: Event)
    requires Possible(s, e) && AllWellRun(s)
    ensures AllWellRun(Happen(s, e))
  {
  }

  /** The protocol actions a call stands for: a claim whose run then dies before any other call
      is also a crash, and a missing poster is the step that makes its failure. */
  function ActionsOf(s: System, id: nat, r: Running, call: Call): seq<P.Action> {
    match call
    case ClaimCall(_, repaired, _, write) =>
      if ClaimAnswer(s, r).Some? && !write.Threw() && Delivery(r.target, r.h) == []
      then [P.Claim(id, repaired, write), P.Crash(id)]
      else [P.Claim(id, repaired, write)]
    case PostCall(answer) => [P.Post(id, answer, r.h.refusal)]
    case OutcomeCall(_, outcome, write) =>
      if outcome.Sent? then [P.RecordSent(id, write)]
      else if r.h.poster.Missing? then [P.NoPoster(id), P.RecordFailed(id, write)]
      else [P.RecordFailed(id, write)]
    case HealthCall(_) => []
  }

  /** Each call of a script is made from the phase that allows it and leads to the phase that
      owes the next one. */
  lemma PhaseMoves(s: System, r: Running)
    requires NextCall(r).Some? && r.target != NO_TARGET && WellRun(r)
    ensures var from, to := PhaseOf(r), PhaseOf(After(s, r, NextCall(r).value));
            match NextCall(r).value
            case ClaimCall(target, repaired, at, write) =>
              && r.made == 0 && from.Ready? && target == r.target && at == r.at && repaired == r.h.repaired
              && to == if ClaimAnswer(s, r).Some? && !write.Threw() && Delivery(r.target, r.h) != [] then P.Holding else P.Done
            case PostCall(answer) =>
              && from.Holding? && answer == r.h.answer && r.h.poster.Found?
              && to == if answer.Accepted? then P.PostAccepted else P.MustFail(FailureOf(r.h))
            case OutcomeCall(target, outcome, write) =>
              && target == r.target && to.Done?
              && (if outcome.Sent? then from.PostAccepted?
                  else outcome == Failed(Some(FailureOf(r.h)))
                       && from == if r.h.poster.Missing? then P.Holding else P.MustFail(FailureOf(r.h)))
            case HealthCall(_) => from.Done? && to.Done?
  {
  }

  /** The protocol's state after a call by run `id`, which the call leaves as `after`. */
  ghost function Moved(v: P.State, id: nat, r: Running, after: Running, call: Call): P.State {
    P.State(v.now, ApplyCall(v.sends, call), v.runners[id := RunnerOf(after)],
            if call.PostCall? && call.answer.Delivered() then v.delivered + multiset{r.target} else v.delivered,
            if (call.PostCall? && call.answer.ThrewSent?)
               || (call.OutcomeCall? && call.outcome.Sent? && !call.write.Stored())
            then v.lost + multiset{r.target} else v.lost,
            if OwesRetry(r, call) then v.thrown + [(r.target, r.attempts)] else v.thrown)
  }

  /** The receipts of the protocol move with those of the store. */
  lemma CallMovesSends(sends: map<Target, Send>, call: Call)
    requires call.ClaimCall? || call.OutcomeCall? ==> call.target != NO_TARGET
    ensures ApplyCall(sends, call) - {NO_TARGET} == ApplyCall(sends - {NO_TARGET}, call)
    ensures call.ClaimCall? || call.OutcomeCall? ==> SendAt(sends - {NO_TARGET}, call.target) == SendAt(sends, call.target)
  {
  }

  /** A call moves its own runner and no other. */
  lemma NextMovesRunners(s: System, id: nat)
    requires Possible(s, Next(id)) && s.runs[id].target != NO_TARGET
    ensures var r := s.runs[id];
            var v, v' := View(s), View(Happen(s, Next(id)));
            && id in v.runners && v.runners[id] == RunnerOf(r)
            && v'.runners == v.runners[id := RunnerOf(After(s, r, NextCall(r).value))]
  {
  }

  /** And its own receipt and no other. */
  lemma NextMovesView(s: System, id: nat)
    requires Possible(s, Next(id)) && AllWellRun(s) && s.runs[id].target != NO_TARGET
    ensures var r := s.runs[id];
            var call := NextCall(r).value;
            && id in View(s).runners && View(s).runners[id] == RunnerOf(r)
            && View(s).At(r.target) == SendAt(s.sends, r.target)
            && View(Happen(s, Next(id))) == Moved(View(s), id, r, After(s, r, call), call)
  {
    var r := s.runs[id];
    NextMovesRunners(s, id);
    PhaseMoves(s, r);
    CallMovesSends(s.sends, NextCall(r).value);
  }

  /** The calls of a run are steps of the protocol. */
  ghost predicate CallIsSteps(s: System, id: nat)
    requires Possible(s, Next(id))
  {
    Via(View(s), ActionsOf(s, id, s.runs[id], NextCall(s.runs[id]).value), View(Happen(s, Next(id))))
  }

  /** A claim in the protocol, which moves the receipt as the store does. */
  lemma ClaimIsMoved(s: System, id: nat)
    requires Possible(s, Next(id)) && AllWellRun(s)
    requires s.runs[id].target != NO_TARGET && NextCall(s.runs[id]).value.ClaimCall?
    ensures var r, call := s.runs[id], NextCall(s.runs[id]).value;
            var a := P.Claim(id, call.repaired, call.write);
            var answer := ClaimAnswer(s, r);
            && P.Enabled(View(s), a)
            && P.Step(View(s), a) ==
               Moved(View(s), id, r, After(s, r, call), call).(runners := View(s).runners[id :=
                 RunnerOf(After(s, r, call)).(phase := if answer.Some? && !call.write.Threw() then P.Holding else P.Done)])
  {
    PhaseMoves(s, s.runs[id]);
    NextMovesView(s, id);
  }

  lemma ClaimIsSteps(s: System, id: nat)
    requires Possible(s, Next(id)) && AllWellRun(s)
    requires s.runs[id].target != NO_TARGET && NextCall(s.runs[id]).value.ClaimCall?
    ensures CallIsSteps(s, id)
  {
    var r := s.runs[id];
    var call := NextCall(r).value;
    var v, v' := View(s), View(Happen(s, Next(id)));
    PhaseMoves(s, r);
    NextMovesView(s, id);
    ClaimIsMoved(s, id);
    var claim := P.Claim(id, call.repaired, call.write);
    var v1 := P.Step(v, claim);
    if ClaimAnswer(s, r).Some? && !call.write.Threw() && Delivery(r.target, r.h) == [] {
      assert v'.runners == v1.runners[id := v'.runners[id]];
      TwoActions(v, claim, P.Crash(id), v');
    } else {
      OneAction(v, claim, v');
    }
  }

  lemma PostIsMoved(v: P.State, id: nat, r: Running, after: Running, call: Call)
    requires call.PostCall? && id in v.runners && v.runners[id] == RunnerOf(r) && PhaseOf(r).Holding?
    requires RunnerOf(after) == RunnerOf(r).(phase := if call.answer.Accepted? then P.PostAccepted else P.MustFail(FailureOf(r.h)))
    requires call.answer == r.h.answer && r.h.poster.Found?
    ensures P.Enabled(v, P.Post(id, call.answer, r.h.refusal))
    ensures P.Step(v, P.Post(id, call.answer, r.h.refusal)) == Moved(v, id, r, after, call)
  {
  }

  lemma PostIsStep(s: System, id: nat)
    requires Possible(s, Next(id)) && AllWellRun(s)
    requires s.runs[id].target != NO_TARGET && NextCall(s.runs[id]).value.PostCall?
    ensures CallIsSteps(s, id)
  {
    var r := s.runs[id];
    PhaseMoves(s, r);
    NextMovesView(s, id);
    var call := NextCall(r).value;
    PostIsMoved(View(s), id, r, After(s, r, call), call);
    OneAction(View(s), P.Post(id, call.answer, r.h.refusal), View(Happen(s, Next(id))));
  }

  /** Recording an outcome in the protocol, from the phase that owes it. */
  lemma RecordIsMoved(v: P.State, id: nat, r: Running, after: Running, call: Call)
    requires call.OutcomeCall? && call.target == r.target && id in v.runners
    requires RunnerOf(after) == RunnerOf(r).(phase := P.Done)
    requires if call.outcome.Sent? then v.runners[id] == RunnerOf(r).(phase := P.PostAccepted)
             else call.outcome == Failed(Some(FailureOf(r.h)))
                  && v.runners[id] == RunnerOf(r).(phase := P.MustFail(FailureOf(r.h)))
    ensures var a := if call.outcome.Sent? then P.RecordSent(id, call.write) else P.RecordFailed(id, call.write);
            P.Enabled(v, a) && P.Step(v, a) == Moved(v, id, r, after, call)
  {
    assert v.At(r.target) == SendAt(v.sends, r.target);
  }

  /** A missing poster makes the failure and records it at once. */
  lemma NoPosterIsMoved(v: P.State, id: nat, r: Running, after: Running, call: Call)
    requires call.OutcomeCall? && call.target == r.target && id in v.runners
    requires RunnerOf(after) == RunnerOf(r).(phase := P.Done)
    requires r.h.poster.Missing? && call.outcome == Failed(Some(FailureOf(r.h)))
    requires v.runners[id] == RunnerOf(r).(phase := P.Holding)
    ensures Via(v, [P.NoPoster(id), P.RecordFailed(id, call.write)], Moved(v, id, r, after, call))
  {
    var v1 := P.Step(v, P.NoPoster(id));
    RecordIsMoved(v1, id, r, after, call);
    assert v1.runners[id := RunnerOf(after)] == v.runners[id := RunnerOf(after)];
    TwoActions(v, P.NoPoster(id), P.RecordFailed(id, call.write), Moved(v, id, r, after, call));
  }

  lemma OutcomeIsSteps(s: System, id: nat)
    requires Possible(s, Next(id)) && AllWellRun(s)
    requires s.runs[id].target != NO_TARGET && NextCall(s.runs[id]).value.OutcomeCall?
    ensures CallIsSteps(s, id)
  {
    var r := s.runs[id];
    var call := NextCall(r).value;
    var v, v' := View(s), View(Happen(s, Next(id)));
    PhaseMoves(s, r);
    NextMovesView(s, id);
    if call.outcome.Sent? {
      RecordIsMoved(v, id, r, After(s, r, call), call);
      OneAction(v, P.RecordSent(id, call.write), v');
    } else if r.h.poster.Missing? {
      NoPosterIsMoved(v, id, r, After(s, r, call), call);
    } else {
      RecordIsMoved(v, id, r, After(s, r, call), call);
      OneAction(v, P.RecordFailed(id, call.write), v');
    }
  }

  /** Whatever others did since its last call, the next call of a run is enabled in the
      protocol, and makes the very steps there that it makes on the receipts. */
  lemma NextIsSteps(s: System, id: nat)
    requires Possible(s, Next(id)) && AllWellRun(s) && s.runs[id].target != NO_TARGET
    ensures CallIsSteps(s, id)
  {
    match NextCall(s.runs[id]).value
    case ClaimCall(_, _, _, _) => ClaimIsSteps(s, id);
    case PostCall(_) => PostIsStep(s, id);
    case OutcomeCall(_, _, _) => OutcomeIsSteps(s, id);
    case HealthCall(_) =>
      PhaseMoves(s, s.runs[id]);
      NextMovesView(s, id);
      assert View(s).runners[id := RunnerOf(s.runs[id])] == View(s).runners;
  }

  lemma QuietMovesNoRunner(s: System, e: Event)
    requires Possible(s, e) && (e.Next? || e.Crash?) && s.runs[e.id].target == NO_TARGET
    ensures View(Happen(s, e)).runners == View(s).runners
  {
  }

  /** A run without a channel moves nothing the protocol sees. */
  lemma QuietStutters(s: System, e: Event)
    requires Possible(s, e) && AllWellRun(s) && (e.Next? || e.Crash?) && s.runs[e.id].target == NO_TARGET
    ensures View(Happen(s, e)) == View(s)
  {
    QuietMovesNoRunner(s, e);
    assert View(Happen(s, e)).sends == View(s).sends;
  }

  lemma CrashMovesRunners(s: System, id: nat)
    requires Possible(s, Crash(id)) && s.runs[id].target != NO_TARGET
    ensures var v, v' := View(s), View(Happen(s, Crash(id)));
            && id in v.runners && v.runners[id] == RunnerOf(s.runs[id])
            && v'.runners == v.runners[id := RunnerOf(s.runs[id]).(phase := P.Done)]
  {
  }

  /** A crash after the outcome is stored moves nothing either. */
  lemma CrashIsSteps(s: System, id: nat)
    requires Possible(s, Crash(id)) && s.runs[id].target != NO_TARGET
    ensures Via(View(s), if PhaseOf(s.runs[id]).Done? then [] else [P.Crash(id)], View(Happen(s, Crash(id))))
  {
    CrashMovesRunners(s, id);
  }

  lemma BeginIsSteps(s: System, e: Event)
    requires Possible(s, e) && e.Begin?
    ensures Via(View(s), if e.h.channel.None? then [] else [P.Begin(e.id, e.h.channel.value)], View(Happen(s, e)))
  {
    var v, v' := View(s), View(Happen(s, e));
    assert forall t | t in v.sends :: t in s.sends && v.sends[t] == s.sends[t];
    if e.h.channel.None? {
      assert v'.runners == v.runners;
    } else {
      assert v'.runners == v.runners[e.id := P.Runner(e.h.channel.value, s.now, 0, P.Ready)];
    }
  }

  // ------------------------------------------------------------- whole runs

  /** Messages and receipts agree: what every punctual event keeps. */
  ghost predicate Sound(v: P.State) {
    P.AllTargets(v) && B.Excess(v)
  }

  /** Attempt numbers and throws agree: what every event keeps. */
  ghost predicate Counted(v: P.State) {
    R.ThrowInv(v) && R.ThrownWasBegun(v)
  }

  lemma StepKeepsSound(v: P.State, a: P.Action)
    requires P.Enabled(v, a) && Sound(v) && (a.Claim? ==> P.Punctual(v))
    ensures Sound(P.Step(v, a))
  {
    var v' := P.Step(v, a);
    forall t: Target ensures P.TargetInv(v', t) {
      assert P.TargetInv(v, t);
      P.StepKeepsTargetInv(v, a, t);
    }
    B.StepKeepsExcess(v, a);
  }

  /** Only the first of the actions may be a claim or a begin. */
  ghost predicate LateOnly(actions: seq<P.Action>) {
    forall i | 0 < i < |actions| :: !actions[i].Claim? && !actions[i].Begin?
  }

  lemma {:induction false} ViaKeepsSound(v: P.State, actions: seq<P.Action>, v': P.State)
    requires Via(v, actions, v') && Sound(v) && P.Punctual(v) && LateOnly(actions)
    ensures Sound(v')
    decreases |actions|
  {
    if actions != [] {
      StepKeepsSound(v, actions[0]);
      ViaEndKeepsSound(P.Step(v, actions[0]), actions[1..], v');
    }
  }

  lemma {:induction false} ViaEndKeepsSound(v: P.State, actions: seq<P.Action>, v': P.State)
    requires Via(v, actions, v') && Sound(v) && forall a | a in actions :: !a.Claim?
    ensures Sound(v')
    decreases |actions|
  {
    if actions != [] {
      StepKeepsSound(v, actions[0]);
      ViaEndKeepsSound(P.Step(v, actions[0]), actions[1..], v');
    }
  }

  lemma {:induction false} ViaKeepsCounted(v: P.State, actions: seq<P.Action>, v': P.State)
    requires Via(v, actions, v') && Counted(v)
    ensures Counted(v')
    decreases |actions|
  {
    if actions != [] {
      R.StepKeepsThrowInv(v, actions[0]);
      R.StepKeepsThrownBegun(v, actions[0]);
      ViaKeepsCounted(P.Step(v, actions[0]), actions[1..], v');
    }
  }

  lemma {:induction false} ViaKeepsAllOn(v: P.State, actions: seq<P.Action>, v': P.State, t: Target) returns (t': Target)
    requires Via(v, actions, v') && Sound(v) && P.Punctual(v) && LateOnly(actions)
    requires B.AllOn(v, t) && (actions != [] ==> B.Alone(v, actions[0]))
    ensures B.AllOn(v', t')
  {
    t' := t;
    if actions != [] {
      B.StepKeepsAllOn(v, actions[0], t);
      StepKeepsSound(v, actions[0]);
      t' := B.NextOn(actions[0], t);
      ViaEndKeepsAllOn(P.Step(v, actions[0]), actions[1..], v', t');
    }
  }

  lemma {:induction false} ViaEndKeepsAllOn(v: P.State, actions: seq<P.Action>, v': P.State, t: Target)
    requires Via(v, actions, v') && Sound(v) && B.AllOn(v, t)
    requires forall a | a in actions :: !a.Claim? && !a.Begin?
    ensures B.AllOn(v', t)
    decreases |actions|
  {
    if actions != [] {
      B.StepKeepsAllOn(v, actions[0], t);
      StepKeepsSound(v, actions[0]);
      ViaEndKeepsAllOn(P.Step(v, actions[0]), actions[1..], v', t);
    }
  }

  /** The protocol actions an event stands for. */
  ghost function EventActions(s: System, e: Event): seq<P.Action>
    requires Possible(s, e)
  {
    match e
    case Advance(to) => [P.Advance(to)]
    case Begin(id, h) => if h.channel.None? then [] else [P.Begin(id, h.channel.value)]
    case Next(id) =>
      if s.runs[id].target == NO_TARGET then [] else ActionsOf(s, id, s.runs[id], NextCall(s.runs[id]).value)
    case Crash(id) => if s.runs[id].target == NO_TARGET || PhaseOf(s.runs[id]).Done? then [] else [P.Crash(id)]
  }

  /** Every event is a run of the protocol: at most two actions, of which the second ends a
      run. */
  lemma EventIsSteps(s: System, e: Event)
    requires Possible(s, e) && AllWellRun(s)
    ensures Via(View(s), EventActions(s, e), View(Happen(s, e)))
    ensures |EventActions(s, e)| <= 2 && LateOnly(EventActions(s, e))
  {
    match e
    case Advance(to) => assert View(Happen(s, e)) == P.Step(View(s), P.Advance(to));
    case Begin(_, _) => BeginIsSteps(s, e);
    case Next(id) => if s.runs[id].target == NO_TARGET { QuietStutters(s, e); } else { NextIsSteps(s, id); }
    case Crash(id) => if s.runs[id].target == NO_TARGET { QuietStutters(s, e); } else { CrashIsSteps(s, id); }
  }

  lemma {:induction false} RunKeepsWell(states: seq<System>, events: seq<Event>, n: nat)
    requires SystemRun(states, events) && n <= |events|
    ensures AllWellRun(states[n])
  {
    if n > 0 {
      RunKeepsWell(states, events, n - 1);
      HappenKeepsWellRun(states[n - 1], events[n - 1]);
    }
  }

  lemma {:induction false} RunKeepsSound(states: seq<System>, events: seq<Event>, n: nat)
    requires SystemRun(states, events) && n <= |events|
    requires forall i | 0 <= i < n :: P.Punctual(View(states[i]))
    ensures Sound(View(states[n]))
  {
    if n == 0 {
      EmptyIsSound(View(states[0]));
    } else {
      RunKeepsSound(states, events, n - 1);
      RunKeepsWell(states, events, n - 1);
      var s, e := states[n - 1], events[n - 1];
      EventIsSteps(s, e);
      ViaKeepsSound(View(s), EventActions(s, e), View(Happen(s, e)));
    }
  }

  lemma EmptyIsSound(v: P.State)
    requires P.Init(v)
    ensures Sound(v)
  {
    P.TraceKeepsAllTargets([v], [], 0);
    B.TraceKeepsExcess([v], [], 0);
  }

  lemma {:induction false} RunKeepsCounted(states: seq<System>, events: seq<Event>, n: nat)
    requires SystemRun(states, events) && n <= |events|
    ensures Counted(View(states[n]))
  {
    if n > 0 {
      RunKeepsCounted(states, events, n - 1);
      RunKeepsWell(states, events, n - 1);
      var s, e := states[n - 1], events[n - 1];
      EventIsSteps(s, e);
      ViaKeepsCounted(View(s), EventActions(s, e), View(Happen(s, e)));
    }
  }

  /** At most one message per target from the code itself, however the calls of any number of
      runs interleave, with time passing and crashes in between, while every run records
      within the claim lifetime. */
  lemma RunsReachTargetOnce(states: seq<System>, events: seq<Event>, n: nat, t: Target)
    requires SystemRun(states, events) && n <= |events|
    requires forall i | 0 <= i < n :: P.Punctual(View(states[i]))
    ensures states[n].delivered[t] <= 1 + states[n].lost[t]
  {
    RunKeepsSound(states, events, n);
    SoundBounds(View(states[n]), t);
  }

  lemma SoundBounds(v: P.State, t: Target)
    requires Sound(v)
    ensures v.delivered[t] <= 1 + v.lost[t]
  {
    assert P.TargetInv(v, t);
    if k :| k in v.runners && v.runners[k].target == t && v.runners[k].phase.PostAccepted? {
      assert P.InFlightOn(v, k, t);
    }
  }

  /** A run begins while every run still at work is on its own channel. */
  ghost predicate AloneAtBegin(s: System, e: Event) {
    e.Begin? && e.h.channel.Some? ==> B.Alone(View(s), P.Begin(e.id, e.h.channel.value))
  }

  lemma CallsBeginNothing(s: System, id: nat, r: Running, call: Call)
    ensures forall i | 0 <= i < |ActionsOf(s, id, r, call)| :: !ActionsOf(s, id, r, call)[i].Begin?
  {
  }

  lemma FirstActionAlone(s: System, e: Event)
    requires Possible(s, e) && AloneAtBegin(s, e) && EventActions(s, e) != []
    ensures B.Alone(View(s), EventActions(s, e)[0])
  {
    if e.Next? { CallsBeginNothing(s, e.id, s.runs[e.id], NextCall(s.runs[e.id]).value); }
    if !e.Begin? { assert !EventActions(s, e)[0].Begin?; }
  }

  lemma EventKeepsAllOn(s: System, e: Event, t: Target) returns (t': Target)
    requires Possible(s, e) && AllWellRun(s) && Sound(View(s)) && P.Punctual(View(s))
    requires AloneAtBegin(s, e) && B.AllOn(View(s), t)
    ensures B.AllOn(View(Happen(s, e)), t')
  {
    EventIsSteps(s, e);
    var v, actions, v' := View(s), EventActions(s, e), View(Happen(s, e));
    if actions != [] { FirstActionAlone(s, e); }
    t' := ViaKeepsAllOn(v, actions, v', t);
  }

  lemma {:induction false} RunKeepsAllOn(states: seq<System>, events: seq<Event>, n: nat) returns (t: Target)
    requires SystemRun(states, events) && n <= |events|
    requires forall i | 0 <= i < n :: P.Punctual(View(states[i])) && AloneAtBegin(states[i], events[i])
    ensures B.AllOn(View(states[n]), t)
  {
    t := "";
    if n > 0 {
      t := RunKeepsAllOn(states, events, n - 1);
      RunKeepsSound(states, events, n - 1);
      RunKeepsWell(states, events, n - 1);
      t := EventKeepsAllOn(states[n - 1], events[n - 1], t);
    }
  }

  /** At most one message per notification from the code itself, across re-points that leave no
      run at work on the old channel. */
  lemma RunsReachOnce(states: seq<System>, events: seq<Event>, n: nat)
    requires SystemRun(states, events) && n <= |events|
    requires forall i | 0 <= i < n :: P.Punctual(View(states[i])) && AloneAtBegin(states[i], events[i])
    ensures |states[n].delivered| <= 1 + |states[n].lost|
  {
    RunKeepsSound(states, events, n);
    var t := RunKeepsAllOn(states, events, n);
    B.AllOnReachesOne(View(states[n]), t);
  }

  /** The channels any run was begun on. */
  ghost function Channels(s: System): set<Target> {
    R.Begun(View(s))
  }

  /** At most four retries are owed for each channel a run was ever begun on, from the code
      itself and with no condition on time or crashes. */
  lemma RunsThrowBounded(states: seq<System>, events: seq<Event>, n: nat, t: Target)
    requires SystemRun(states, events) && n <= |events|
    ensures R.ThrowsFor(states[n].thrown, t) <= NOTIFICATION_DISPATCH_MAX_ATTEMPTS - 1
    ensures |states[n].thrown| <= (NOTIFICATION_DISPATCH_MAX_ATTEMPTS - 1) * |Channels(states[n])|
  {
    RunKeepsCounted(states, events, n);
    R.CountedBounds(View(states[n]), t);
  }
}
