/** Any number of delivery ticks racing for one (finding, channel): a shared row, a clock,
    ticks that start, claim, post, record or die, and a count of what reached the channel. */
module DeliveryProtocol {
  import opened Common
  import opened Deliveries

  /** `MustFail` owes the row a `markFailed`: the post was refused or threw, or the
      `markPosted` threw. `Done` covers a finished tick and a dead one. */
  datatype Phase = Started | Holding | PostAccepted | MustFail | Done

  datatype Tick = Tick(tickAt: int, phase: Phase)
  {
    predicate InFlight() {
      phase.Holding? || phase.PostAccepted? || phase.MustFail?
    }
  }

  /** `delivered` counts messages in the channel; `lost` counts those whose tick died,
      whose poster threw after sending, or whose `markPosted` stored nothing. */
  datatype State = State(now: int, row: Option<Row>, ticks: map<nat, Tick>, delivered: nat, lost: nat)
  {
    ghost predicate Phase(id: nat, phase: Phase) {
      id in ticks && ticks[id].phase == phase
    }
  }

  datatype Action =
    | Advance(to: int)
    | Start(id: nat)
    | Claim(id: nat, write: Write)
    | Post(id: nat, answer: PostAnswer)
    | RecordPosted(id: nat, write: Write)
    | RecordFailed(id: nat, reason: Reason, write: Write)
    | Crash(id: nat)

  ghost predicate Enabled(s: State, a: Action) {
    match a
    case Advance(to) => s.now <= to
    case Start(id) => id !in s.ticks
    case Claim(id, _) => s.Phase(id, Started)
    case Post(id, _) => s.Phase(id, Holding)
    case RecordPosted(id, _) => s.Phase(id, PostAccepted)
    // Straight after the claim when the message could not be prepared.
    case RecordFailed(id, _, _) => s.Phase(id, MustFail) || s.Phase(id, Holding)
    case Crash(id) => id in s.ticks && s.ticks[id].phase != Done
  }

  ghost function Move(s: State, id: nat, phase: Phase): State
    requires id in s.ticks
  {
    s.(ticks := s.ticks[id := s.ticks[id].(phase := phase)])
  }

  ghost function Step(s: State, a: Action, projectId: string): State
    requires Enabled(s, a)
  {
    match a
    case Advance(to) => s.(now := to)
    case Start(id) => s.(ticks := s.ticks[id := Tick(s.now, Started)])
    case Claim(id, write) =>
      // Both instants of the claim come from the tick's start, however late the claim runs.
      var at := s.ticks[id].tickAt;
      var granted := ClaimGranted(s.row, ClaimsExpireBefore(at));
      var row := if write.Stored() then ClaimRow(s.row, projectId, at, ClaimsExpireBefore(at)) else s.row;
      Move(s.(row := row), id, if granted && !write.Threw() then Holding else Done)
    case Post(id, answer) =>
      var s1 := if answer.Delivered() then s.(delivered := s.delivered + 1) else s;
      var s2 := if answer.ThrewSent? then s1.(lost := s1.lost + 1) else s1;
      Move(s2, id, if answer.Accepted? then PostAccepted else MustFail)
    case RecordPosted(id, write) =>
      var s1 := if write.Stored() then s.(row := MarkPostedRow(s.row, s.now)) else s.(lost := s.lost + 1);
      Move(s1, id, if write.Threw() then MustFail else Done)
    case RecordFailed(id, reason, write) =>
      var s1 := if write.Stored() then s.(row := MarkFailedRow(s.row, reason)) else s;
      Move(s1, id, Done)
    case Crash(id) =>
      var s1 := if s.ticks[id].phase.PostAccepted? then s.(lost := s.lost + 1) else s;
      Move(s1, id, Done)
  }

  ghost predicate Init(s: State) {
    s.row.None? && s.ticks == map[] && s.delivered == 0 && s.lost == 0
  }

  /** Every tick between its claim and its record is still within the claim lifetime of the
      instant it stamped on the row. */
  ghost predicate Punctual(s: State) {
    forall id | id in s.ticks && s.ticks[id].InFlight() :: s.now <= s.ticks[id].tickAt + DELIVERY_CLAIM_TTL_MS
  }

  /** A run and the states it passes through. */
  ghost predicate Trace(states: seq<State>, run: seq<Action>, projectId: string) {
    && |states| == |run| + 1
    && Init(states[0])
    && (forall i | 0 <= i < |run| :: Enabled(states[i], run[i]) && states[i + 1] == Step(states[i], run[i], projectId))
  }

  ghost predicate Exclusive(s: State) {
    forall a, b | a in s.ticks && s.ticks[a].InFlight() && b in s.ticks && s.ticks[b].InFlight() :: a == b
  }

  /** What an in-flight tick knows about the row. */
  ghost predicate LeaseMatches(s: State) {
    forall id | id in s.ticks && s.ticks[id].InFlight() ::
      && s.row.Some?
      && ((s.row.value.Pending? && s.row.value.claimedAt == s.ticks[id].tickAt)
          || (s.ticks[id].phase.MustFail? && s.row.value.Posted?))
  }

  ghost predicate SomeoneAccepted(s: State) {
    exists id :: s.Phase(id, PostAccepted)
  }

  /** Where each delivered message is accounted for: on the row, in a tick's hands, or lost. */
  ghost predicate Accounted(s: State) {
    s.delivered == s.lost
                   + (if s.row.Some? && s.row.value.Posted? then 1 else 0)
                   + (if SomeoneAccepted(s) then 1 else 0)
  }

  ghost predicate Inv(s: State) {
    && (forall id | id in s.ticks :: s.ticks[id].tickAt <= s.now)
    && Exclusive(s)
    && LeaseMatches(s)
    && Accounted(s)
  }

  /** The claim is the only step that can admit a second tick; a punctual holder shuts it. */
  lemma ClaimKeepsInv(s: State, id: nat, write: Write, projectId: string)
    requires Inv(s) && Punctual(s) && Enabled(s, Claim(id, write))
    ensures Inv(Step(s, Claim(id, write), projectId))
  {
    var at := s.ticks[id].tickAt;
    var t := Step(s, Claim(id, write), projectId);
    assert forall k | k in s.ticks && k != id :: t.ticks[k] == s.ticks[k];
    if ClaimGranted(s.row, ClaimsExpireBefore(at)) {
      forall h | h in s.ticks ensures !s.ticks[h].InFlight() {
        if s.ticks[h].InFlight() { assert false; }
      }
    }
    assert SomeoneAccepted(s) <==> SomeoneAccepted(t) by {
      assert forall k :: t.Phase(k, PostAccepted) <==> s.Phase(k, PostAccepted);
    }
  }

  lemma PostKeepsInv(s: State, id: nat, answer: PostAnswer, projectId: string)
    requires Inv(s) && Enabled(s, Post(id, answer))
    ensures Inv(Step(s, Post(id, answer), projectId))
  {
    var t := Step(s, Post(id, answer), projectId);
    assert s.ticks[id].InFlight();
    assert forall k | k in s.ticks && k != id :: t.ticks[k] == s.ticks[k];
    assert !SomeoneAccepted(s) by {
      if k :| s.Phase(k, PostAccepted) { assert s.ticks[k].InFlight(); }
    }
    if answer.Accepted? {
      assert t.Phase(id, PostAccepted);
    } else {
      assert forall k :: t.Phase(k, PostAccepted) ==> s.Phase(k, PostAccepted);
    }
  }

  /** The tick in flight is the only one, and the only one that can have been accepted; when it
      moves on to anything else, nobody is. */
  lemma OnlyFlier(s: State, t: State, id: nat)
    requires Exclusive(s) && id in s.ticks && s.ticks[id].InFlight()
    requires id in t.ticks && t.ticks == s.ticks[id := t.ticks[id]] && !t.ticks[id].phase.PostAccepted?
    ensures SomeoneAccepted(s) <==> s.Phase(id, PostAccepted)
    ensures !SomeoneAccepted(t)
    ensures forall k | k in t.ticks && t.ticks[k].InFlight() :: k == id
  {
    if k :| s.Phase(k, PostAccepted) { assert s.ticks[k].InFlight(); }
    forall k ensures !t.Phase(k, PostAccepted) {
      if k != id && t.Phase(k, PostAccepted) { assert s.ticks[k].InFlight(); }
    }
  }

  lemma CrashKeepsInv(s: State, id: nat, projectId: string)
    requires Inv(s) && Enabled(s, Crash(id))
    ensures Inv(Step(s, Crash(id), projectId))
  {
    var t := Step(s, Crash(id), projectId);
    if s.ticks[id].InFlight() {
      OnlyFlier(s, t, id);
    } else {
      assert forall k :: t.Phase(k, PostAccepted) <==> s.Phase(k, PostAccepted);
    }
  }

  lemma PostedKeepsInv(s: State, a: Action, projectId: string)
    requires Inv(s) && Enabled(s, a) && a.RecordPosted?
    ensures Inv(Step(s, a, projectId))
  {
    assert s.ticks[a.id].InFlight();
    OnlyFlier(s, Step(s, a, projectId), a.id);
  }

  lemma FailedKeepsInv(s: State, a: Action, projectId: string)
    requires Inv(s) && Enabled(s, a) && a.RecordFailed?
    ensures Inv(Step(s, a, projectId))
  {
    assert s.ticks[a.id].InFlight();
    OnlyFlier(s, Step(s, a, projectId), a.id);
  }

  lemma RecordKeepsInv(s: State, a: Action, projectId: string)
    requires Inv(s) && Enabled(s, a) && (a.RecordPosted? || a.RecordFailed? || a.Crash?)
    ensures Inv(Step(s, a, projectId))
  {
    match a
    case RecordPosted(_, _) => PostedKeepsInv(s, a, projectId);
    case RecordFailed(_, _, _) => FailedKeepsInv(s, a, projectId);
    case Crash(id) => CrashKeepsInv(s, id, projectId);
  }

  lemma StepKeepsInv(s: State, a: Action, projectId: string)
    requires Inv(s) && Punctual(s) && Enabled(s, a)
    ensures Inv(Step(s, a, projectId))
  {
    match a
    case Claim(id, write) => ClaimKeepsInv(s, id, write, projectId);
    case Post(id, answer) => PostKeepsInv(s, id, answer, projectId);
    case Advance(to) =>
      assert forall k :: Step(s, a, projectId).Phase(k, PostAccepted) <==> s.Phase(k, PostAccepted);
    case Start(id) =>
      assert forall k :: Step(s, a, projectId).Phase(k, PostAccepted) <==> s.Phase(k, PostAccepted);
    case _ => RecordKeepsInv(s, a, projectId);
  }

  lemma {:induction false} TraceKeepsInv(states: seq<State>, run: seq<Action>, projectId: string, n: nat)
    requires Trace(states, run, projectId) && n <= |run|
    requires forall i | 0 <= i < n :: Punctual(states[i])
    ensures Inv(states[n])
  {
    if n == 0 {
      assert forall k :: !states[0].Phase(k, PostAccepted);
    } else {
      TraceKeepsInv(states, run, projectId, n - 1);
      StepKeepsInv(states[n - 1], run[n - 1], projectId);
    }
  }

  /** Over every interleaving of any number of ticks, with crashes and failing writes at any
      step: while ticks are punctual, at most one is ever between its claim and its record,
      and the channel holds at most one message plus those whose record was lost. */
  lemma DeliveryExclusion(states: seq<State>, run: seq<Action>, projectId: string, n: nat)
    requires Trace(states, run, projectId) && n <= |run|
    requires forall i | 0 <= i < n :: Punctual(states[i])
    ensures Exclusive(states[n])
    ensures states[n].delivered <= 1 + states[n].lost
    ensures states[n].row.Some? && states[n].row.value.Posted? ==> states[n].delivered == 1 + states[n].lost
  {
    TraceKeepsInv(states, run, projectId, n);
    if k :| states[n].Phase(k, PostAccepted) { assert states[n].ticks[k].InFlight(); }
  }

  /** Exactly when a second tick gets in: its own start is more than a claim lifetime after
      the start of the tick that holds the row. */
  lemma TakeoverIff(s: State, holder: nat, id: nat)
    requires LeaseMatches(s)
    requires s.Phase(holder, Holding) || s.Phase(holder, PostAccepted)
    requires s.Phase(id, Started)
    ensures ClaimGranted(s.row, ClaimsExpireBefore(s.ticks[id].tickAt))
            <==> s.ticks[id].tickAt > s.ticks[holder].tickAt + DELIVERY_CLAIM_TTL_MS
  {
    assert s.ticks[holder].InFlight();
  }

  /** Without punctuality the bound fails: a tick that overruns its lease by one millisecond
      and a later tick both post, and nothing was lost. */
  lemma OverrunPostsTwice() returns (states: seq<State>, run: seq<Action>)
    ensures Trace(states, run, "p")
    ensures states[|run|].delivered == 2 && states[|run|].lost == 0
  {
    run := [Start(0), Claim(0, Landed), Advance(DELIVERY_CLAIM_TTL_MS + 1), Start(1), Claim(1, Landed),
            Post(0, Accepted), Post(1, Accepted)];
    var s0 := State(0, None, map[], 0, 0);
    var s1 := Step(s0, run[0], "p");
    var s2 := Step(s1, run[1], "p");
    var s3 := Step(s2, run[2], "p");
    var s4 := Step(s3, run[3], "p");
    var s5 := Step(s4, run[4], "p");
    var s6 := Step(s5, run[5], "p");
    states := [s0, s1, s2, s3, s4, s5, s6, Step(s6, run[6], "p")];
  }
}
