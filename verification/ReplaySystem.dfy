/** Any number of narration ticks of one lane at once, each reading the watermark, listing,
    reading the held rows and then attempting one recording at a time, while recordings arrive
    and other ticks land theirs in between. */
module ReplaySystem {
  import opened Common
  import opened Sequences
  import opened ReplayDrain

  /** Where a tick stands. `broken` is a first attempt of its queue that did not land. */
  datatype Ongoing =
    | Watching(since: Option<int>)
    | Listed(listed: seq<Recording>)
    | Draining(listed: seq<Recording>, start: Rows, budget: nat, made: nat, broken: bool)

  datatype State = State(source: set<Recording>, rows: Rows, ticks: map<nat, Ongoing>)

  datatype Action =
    | Arrival(recording: Recording)
    | Begin(id: nat)
    | List(id: nat, listed: seq<Recording>)
    | ReadRows(id: nat, budget: nat)
    | Try(id: nat, attempt: Attempt)

  function DueOf(t: Ongoing): seq<Recording>
    requires t.Draining?
  {
    Due(t.start, t.listed, t.budget)
  }

  function QueueOf(t: Ongoing): seq<Recording>
    requires t.Draining?
  {
    Queue(t.start, t.listed)
  }

  /** No older than anything held or listed: no start that is or may come to be held drops it. */
  ghost predicate Timely(s: State, r: Recording, provider: Provider) {
    && !Dropped(r.startedAt, WatermarkOf(s.rows), provider)
    && forall id, q | id in s.ticks && !s.ticks[id].Watching? && q in s.ticks[id].listed ::
         !Dropped(r.startedAt, q.startedAt, provider)
  }

  /** What may happen: arrivals that are timely, listings complete since the watermark that was
      read, and first attempts that land only while none of their tick has failed. */
  ghost predicate Enabled(s: State, a: Action, provider: Provider) {
    match a
    case Arrival(r) =>
      && (forall q | q in s.source :: q.id != r.id) && r.id !in s.rows && Timely(s, r, provider)
      && (provider.Rrweb? ==> DistinctStarts(s.source + {r}))
    case Begin(id) => id !in s.ticks
    case List(id, listed) =>
      id in s.ticks && s.ticks[id].Watching? && CompleteListing(listed, s.source, s.ticks[id].since, provider)
    case ReadRows(id, _) => id in s.ticks && s.ticks[id].Listed?
    case Try(id, attempt) =>
      && id in s.ticks && s.ticks[id].Draining? && s.ticks[id].made < |DueOf(s.ticks[id])|
      && (attempt.landed && s.ticks[id].made < |QueueOf(s.ticks[id])| ==> !s.ticks[id].broken)
  }

  ghost function Step(s: State, a: Action, provider: Provider): State
    requires Enabled(s, a, provider)
  {
    match a
    case Arrival(r) => s.(source := s.source + {r})
    case Begin(id) => s.(ticks := s.ticks[id := Watching(WatermarkOf(s.rows))])
    case List(id, listed) => s.(ticks := s.ticks[id := Listed(listed)])
    case ReadRows(id, budget) => s.(ticks := s.ticks[id := Draining(s.ticks[id].listed, s.rows, budget, 0, false)])
    case Try(id, attempt) =>
      var t := s.ticks[id];
      var r := DueOf(t)[t.made];
      s.(rows := HoldOne(s.rows, r, IsRetry(t.start)(r), attempt),
         ticks := s.ticks[id := t.(made := t.made + 1,
                                   broken := t.broken || (t.made < |QueueOf(t)| && !attempt.landed))])
  }

  ghost predicate StepAt(states: seq<State>, run: seq<Action>, provider: Provider, i: nat) {
    i < |run| && i + 1 < |states| && Enabled(states[i], run[i], provider) && states[i + 1] == Step(states[i], run[i], provider)
  }

  ghost predicate Trace(states: seq<State>, run: seq<Action>, provider: Provider) {
    && |states| == |run| + 1 && states[0] == State({}, map[], map[])
    && (forall i: nat | i < |run| :: StepAt(states, run, provider, i))
  }

  /** Whatever a listed start would drop is listed too, or held. */
  ghost predicate Covers(s: State, listed: seq<Recording>, provider: Provider) {
    && (forall q | q in listed :: q in s.source)
    && (forall r, q | r in s.source && q in listed && Dropped(r.startedAt, q.startedAt, provider) :: r in listed || r.id in s.rows)
  }

  ghost predicate TickInv(s: State, t: Ongoing, provider: Provider) {
    match t
    case Watching(since) => forall r: Recording | Dropped(r.startedAt, since, provider) :: Dropped(r.startedAt, WatermarkOf(s.rows), provider)
    case Listed(listed) => Covers(s, listed, provider)
    case Draining(listed, start, _, made, broken) =>
      && Covers(s, listed, provider)
      && (forall id | id in start :: id in s.rows)
      && (!broken ==> forall i | 0 <= i < made && i < |Queue(start, listed)| :: Queue(start, listed)[i].id in s.rows)
  }

  ghost predicate Inv(s: State, provider: Provider) {
    && Good(World(s.source, s.rows), provider)
    && (forall id | id in s.ticks :: TickInv(s, s.ticks[id], provider))
  }

  /** Rows that grew, by one row at most, whose start is `startedAt`. */
  ghost predicate Grew(rows: Rows, rows': Rows) {
    forall id | id in rows :: id in rows' && rows'[id].startedAt == rows[id].startedAt
  }

  lemma GrowthKeepsTick(s: State, s': State, t: Ongoing, provider: Provider)
    requires TickInv(s, t, provider) && s'.source == s.source && Grew(s.rows, s'.rows)
    ensures TickInv(s', t, provider)
  {
    if t.Watching? {
      forall r: Recording | Dropped(r.startedAt, t.since, provider) ensures Dropped(r.startedAt, WatermarkOf(s'.rows), provider) {
        DroppedStays(s.rows, s'.rows, r.startedAt, provider);
      }
    }
  }

  lemma ArrivalKeepsInv(s: State, r: Recording, provider: Provider)
    requires Inv(s, provider) && Enabled(s, Arrival(r), provider)
    ensures Inv(Step(s, Arrival(r), provider), provider)
  {
    var s' := Step(s, Arrival(r), provider);
    forall id | id in s'.ticks ensures TickInv(s', s'.ticks[id], provider) {
      assert TickInv(s, s.ticks[id], provider);
    }
  }

  /** A complete listing covers: what it leaves out was below the watermark it read, so held. */
  lemma ListKeepsInv(s: State, id: nat, listed: seq<Recording>, provider: Provider)
    requires Inv(s, provider) && Enabled(s, List(id, listed), provider)
    ensures Inv(Step(s, List(id, listed), provider), provider)
  {
    var s' := Step(s, List(id, listed), provider);
    assert TickInv(s, s.ticks[id], provider);
    forall k | k in s'.ticks ensures TickInv(s', s'.ticks[k], provider) {
      if k != id { assert TickInv(s, s.ticks[k], provider); GrowthKeepsTick(s, s', s.ticks[k], provider); }
    }
  }

  lemma ReadKeepsInv(s: State, a: Action, provider: Provider)
    requires Inv(s, provider) && Enabled(s, a, provider) && (a.Begin? || a.ReadRows?)
    ensures Inv(Step(s, a, provider), provider)
  {
    var s' := Step(s, a, provider);
    if a.ReadRows? { assert TickInv(s, s.ticks[a.id], provider); }
    forall k | k in s'.ticks ensures TickInv(s', s'.ticks[k], provider) {
      if k != a.id { assert TickInv(s, s.ticks[k], provider); GrowthKeepsTick(s, s', s.ticks[k], provider); }
    }
  }

  /** What the watermark drops once a row is added: what it dropped, and what the row drops. */
  lemma DroppedAfter(rows: Rows, id: string, held: Held, startedAt: Option<int>, provider: Provider)
    requires id !in rows
    ensures var rows' := rows[id := held];
            Dropped(startedAt, WatermarkOf(rows'), provider)
            <==> Dropped(startedAt, WatermarkOf(rows), provider) || Dropped(startedAt, held.startedAt, provider)
  {
    var rows' := rows[id := held];
    if Dropped(startedAt, WatermarkOf(rows), provider) { DroppedStays(rows, rows', startedAt, provider); }
    if Dropped(startedAt, held.startedAt, provider) { DroppedByHeld(rows', id, startedAt, provider); }
    if Dropped(startedAt, WatermarkOf(rows'), provider) {
      var newest :| newest in rows' && rows'[newest].startedAt == WatermarkOf(rows');
      if newest != id { DroppedByHeld(rows, newest, startedAt, provider); }
    }
  }

  /** The exact step: from a safe state, a row that is added keeps the watermark safe exactly
      when it drops nothing left unheld. */
  lemma LandingSafeIff(source: set<Recording>, rows: Rows, id: string, held: Held, provider: Provider)
    requires id !in rows && Safe(source, rows, WatermarkOf(rows), provider)
    ensures Safe(source, rows[id := held], WatermarkOf(rows[id := held]), provider) <==>
            forall r | r in source && r.id !in rows && r.id != id :: !Dropped(r.startedAt, held.startedAt, provider)
  {
    forall r | r in source
      ensures Dropped(r.startedAt, WatermarkOf(rows[id := held]), provider)
              <==> Dropped(r.startedAt, WatermarkOf(rows), provider) || Dropped(r.startedAt, held.startedAt, provider)
    {
      DroppedAfter(rows, id, held, r.startedAt, provider);
    }
  }

  /** What is dropped by the next of an unbroken queue is held by then, or is that very one. */
  lemma NextDropsHeld(s: State, t: Ongoing, provider: Provider, r: Recording)
    requires Good(World(s.source, s.rows), provider) && t.Draining? && TickInv(s, t, provider) && !t.broken
    requires t.made < |QueueOf(t)| && r in s.source && Dropped(r.startedAt, QueueOf(t)[t.made].startedAt, provider)
    ensures r.id in s.rows || r == QueueOf(t)[t.made]
  {
    var queue, n := QueueOf(t), t.made;
    QueueMembers(t.start, t.listed, queue[n]);
    QueueMembers(t.start, t.listed, r);
    QueueIsSorted(t.start, t.listed);
    if r in t.listed && r.id !in t.start {
      var i :| 0 <= i < |queue| && queue[i] == r;
      if i > n && r != queue[n] { assert false; }
    }
  }

  /** A first attempt: it lands on the rows as others have left them. */
  lemma FirstKeepsGood(s: State, t: Ongoing, attempt: Attempt, provider: Provider)
    requires Good(World(s.source, s.rows), provider) && t.Draining? && TickInv(s, t, provider)
    requires t.made < |QueueOf(t)| && (attempt.landed ==> !t.broken)
    ensures var r := QueueOf(t)[t.made];
            var rows' := HoldOne(s.rows, r, false, attempt);
            && Grew(s.rows, rows') && (attempt.landed ==> r.id in rows')
            && Good(World(s.source, rows'), provider)
  {
    var r := QueueOf(t)[t.made];
    var held := Held(r.startedAt, attempt.pullFailed);
    QueueMembers(t.start, t.listed, r);
    if attempt.landed && r.id !in s.rows {
      forall q | q in s.source && q.id !in s.rows && q.id != r.id ensures !Dropped(q.startedAt, held.startedAt, provider) {
        if Dropped(q.startedAt, held.startedAt, provider) { NextDropsHeld(s, t, provider, q); }
      }
      LandingSafeIff(s.source, s.rows, r.id, held, provider);
    }
  }

  /** A retry rewrites the pull of a row and keeps its start. */
  lemma RetryKeepsGood(s: State, r: Recording, attempt: Attempt, provider: Provider)
    requires Good(World(s.source, s.rows), provider) && r.id in s.rows
    ensures var rows' := HoldOne(s.rows, r, true, attempt);
            Grew(s.rows, rows') && Good(World(s.source, rows'), provider)
  {
    var rows' := HoldOne(s.rows, r, true, attempt);
    assert rows'.Keys == s.rows.Keys;
    WatermarkIsUnique(rows', WatermarkOf(rows'), WatermarkOf(s.rows));
  }

  /** Any attempt: the rows only grow and stay good, and a first attempt that lands is held. */
  lemma TryKeepsRows(s: State, t: Ongoing, attempt: Attempt, provider: Provider)
    requires Good(World(s.source, s.rows), provider) && t.Draining? && TickInv(s, t, provider) && t.made < |DueOf(t)|
    requires attempt.landed && t.made < |QueueOf(t)| ==> !t.broken
    ensures var r := DueOf(t)[t.made];
            var rows' := HoldOne(s.rows, r, IsRetry(t.start)(r), attempt);
            && Grew(s.rows, rows') && Good(World(s.source, rows'), provider)
            && (attempt.landed && t.made < |QueueOf(t)| ==> QueueOf(t)[t.made].id in rows')
  {
    var r := DueOf(t)[t.made];
    DueAt(t.start, t.listed, t.budget, t.made);
    if t.made < |QueueOf(t)| {
      QueueMembers(t.start, t.listed, r);
      FirstKeepsGood(s, t, attempt, provider);
    } else {
      RetryAt(t);
      RetryKeepsGood(s, r, attempt, provider);
    }
  }

  lemma TryKeepsGood(s: State, id: nat, attempt: Attempt, provider: Provider)
    requires Inv(s, provider) && Enabled(s, Try(id, attempt), provider)
    ensures var s' := Step(s, Try(id, attempt), provider);
            && Grew(s.rows, s'.rows) && Good(World(s'.source, s'.rows), provider)
            && TickInv(s', s'.ticks[id], provider)
  {
    var t, s' := s.ticks[id], Step(s, Try(id, attempt), provider);
    assert TickInv(s, t, provider);
    TryKeepsRows(s, t, attempt, provider);
    GrowthKeepsTick(s, s', t, provider);
  }

  /** Past the queue stand the retries. */
  lemma RetryAt(t: Ongoing)
    requires t.Draining? && |QueueOf(t)| <= t.made < |DueOf(t)|
    ensures IsRetry(t.start)(DueOf(t)[t.made])
  {
    var retries := OldestFirst(Filter(IsRetry(t.start), t.listed));
    var due, queue := DueOf(t), QueueOf(t);
    assert due[t.made] == (queue + retries)[t.made] by { assert due + (queue + retries)[|due|..] == queue + retries; }
    RetriesAreRetries(t.start, t.listed, due[t.made]);
  }

  lemma TryKeepsInv(s: State, id: nat, attempt: Attempt, provider: Provider)
    requires Inv(s, provider) && Enabled(s, Try(id, attempt), provider)
    ensures Inv(Step(s, Try(id, attempt), provider), provider)
  {
    var s' := Step(s, Try(id, attempt), provider);
    TryKeepsGood(s, id, attempt, provider);
    forall k | k in s'.ticks ensures TickInv(s', s'.ticks[k], provider) {
      if k != id { assert TickInv(s, s.ticks[k], provider); GrowthKeepsTick(s, s', s.ticks[k], provider); }
    }
  }

  lemma StepKeepsInv(s: State, a: Action, provider: Provider)
    requires Inv(s, provider) && Enabled(s, a, provider)
    ensures Inv(Step(s, a, provider), provider)
  {
    match a
    case Arrival(r) => ArrivalKeepsInv(s, r, provider);
    case List(id, listed) => ListKeepsInv(s, id, listed, provider);
    case Try(id, attempt) => TryKeepsInv(s, id, attempt, provider);
    case _ => ReadKeepsInv(s, a, provider);
  }

  /** Over every interleaving of ticks of a lane, with arrivals at any point of a tick:
      everything the next listing would leave out is held. */
  lemma {:induction false} OverlapSafety(states: seq<State>, run: seq<Action>, provider: Provider, n: nat)
    requires Trace(states, run, provider) && n <= |run|
    ensures Inv(states[n], provider)
    ensures Safe(states[n].source, states[n].rows, WatermarkOf(states[n].rows), provider)
  {
    if n > 0 {
      OverlapSafety(states, run, provider, n - 1);
      assert StepAt(states, run, provider, n - 1);
      StepKeepsInv(states[n - 1], run[n - 1], provider);
    }
  }

  /** A queued recording was not landed by one of the first `k` attempts. */
  ghost predicate FailedBefore(queue: seq<Recording>, attempts: nat -> Attempt, k: nat) {
    exists i: nat | i < k && i < |queue| :: !attempts(i).landed
  }

  /** Where a tick nobody interferes with has brought the lane after `k` attempts: to the rows of
      the code's own drain. */
  ghost function Alone(s: State, id: nat, listed: seq<Recording>, budget: nat, attempts: nat -> Attempt, k: nat): State
    requires k <= |Due(s.rows, listed, budget)|
  {
    State(s.source, Drain(s.rows, Due(s.rows, listed, budget)[..k], attempts),
          s.ticks[id := Draining(listed, s.rows, budget, k, FailedBefore(Queue(s.rows, listed), attempts, k))])
  }

  lemma FailedNext(queue: seq<Recording>, attempts: nat -> Attempt, k: nat)
    ensures FailedBefore(queue, attempts, k + 1) <==> FailedBefore(queue, attempts, k) || (k < |queue| && !attempts(k).landed)
  {
  }

  lemma NoneFailedYet(queue: seq<Recording>, budget: nat, attempts: nat -> Attempt, k: nat)
    requires FailuresAreLast(queue, budget, attempts) && attempts(k).landed && k < |queue| && k < budget
    ensures !FailedBefore(queue, attempts, k)
  {
    forall i: nat | i < k ensures attempts(i).landed {
      assert ReplayDrain.Landed(budget, attempts, k);
      assert ReplayDrain.Landed(budget, attempts, i);
    }
  }

  lemma AloneNext(s: State, id: nat, listed: seq<Recording>, budget: nat, attempts: nat -> Attempt, k: nat, provider: Provider)
    requires k < |Due(s.rows, listed, budget)| && FailuresAreLast(Queue(s.rows, listed), budget, attempts)
    ensures var a, now := Try(id, attempts(k)), Alone(s, id, listed, budget, attempts, k);
            Enabled(now, a, provider) && Step(now, a, provider) == Alone(s, id, listed, budget, attempts, k + 1)
  {
    var due, queue, now := Due(s.rows, listed, budget), Queue(s.rows, listed), Alone(s, id, listed, budget, attempts, k);
    assert due[..k + 1][..k] == due[..k];
    if attempts(k).landed && k < |queue| { NoneFailedYet(queue, budget, attempts, k); }
    FailedNext(queue, attempts, k);
    assert now.ticks[id := Draining(listed, s.rows, budget, k + 1, FailedBefore(queue, attempts, k + 1))]
           == s.ticks[id := Draining(listed, s.rows, budget, k + 1, FailedBefore(queue, attempts, k + 1))];
  }

  lemma AloneBegins(s: State, id: nat, listed: seq<Recording>, budget: nat, attempts: nat -> Attempt, provider: Provider)
    requires id !in s.ticks && CompleteListing(listed, s.source, WatermarkOf(s.rows), provider)
    ensures Enabled(s, Begin(id), provider)
    ensures var s1 := Step(s, Begin(id), provider);
            && Enabled(s1, List(id, listed), provider)
            && var s2 := Step(s1, List(id, listed), provider);
               && Enabled(s2, ReadRows(id, budget), provider)
               && Step(s2, ReadRows(id, budget), provider) == Alone(s, id, listed, budget, attempts, 0)
  {
    assert Due(s.rows, listed, budget)[..0] == [];
    var t := Draining(listed, s.rows, budget, 0, false);
    assert s.ticks[id := Watching(WatermarkOf(s.rows))][id := Listed(listed)][id := t] == s.ticks[id := t];
  }

  /** The run leads from `s` through the states, step by step. */
  ghost predicate RunsFrom(s: State, states: seq<State>, run: seq<Action>, provider: Provider) {
    |states| == |run| + 1 && states[0] == s && forall i: nat | i < |run| :: StepAt(states, run, provider, i)
  }

  lemma RunsOn(s: State, states: seq<State>, run: seq<Action>, a: Action, provider: Provider)
    requires RunsFrom(s, states, run, provider) && Enabled(states[|run|], a, provider)
    ensures RunsFrom(s, states + [Step(states[|run|], a, provider)], run + [a], provider)
  {
    var states', run' := states + [Step(states[|run|], a, provider)], run + [a];
    forall i: nat | i < |run'| ensures StepAt(states', run', provider, i) {
      if i < |run| { assert StepAt(states, run, provider, i); }
    }
  }

  lemma ReadsRun(s: State, id: nat, listed: seq<Recording>, budget: nat, attempts: nat -> Attempt, provider: Provider)
    returns (states: seq<State>)
    requires id !in s.ticks && CompleteListing(listed, s.source, WatermarkOf(s.rows), provider)
    ensures RunsFrom(s, states, [Begin(id), List(id, listed), ReadRows(id, budget)], provider)
    ensures states[3] == Alone(s, id, listed, budget, attempts, 0)
  {
    AloneBegins(s, id, listed, budget, attempts, provider);
    var s1 := Step(s, Begin(id), provider);
    var s2 := Step(s1, List(id, listed), provider);
    states := [s, s1, s2, Step(s2, ReadRows(id, budget), provider)];
    var run := [Begin(id), List(id, listed), ReadRows(id, budget)];
    assert StepAt(states, run, provider, 0) && StepAt(states, run, provider, 1) && StepAt(states, run, provider, 2);
  }

  /** A whole tick with nothing in between is a run of the system from wherever it starts, and
      makes of the rows what the code's own drain does. */
  lemma {:induction false} TickIsRun(s: State, id: nat, listed: seq<Recording>, budget: nat, attempts: nat -> Attempt,
                                     provider: Provider, k: nat) returns (states: seq<State>, run: seq<Action>)
    requires id !in s.ticks && CompleteListing(listed, s.source, WatermarkOf(s.rows), provider)
    requires FailuresAreLast(Queue(s.rows, listed), budget, attempts) && k <= |Due(s.rows, listed, budget)|
    ensures RunsFrom(s, states, run, provider) && |run| == 3 + k
    ensures states[|run|] == Alone(s, id, listed, budget, attempts, k)
    ensures states[|run|].rows == Drain(s.rows, Due(s.rows, listed, budget)[..k], attempts)
  {
    if k == 0 {
      states := ReadsRun(s, id, listed, budget, attempts, provider);
      run := [Begin(id), List(id, listed), ReadRows(id, budget)];
    } else {
      var states0, run0 := TickIsRun(s, id, listed, budget, attempts, provider, k - 1);
      AloneNext(s, id, listed, budget, attempts, k - 1, provider);
      RunsOn(s, states0, run0, Try(id, attempts(k - 1)), provider);
      run := run0 + [Try(id, attempts(k - 1))];
      states := states0 + [Step(states0[|run0|], Try(id, attempts(k - 1)), provider)];
    }
  }

  /** What starts later than everything in the source, held or listed may arrive at any time. */
  lemma LaterMayArrive(s: State, r: Recording, provider: Provider)
    requires r.startedAt.Some? && r.id !in s.rows && forall q | q in s.source :: q.id != r.id && Later(r, q.startedAt)
    requires forall id | id in s.rows :: Later(r, s.rows[id].startedAt)
    requires forall id, q | id in s.ticks && !s.ticks[id].Watching? && q in s.ticks[id].listed :: Later(r, q.startedAt)
    requires provider.Rrweb? ==> DistinctStarts(s.source)
    ensures Enabled(s, Arrival(r), provider)
  {
    assert IsWatermark(s.rows, WatermarkOf(s.rows));
  }

  predicate Later(r: Recording, startedAt: Option<int>) {
    r.startedAt.Some? && (startedAt.Some? ==> startedAt.value < r.startedAt.value)
  }
}
