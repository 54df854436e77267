/** Everyone who moves a connection's cursors at once: the polls that claim it, the first pulls
    of its connects, the clock and crashes, one step at a time on one stored row. */
module PollSystem {
  import opened Common
  import opened PollCursors

  const DEFAULT_POLL_INTERVAL_MS: int := 60 * 1000

  /** The stored row: its cursors, and when it may next be claimed. */
  datatype Stored = Stored(cursors: Cursors, nextPollAt: int, active: bool)

  /** `Pulling` has its pull out; `Noticing` has cleared a drained backfill and owes the notice. */
  datatype Phase = Idle | Pulling | Noticing | Done

  /** A poll from its claim, or a connect's first pull, with the cursors it carries. `at` is the
      instant its claim was stamped with. */
  datatype Poll = Poll(first: bool, at: int, local: Cursors, phase: Phase)
  {
    predicate Working() {
      !phase.Done?
    }
  }

  /** `notices` counts the drained notices sent, `sets` the writes that took the stored backfill
      cursor from clear to set, `hollow` the announced writes that found it clear already. */
  datatype State = State(
    now: int, interval: int, born: bool, row: Option<Stored>, polls: map<nat, Poll>,
    notices: nat, sets: nat, hollow: nat)
  {
    function Cursors(): Option<Cursors> {
      if row.Some? then Some(row.value.cursors) else None
    }

    predicate Phase(id: nat, phase: Phase) {
      id in polls && polls[id].phase == phase
    }
  }

  datatype Action =
    | Advance(to: int)
    | Insert(id: nat)
    | Rekey(id: nat)
    | Claim(id: nat, at: int)
    | Issue(id: nat)
    | CursorWrite(id: nat, pull: Pull, first: Write, second: Write)
    | Notice(id: nat, sent: bool)
    | End(id: nat)
    | Deactivate
    | Delete

  /** A claim takes the row once it is due at the instant its tick read. A row that is deleted
      does not come back: a later connect inserts another. */
  predicate Enabled(s: State, a: Action) {
    match a
    case Advance(to) => s.now <= to
    case Insert(id) => !s.born && id !in s.polls
    case Rekey(id) => s.row.Some? && id !in s.polls
    case Claim(id, at) => id !in s.polls && s.row.Some? && s.row.value.active && s.row.value.nextPollAt <= at <= s.now
    case Issue(id) => s.Phase(id, Idle)
    case CursorWrite(id, pull, _, _) => s.Phase(id, Pulling) && pull.Pulled?
    case Notice(id, _) => s.Phase(id, Noticing)
    case End(id) => id in s.polls && s.polls[id].Working()
    case Deactivate => s.row.Some?
    case Delete => s.row.Some?
  }

  function Move(s: State, id: nat, phase: Phase): State
    requires id in s.polls
  {
    s.(polls := s.polls[id := s.polls[id].(phase := phase)])
  }

  /** What the poll's write makes of the row as it now stands. */
  function MovedBy(s: State, a: Action): Moved
    requires a.CursorWrite? && Enabled(s, a)
  {
    var p := s.polls[a.id];
    if p.first then FirstStep(p.local, s.Cursors(), a.pull, a.first)
    else CursorStep(p.local, s.Cursors(), a.pull, a.first, a.second)
  }

  function Step(s: State, a: Action): State
    requires Enabled(s, a)
  {
    match a
    case Advance(to) => s.(now := to)
    case Insert(id) =>
      var clear := Cursors(None, None);
      s.(born := true, row := Some(Stored(clear, s.now + DEFAULT_POLL_INTERVAL_MS, true)),
         polls := s.polls[id := Poll(true, s.now, clear, Idle)])
    case Rekey(id) => s.(polls := s.polls[id := Poll(true, s.now, s.row.value.cursors, Idle)])
    case Claim(id, at) =>
      s.(row := Some(s.row.value.(nextPollAt := at + s.interval)),
         polls := s.polls[id := Poll(false, at, s.row.value.cursors, Idle)])
    case Issue(id) => Move(s, id, Pulling)
    case CursorWrite(id, _, _, _) =>
      var p, moved := s.polls[id], MovedBy(s, a);
      var phase := if moved.threw || p.first then Done else if moved.drained then Noticing else Idle;
      s.(row := if s.row.Some? then Some(s.row.value.(cursors := moved.row.value)) else None,
         polls := s.polls[id := p.(local := moved.next, phase := phase)],
         sets := if !IsSet(s.Cursors()) && IsSet(moved.row) then s.sets + 1 else s.sets,
         hollow := if moved.drained && !IsSet(s.Cursors()) then s.hollow + 1 else s.hollow)
    case Notice(id, sent) => Move(if sent then s.(notices := s.notices + 1) else s, id, Idle)
    case End(id) => Move(s, id, Done)
    case Deactivate => s.(row := Some(s.row.value.(active := false)))
    case Delete => s.(row := None)
  }

  predicate Init(s: State) {
    !s.born && s.row.None? && s.polls == map[] && s.notices == 0 && s.sets == 0 && s.hollow == 0
  }

  predicate StepAt(states: seq<State>, run: seq<Action>, i: nat) {
    i < |run| && i + 1 < |states| && Enabled(states[i], run[i]) && states[i + 1] == Step(states[i], run[i])
  }

  ghost predicate Trace(states: seq<State>, run: seq<Action>) {
    && |states| == |run| + 1 && Init(states[0])
    && (forall i: nat | i < |run| :: StepAt(states, run, i))
  }

  // ---------------------------------------------------- with no condition at all

  /** Polls that owe a notice. */
  ghost function Owing(polls: map<nat, Poll>): set<nat> {
    set id | id in polls && polls[id].phase.Noticing?
  }

  /** Notices sent, owed and still to be earned, less the sets that earn them and the hollow
      ones that nothing earned. */
  ghost function Debt(s: State): int {
    s.notices + |Owing(s.polls)| + (if IsSet(s.Cursors()) then 1 else 0) - s.sets - s.hollow
  }

  lemma OneMoves(before: set<nat>, after: set<nat>, id: nat)
    requires forall k | k != id :: k in after <==> k in before
    ensures |after| == |before| - (if id in before then 1 else 0) + (if id in after then 1 else 0)
  {
    var rest := before - {id};
    assert after - {id} == rest;
    assert before == rest + (if id in before then {id} else {});
    assert after == rest + (if id in after then {id} else {});
  }

  lemma OwingAfter(polls: map<nat, Poll>, id: nat, p: Poll)
    ensures |Owing(polls[id := p])| == |Owing(polls)| - (if id in polls && polls[id].phase.Noticing? then 1 else 0)
                                       + (if p.phase.Noticing? then 1 else 0)
  {
    var before, after := Owing(polls), Owing(polls[id := p]);
    assert id in before <==> id in polls && polls[id].phase.Noticing?;
    assert id in after <==> p.phase.Noticing?;
    OneMoves(before, after, id);
  }

  /** No step by anyone adds to the debt: a notice comes of a set, or is hollow. */
  lemma StepKeepsDebt(s: State, a: Action)
    requires Enabled(s, a)
    ensures Debt(Step(s, a)) <= Debt(s)
  {
    var s' := Step(s, a);
    match a
    case Advance(_) =>
    case Deactivate =>
    case Delete =>
    case _ => OwingAfter(s.polls, a.id, s'.polls[a.id]);
  }

  lemma {:induction false} DebtNeverGrows(states: seq<State>, run: seq<Action>, i: nat, j: nat)
    requires Trace(states, run) && i <= j <= |run|
    ensures Debt(states[j]) <= Debt(states[i])
  {
    if i < j {
      DebtNeverGrows(states, run, i, j - 1);
      assert StepAt(states, run, j - 1);
      StepKeepsDebt(states[j - 1], run[j - 1]);
    }
  }

  /** Over every interleaving of any number of polls and first pulls, late, stale or crashing:
      the notices sent number at most the sets and the hollow ones. */
  lemma NoticesAccounted(states: seq<State>, run: seq<Action>, n: nat)
    requires Trace(states, run) && n <= |run|
    ensures states[n].notices + |Owing(states[n].polls)| + (if IsSet(states[n].Cursors()) then 1 else 0)
            <= states[n].sets + states[n].hollow
  {
    DebtNeverGrows(states, run, 0, n);
    assert Owing(states[0].polls) == {};
  }

  /** An announced write marks a real step from set to clear exactly when the stored backfill is
      still set at the write; otherwise the poll's copy was stale, and it is hollow. */
  lemma AnnouncesRealIff(s: State, a: Action)
    requires a.CursorWrite? && Enabled(s, a) && MovedBy(s, a).drained
    ensures s.polls[a.id].local.backfill.Some? && !IsSet(Step(s, a).Cursors()) && Step(s, a).Phase(a.id, Noticing)
    ensures IsSet(s.Cursors()) <==> Step(s, a).Cursors() != s.Cursors()
    ensures !IsSet(s.Cursors()) <==> Step(s, a).hollow == s.hollow + 1
    ensures !IsSet(s.Cursors()) ==> s.Cursors() != Some(s.polls[a.id].local)
  {
  }

  predicate AtLeast(a: Option<int>, b: Option<int>) {
    b.Some? ==> a.Some? && a.value >= b.value
  }

  /** The stored watermark never moves back, whoever writes. */
  lemma {:induction false} WatermarkIsMonotone(states: seq<State>, run: seq<Action>, i: nat, j: nat)
    requires Trace(states, run) && i <= j <= |run| && states[i].row.Some? && states[j].row.Some?
    ensures AtLeast(states[j].row.value.cursors.watermark, states[i].row.value.cursors.watermark)
  {
    if i < j {
      assert StepAt(states, run, j - 1);
      BornWithRow(states, run, i, j - 1);
      WatermarkIsMonotone(states, run, i, j - 1);
    }
  }

  /** A row that was there and is there again was there throughout. */
  lemma {:induction false} BornWithRow(states: seq<State>, run: seq<Action>, i: nat, j: nat)
    requires Trace(states, run) && i <= j < |run| && states[i].row.Some? && states[j + 1].row.Some?
    ensures states[j].row.Some? && states[j].born
  {
    BornFrom(states, run, i);
    StaysBorn(states, run, i, j);
    assert StepAt(states, run, j);
  }

  lemma {:induction false} BornFrom(states: seq<State>, run: seq<Action>, i: nat)
    requires Trace(states, run) && i <= |run| && states[i].row.Some?
    ensures states[i].born
  {
    if i > 0 {
      assert StepAt(states, run, i - 1);
      if states[i - 1].row.Some? { BornFrom(states, run, i - 1); }
    }
  }

  lemma {:induction false} StaysBorn(states: seq<State>, run: seq<Action>, i: nat, j: nat)
    requires Trace(states, run) && i <= j <= |run| && states[i].born
    ensures states[j].born
  {
    if i < j {
      StaysBorn(states, run, i, j - 1);
      assert StepAt(states, run, j - 1);
    }
  }

  /** Step `i` is a stored write, by anyone, of a pull that met what was stored and saw `newest`. */
  predicate SawNewest(states: seq<State>, run: seq<Action>, i: nat, newest: int) {
    && i < |run| && i < |states| && run[i].CursorWrite? && run[i].first.Stored()
    && run[i].pull.Pulled? && run[i].pull.contiguous && run[i].pull.newestObservedAt == Some(newest)
  }

  /** A stored forward write moves the watermark at least to what its pull saw, for good. */
  lemma WatermarkReaches(states: seq<State>, run: seq<Action>, i: nat, j: nat, newest: int)
    requires Trace(states, run) && i < j <= |run| && states[j].row.Some?
    requires SawNewest(states, run, i, newest)
    ensures AtLeast(states[j].row.value.cursors.watermark, Some(newest))
  {
    assert StepAt(states, run, i);
    BornAt(states, run, i);
    RowStays(states, run, i, j);
    assert AtLeast(states[i + 1].row.value.cursors.watermark, Some(newest));
    WatermarkIsMonotone(states, run, i + 1, j);
  }

  /** A poll or first pull at hand has a row behind it that was inserted. */
  lemma {:induction false} BornAt(states: seq<State>, run: seq<Action>, i: nat)
    requires Trace(states, run) && i <= |run| && states[i].polls != map[]
    ensures states[i].born
  {
    assert StepAt(states, run, i - 1);
    if states[i - 1].polls != map[] {
      BornAt(states, run, i - 1);
    } else if states[i - 1].row.Some? {
      BornFrom(states, run, i - 1);
    }
  }

  /** A row that was inserted by `i` and is there at `j` was there in between. */
  lemma {:induction false} RowStays(states: seq<State>, run: seq<Action>, i: nat, j: nat)
    requires Trace(states, run) && i <= j <= |run| && states[i].born && states[j].row.Some?
    ensures forall k | i <= k <= j :: states[k].row.Some?
  {
    if i < j {
      StaysBorn(states, run, i, j - 1);
      assert StepAt(states, run, j - 1);
      RowStays(states, run, i, j - 1);
    }
  }

  /** A row that was deactivated is polled no more, whatever connects or deletes it after. */
  lemma {:induction false} DisconnectedForGood(states: seq<State>, run: seq<Action>, i: nat, j: nat)
    requires Trace(states, run) && i < j <= |run| && run[i] == Deactivate
    ensures states[j].born && (states[j].row.Some? ==> !states[j].row.value.active)
    ensures j < |run| ==> !run[j].Claim? && !run[j].Insert?
  {
    if i + 1 < j {
      DisconnectedForGood(states, run, i, j - 1);
    } else {
      assert StepAt(states, run, i);
      BornWithRow(states, run, i, i);
    }
    assert StepAt(states, run, j - 1);
    if j < |run| { assert StepAt(states, run, j); }
  }

  // ---------------------------------------- punctual polls, and connects apart

  /** Every poll ends before the interval its claim reserved. */
  ghost predicate Punctual(s: State) {
    forall id | id in s.polls && s.polls[id].Working() && !s.polls[id].first :: s.now < s.polls[id].at + s.interval
  }

  /** No first pull overlaps a poll, or another first pull. */
  ghost predicate Apart(s: State, a: Action) {
    && (a.Rekey? ==> forall id | id in s.polls :: !s.polls[id].Working())
    && (a.Claim? ==> forall id | id in s.polls && s.polls[id].first :: !s.polls[id].Working())
  }

  ghost predicate WorkingOn(s: State, id: nat) {
    id in s.polls && s.polls[id].Working()
  }

  ghost predicate Exclusive(s: State) {
    forall a, b | WorkingOn(s, a) && WorkingOn(s, b) :: a == b
  }

  /** One at work at most; its cursors are the stored ones; the row is reserved while it is due
      to work; and what it owes a notice for is clear. */
  ghost predicate Inv(s: State) {
    && (!s.born ==> s.row.None? && s.polls == map[])
    && Exclusive(s)
    && (forall id | WorkingOn(s, id) :: s.row.Some? ==> s.row.value.cursors == s.polls[id].local)
    && (forall id | WorkingOn(s, id) && !s.polls[id].first :: s.row.Some? ==> s.row.value.nextPollAt == s.polls[id].at + s.interval)
    && (forall id | WorkingOn(s, id) && s.polls[id].phase.Noticing? :: s.polls[id].local.backfill.None?)
  }

  lemma ClaimKeepsInv(s: State, a: Action)
    requires Inv(s) && Enabled(s, a) && a.Claim? && Punctual(s) && Apart(s, a)
    ensures Inv(Step(s, a))
  {
    forall id ensures !WorkingOn(s, id) {
      if WorkingOn(s, id) { assert false; }
    }
    var s' := Step(s, a);
    assert forall id | id != a.id :: !WorkingOn(s', id);
  }

  lemma BeginKeepsInv(s: State, a: Action)
    requires Inv(s) && Enabled(s, a) && (a.Rekey? || a.Insert?) && Apart(s, a)
    ensures Inv(Step(s, a))
  {
    var s' := Step(s, a);
    assert forall id :: !WorkingOn(s, id);
    assert forall id | id != a.id :: !WorkingOn(s', id);
  }

  lemma OwnStepKeepsInv(s: State, a: Action)
    requires Inv(s) && Enabled(s, a) && (a.Issue? || a.CursorWrite? || a.Notice? || a.End?)
    ensures Inv(Step(s, a))
  {
    var s' := Step(s, a);
    assert WorkingOn(s, a.id) && s'.polls == s.polls[a.id := s'.polls[a.id]];
    forall id | id != a.id ensures !WorkingOn(s', id) {
      assert !WorkingOn(s, id);
    }
  }

  lemma RowStepKeepsInv(s: State, a: Action)
    requires Inv(s) && Enabled(s, a) && (a.Advance? || a.Deactivate? || a.Delete?)
    ensures Inv(Step(s, a))
  {
    assert forall id :: WorkingOn(Step(s, a), id) <==> WorkingOn(s, id);
  }

  lemma StepKeepsInv(s: State, a: Action)
    requires Inv(s) && Enabled(s, a) && Punctual(s) && Apart(s, a)
    ensures Inv(Step(s, a))
  {
    match a
    case Claim(_, _) => ClaimKeepsInv(s, a);
    case Rekey(_) => BeginKeepsInv(s, a);
    case Insert(_) => BeginKeepsInv(s, a);
    case Advance(_) => RowStepKeepsInv(s, a);
    case Deactivate => RowStepKeepsInv(s, a);
    case Delete => RowStepKeepsInv(s, a);
    case _ => OwnStepKeepsInv(s, a);
  }

  ghost predicate OrderlyAt(states: seq<State>, run: seq<Action>, i: nat) {
    i < |run| && i < |states| && Punctual(states[i]) && Apart(states[i], run[i])
  }

  /** Every poll punctual and every connect apart, for the first `n` steps. */
  ghost predicate Orderly(states: seq<State>, run: seq<Action>, n: nat) {
    forall i: nat | i < n :: OrderlyAt(states, run, i)
  }

  lemma {:induction false} TraceKeepsInv(states: seq<State>, run: seq<Action>, n: nat)
    requires Trace(states, run) && n <= |run| && Orderly(states, run, n)
    ensures Inv(states[n])
  {
    if n > 0 {
      TraceKeepsInv(states, run, n - 1);
      assert StepAt(states, run, n - 1) && OrderlyAt(states, run, n - 1);
      StepKeepsInv(states[n - 1], run[n - 1]);
    }
  }

  /** The row holds the cursors the poll carries, or is gone. */
  predicate UpToDate(s: State, id: nat) {
    id in s.polls && (s.row.Some? ==> s.row.value.cursors == s.polls[id].local)
  }

  /** In an orderly run at most one poll or first pull is at work, no pull goes out with
      cursors other than the stored ones, and none is moved under it until it writes. */
  lemma NoStalePull(states: seq<State>, run: seq<Action>, n: nat, a: nat, b: nat)
    requires Trace(states, run) && n <= |run| && Orderly(states, run, n)
    ensures WorkingOn(states[n], a) && WorkingOn(states[n], b) ==> a == b
    ensures WorkingOn(states[n], a) ==> UpToDate(states[n], a)
    ensures n < |run| && (run[n].Issue? || run[n].CursorWrite?) ==> UpToDate(states[n], run[n].id)
  {
    TraceKeepsInv(states, run, n);
    if n < |run| && (run[n].Issue? || run[n].CursorWrite?) {
      assert StepAt(states, run, n);
      assert WorkingOn(states[n], run[n].id);
    }
  }

  /** And no notice is hollow. */
  lemma {:induction false} NoneHollow(states: seq<State>, run: seq<Action>, n: nat)
    requires Trace(states, run) && n <= |run| && Orderly(states, run, n)
    ensures states[n].hollow == 0
  {
    if n > 0 {
      NoneHollow(states, run, n - 1);
      NoStalePull(states, run, n - 1, 0, 0);
      assert StepAt(states, run, n - 1);
    }
  }

  /** So in an orderly run the notices sent never outnumber the sets, and fall behind them
      while the cursor is set. */
  lemma NoticesWithinSets(states: seq<State>, run: seq<Action>, n: nat)
    requires Trace(states, run) && n <= |run| && Orderly(states, run, n)
    ensures states[n].notices + (if IsSet(states[n].Cursors()) then 1 else 0) <= states[n].sets
  {
    NoticesAccounted(states, run, n);
    NoneHollow(states, run, n);
  }

  /** A step that took the stored backfill from clear to set. */
  predicate SetsAt(states: seq<State>, k: nat) {
    k + 1 < |states| && !IsSet(states[k].Cursors()) && IsSet(states[k + 1].Cursors())
  }

  lemma {:induction false} SetsGrew(states: seq<State>, run: seq<Action>, i: nat, j: nat) returns (k: nat)
    requires Trace(states, run) && i <= j <= |run| && states[i].sets < states[j].sets
    ensures i <= k < j && SetsAt(states, k)
  {
    assert StepAt(states, run, j - 1);
    if states[j - 1].sets < states[j].sets {
      k := j - 1;
    } else {
      k := SetsGrew(states, run, i, j - 1);
    }
  }

  lemma {:induction false} CountsOnlyGrow(states: seq<State>, run: seq<Action>, i: nat, j: nat)
    requires Trace(states, run) && i <= j <= |run|
    ensures states[i].notices <= states[j].notices && states[i].hollow <= states[j].hollow
  {
    if i < j {
      CountsOnlyGrow(states, run, i, j - 1);
      assert StepAt(states, run, j - 1);
    }
  }

  /** Right after an orderly notice nothing is owed and the cursor is clear. */
  lemma AfterNotice(states: seq<State>, run: seq<Action>, i: nat)
    requires Trace(states, run) && i < |run| && Orderly(states, run, i + 1) && run[i].Notice?
    ensures Debt(states[i + 1]) == states[i + 1].notices - states[i + 1].sets - states[i + 1].hollow
  {
    var s' := states[i + 1];
    TraceKeepsInv(states, run, i);
    assert StepAt(states, run, i);
    assert WorkingOn(states[i], run[i].id);
    forall id ensures id !in Owing(s'.polls) {
      if id in Owing(s'.polls) { assert WorkingOn(states[i], id); }
    }
    assert Owing(s'.polls) == {};
  }

  /** One notice per backfill episode: in an orderly run, between any two notices sent some
      write set the cursor. */
  lemma BackfillEpisodes(states: seq<State>, run: seq<Action>, i: nat, j: nat) returns (k: nat)
    requires Trace(states, run) && i < j < |run| && Orderly(states, run, j + 1)
    requires run[i].Notice? && run[i].sent && run[j].Notice? && run[j].sent
    ensures i < k < j && SetsAt(states, k)
  {
    AfterNotice(states, run, i);
    DebtNeverGrows(states, run, i + 1, j + 1);
    NoneHollow(states, run, j + 1);
    NoneHollow(states, run, i + 1);
    CountsOnlyGrow(states, run, i + 1, j);
    assert StepAt(states, run, j);
    assert states[i + 1].sets < states[j + 1].sets == states[j].sets;
    k := SetsGrew(states, run, i + 1, j);
  }

  /** So behind a notice too many, or a hollow one, there is a poll that outlived its interval
      or a connect that met another pull. */
  lemma NoticeTooManyNeedsOverlap(states: seq<State>, run: seq<Action>, n: nat) returns (i: nat)
    requires Trace(states, run) && n <= |run|
    requires states[n].notices > states[n].sets || states[n].hollow > 0
    ensures i < n && !(Punctual(states[i]) && Apart(states[i], run[i]))
  {
    if forall i: nat | i < n :: OrderlyAt(states, run, i) {
      NoneHollow(states, run, n);
      NoticesWithinSets(states, run, n);
      assert false;
    }
    i :| i < n && !OrderlyAt(states, run, i);
  }

  /** Exactly when another poll gets in beside a poll at work: once the holder has outlived its
      interval. */
  lemma SecondClaimIff(states: seq<State>, run: seq<Action>, n: nat, holder: nat, id: nat, at: int)
    requires Trace(states, run) && n <= |run| && Orderly(states, run, n)
    requires WorkingOn(states[n], holder) && !states[n].polls[holder].first && id !in states[n].polls
    requires states[n].row.Some? && states[n].row.value.active && at <= states[n].now
    ensures Enabled(states[n], Claim(id, at)) <==> at >= states[n].polls[holder].at + states[n].interval
  {
    TraceKeepsInv(states, run, n);
  }

  // ------------------------------------------------------------- the code's own

  /** A pass of the code is steps of this system, whatever anyone else did between its pull in
      `s` and its write in `s'`: with the cursors it was handed its pull can go out, its write
      leaves the row it leaves here, and the poll goes on as the pass reports. */
  lemma PassIsSteps(s: State, s': State, id: nat, p: Pass)
    requires ValidPass(p) && s.Phase(id, Idle) && !s.polls[id].first && s.polls[id].local == p.local
    requires id in s'.polls && s'.polls[id] == s.polls[id].(phase := Pulling) && s'.Cursors() == p.world.atWrite
    ensures Enabled(s, Issue(id)) && Step(s, Issue(id)).polls[id] == s'.polls[id]
    ensures !ReachesCursors(p.world) ==> Enabled(s', End(id)) && Step(s', End(id)).Cursors() == p.after
    ensures ReachesCursors(p.world) ==>
              var a := CursorWrite(id, p.world.pull, p.world.cursorWrite, p.world.secondWrite);
              && Enabled(s', a) && Step(s', a).Cursors() == p.after
              && (Step(s', a).Phase(id, Noticing) <==> p.drained)
              && (Step(s', a).Phase(id, Done) <==> !Completes(p))
              && (p.ok ==> Step(s', a).polls[id].local == p.next)
  {
  }

  /** The same of the first pull of a connect. */
  lemma FirstPullIsStep(s: State, id: nat, w: PassWorld)
    requires s.Phase(id, Pulling) && s.polls[id].first && ReachesCursors(w) && s.Cursors() == w.atWrite
    ensures var a := CursorWrite(id, w.pull, w.cursorWrite, w.secondWrite);
            && Enabled(s, a)
            && Step(s, a).Cursors() == FirstStep(s.polls[id].local, w.atWrite, w.pull, w.cursorWrite).row
            && Step(s, a).Phase(id, Done) && Step(s, a).hollow == s.hollow
  {
  }

  // ---------------------------------------------------- what breaks without them

  ghost predicate AllPunctual(states: seq<State>) {
    forall i | 0 <= i < |states| :: Punctual(states[i])
  }

  ghost predicate AllApart(states: seq<State>, run: seq<Action>) {
    |states| > |run| && forall i | 0 <= i < |run| :: Apart(states[i], run[i])
  }

  lemma Extend(states: seq<State>, run: seq<Action>, a: Action) returns (states': seq<State>, run': seq<Action>)
    requires Trace(states, run) && Enabled(states[|run|], a)
    ensures run' == run + [a] && states' == states + [Step(states[|run|], a)] && Trace(states', run')
    ensures AllPunctual(states) && Punctual(Step(states[|run|], a)) ==> AllPunctual(states')
    ensures AllApart(states, run) && Apart(states[|run|], a) ==> AllApart(states', run')
  {
    run', states' := run + [a], states + [Step(states[|run|], a)];
    forall i: nat | i < |run'| ensures StepAt(states', run', i) {
      assert i < |run| ==> StepAt(states, run, i);
    }
    forall i | 0 <= i < |run| ensures run'[i] == run[i] && states'[i] == states[i] { }
  }

  const OLD: Cursors := Cursors(None, Some("x"))

  /** A pull whose backward walk drains and whose forward walk sees nothing new. */
  const DRAINED_PULL: Pull := Pulled(true, None, None, 0)

  ghost function SeededState(): State {
    State(60000, 60000, true, Some(Stored(OLD, 120000, true)),
          map[0 := Poll(true, 0, OLD, Done), 1 := Poll(false, 60000, OLD, Idle)], 0, 1, 0)
  }

  /** A connection whose first pull set the cursor, claimed a minute later. */
  lemma Seeded() returns (states: seq<State>, run: seq<Action>)
    ensures Trace(states, run) && states[|run|] == SeededState()
    ensures AllPunctual(states) && AllApart(states, run)
  {
    var start := State(0, 60000, false, None, map[], 0, 0, 0);
    states, run := [start], [];
    states, run := Extend(states, run, Insert(0));
    states, run := Extend(states, run, Issue(0));
    states, run := Extend(states, run, CursorWrite(0, Pulled(false, None, Some("x"), 1), Landed, Landed));
    states, run := Extend(states, run, Advance(60000));
    states, run := Extend(states, run, Claim(1, 60000));
    assert states[|run|].polls == SeededState().polls;
  }

  /** A pass that outlives its interval meets the next claim: both carry the same cursor, both
      drain it, and two notices go out for one set. */
  lemma OverrunNotifiesTwice() returns (states: seq<State>, run: seq<Action>)
    ensures Trace(states, run) && AllApart(states, run)
    ensures states[|run|].notices == 2 && states[|run|].sets == 1
  {
    states, run := Seeded();
    states, run := Extend(states, run, Issue(1));
    states, run := Extend(states, run, Advance(120000));
    states, run := Extend(states, run, Claim(2, 120000));
    states, run := BothDrain(states, run);
  }

  lemma BothDrain(states: seq<State>, run: seq<Action>) returns (states': seq<State>, run': seq<Action>)
    requires Trace(states, run) && AllApart(states, run)
    requires var s := states[|run|];
             && s.Cursors() == Some(OLD) && s.notices == 0 && s.sets == 1
             && 1 in s.polls && s.polls[1] == Poll(false, 60000, OLD, Pulling)
             && 2 in s.polls && s.polls[2] == Poll(false, 120000, OLD, Idle)
    ensures Trace(states', run') && AllApart(states', run')
    ensures states'[|run'|].notices == 2 && states'[|run'|].sets == 1
  {
    states', run' := Extend(states, run, Issue(2));
    states', run' := Extend(states', run', CursorWrite(1, DRAINED_PULL, Landed, Landed));
    states', run' := Extend(states', run', CursorWrite(2, DRAINED_PULL, Landed, Landed));
    states', run' := Extend(states', run', Notice(1, true));
    states', run' := Extend(states', run', Notice(2, true));
  }

  /** A connect again, between two passes of a claimed poll, leaves the cursor at `resume`. */
  lemma Rekeyed(resume: Option<string>) returns (states: seq<State>, run: seq<Action>)
    ensures Trace(states, run) && AllPunctual(states)
    ensures var s := states[|run|];
            && s.Cursors() == Some(Cursors(None, resume)) && s.notices == 0 && s.sets == 1 && s.hollow == 0
            && s.Phase(1, Idle) && s.polls[1] == Poll(false, 60000, OLD, Idle) && s.now == 60000 && s.interval == 60000
            && (forall id | id in s.polls && id != 1 :: !s.polls[id].Working())
  {
    states, run := Seeded();
    states, run := Extend(states, run, Rekey(3));
    states, run := Extend(states, run, Issue(3));
    states, run := Extend(states, run, CursorWrite(3, Pulled(false, None, resume, 1000), Landed, Landed));
  }

  /** The poll's next pull then goes out with a cursor the row no longer holds. If the connect
      cleared it, the poll announces a drain that happened to no one; if it set another, the
      poll clears that one and announces it, and its place to resume is lost. */
  lemma RekeyBetweenPasses(resume: Option<string>) returns (states: seq<State>, run: seq<Action>, n: nat)
    requires resume != Some("x")
    ensures Trace(states, run) && AllPunctual(states) && n + 2 < |run|
    ensures run[n] == Issue(1) && !UpToDate(states[n], 1)
    ensures states[n + 1].Cursors() == Some(Cursors(None, resume)) && states[n + 2].Cursors() == Some(Cursors(None, None))
    ensures run[|run| - 1] == Notice(1, true) && states[|run|].notices == 1
    ensures states[|run|].hollow == if resume.None? then 1 else 0
  {
    states, run := Rekeyed(resume);
    n := |run|;
    states, run := Extend(states, run, Issue(1));
    states, run := Extend(states, run, CursorWrite(1, DRAINED_PULL, Landed, Landed));
    states, run := Extend(states, run, Notice(1, true));
  }
}
