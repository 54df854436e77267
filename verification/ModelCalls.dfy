/** The model-call ledger of one organization: a slot per (project, signature, stage), claimed
    once and for all under two ceilings, by any number of overlapping runs. A claim is one
    statement, but counts in its own snapshot: other claims may land before its insert. */
module ModelCalls {
  import opened Common

  datatype Stage = Render | Cause

  datatype Slot = Slot(project: string, signature: string, stage: Stage)

  type Ledger = set<Slot>

  datatype ClaimResult = Claimed | AlreadyClaimed | CapExhausted

  /** The part of a ledger one ceiling counts: a project's, or the whole organization's. */
  predicate Counts(scope: Option<string>, slot: Slot) {
    scope.None? || slot.project == scope.value
  }

  /** Both ceilings count both stages. */
  function Spend(ledger: Ledger, scope: Option<string>): nat {
    |set s | s in ledger && Counts(scope, s)|
  }

  predicate HasRoom(ledger: Ledger, project: string, projectCap: nat, organizationCap: nat) {
    Spend(ledger, Some(project)) < projectCap && Spend(ledger, None) < organizationCap
  }

  /** A claim counts `ledger`, and finds `late` landed besides when it inserts: a slot taken by
      then is a conflict, whatever was counted. */
  function ClaimSlot(ledger: Ledger, late: Ledger, slot: Slot, projectCap: nat, organizationCap: nat): (Ledger, ClaimResult) {
    if slot in ledger + late then (ledger + late, AlreadyClaimed)
    else if HasRoom(ledger, slot.project, projectCap, organizationCap) then (ledger + late + {slot}, Claimed)
    else (ledger + late, CapExhausted)
  }

  // --------------------------------------------- any interleaving of runs

  /** A claim between its count and its insert. */
  datatype Counting = Counting(slot: Slot, room: bool)

  /** `granted` maps a caller to the slot it holds and has not spent; `calls` are the model
      calls made. */
  datatype State = State(ledger: Ledger, counting: map<nat, Counting>, granted: map<nat, Slot>, calls: multiset<Slot>)

  /** A caller counts, inserts (its write may throw), calls the model with what it was granted,
      or dies. */
  datatype Action =
    | Count(id: nat, slot: Slot, projectCap: nat, organizationCap: nat)
    | Insert(id: nat, write: Write)
    | CallModel(id: nat)
    | Die(id: nat)

  ghost predicate Enabled(s: State, a: Action) {
    match a
    case Count(id, _, _, _) => id !in s.counting && id !in s.granted
    case Insert(id, _) => id in s.counting
    case CallModel(id) => id in s.granted
    case Die(id) => id in s.counting || id in s.granted
  }

  /** What the insert of a claim finds. */
  function Found(ledger: Ledger, c: Counting): ClaimResult {
    if c.slot in ledger then AlreadyClaimed else if c.room then Claimed else CapExhausted
  }

  ghost function Step(s: State, a: Action): State
    requires Enabled(s, a)
  {
    match a
    case Count(id, slot, projectCap, organizationCap) =>
      s.(counting := s.counting[id := Counting(slot, HasRoom(s.ledger, slot.project, projectCap, organizationCap))])
    case Insert(id, write) =>
      var c := s.counting[id];
      var claimed := Found(s.ledger, c).Claimed?;
      State(if claimed && write.Stored() then s.ledger + {c.slot} else s.ledger,
            s.counting - {id},
            if claimed && !write.Threw() then s.granted[id := c.slot] else s.granted,
            s.calls)
    case CallModel(id) => s.(granted := s.granted - {id}, calls := s.calls + multiset{s.granted[id]})
    case Die(id) => s.(counting := s.counting - {id}, granted := s.granted - {id})
  }

  ghost function Start(): State {
    State({}, map[], map[], multiset{})
  }

  ghost predicate Trace(states: seq<State>, run: seq<Action>) {
    && |states| == |run| + 1
    && states[0] == Start()
    && (forall i | 0 <= i < |run| :: Enabled(states[i], run[i]) && states[i + 1] == Step(states[i], run[i]))
  }

  /** Count and insert, with other claims in between, answer as ClaimSlot says. */
  lemma CountThenInsert(s: State, s': State, a: Action, write: Write, late: Ledger)
    requires a.Count? && Enabled(s, a) && s'.ledger == s.ledger + late
    requires a.id in s'.counting && s'.counting[a.id] == Step(s, a).counting[a.id]
    ensures var (ledger', result) := ClaimSlot(s.ledger, late, a.slot, a.projectCap, a.organizationCap);
            && Found(s'.ledger, s'.counting[a.id]) == result
            && Step(s', Insert(a.id, write)).ledger == if write.Stored() then ledger' else s'.ledger
  {
  }

  /** A slot is in the ledger before it is held or called, and is held or called only once. */
  ghost predicate Inv(s: State) {
    && (forall id | id in s.granted :: s.granted[id] in s.ledger && s.granted[id] !in s.calls && id !in s.counting)
    && (forall a, b | a in s.granted && b in s.granted && s.granted[a] == s.granted[b] :: a == b)
    && (forall slot | slot in s.calls :: slot in s.ledger && s.calls[slot] == 1)
  }

  lemma CallKeepsInv(s: State, id: nat)
    requires Inv(s) && Enabled(s, CallModel(id))
    ensures Inv(Step(s, CallModel(id)))
  {
    var slot, s' := s.granted[id], Step(s, CallModel(id));
    assert forall k :: s'.calls[k] == s.calls[k] + (if k == slot then 1 else 0);
    forall a | a in s'.granted ensures a in s.granted && s.granted[a] != slot && s'.granted[a] == s.granted[a] { }
  }

  lemma InsertKeepsInv(s: State, a: Action)
    requires Inv(s) && Enabled(s, a) && a.Insert?
    ensures Inv(Step(s, a))
  {
    var slot := s.counting[a.id].slot;
    assert forall id | id in s.granted :: id != a.id && s.granted[id] in s.ledger;
    assert slot !in s.ledger ==> slot !in s.calls;
  }

  lemma StepKeepsInv(s: State, a: Action)
    requires Inv(s) && Enabled(s, a)
    ensures Inv(Step(s, a))
  {
    match a
    case CallModel(id) => CallKeepsInv(s, id);
    case Insert(_, _) => InsertKeepsInv(s, a);
    case _ =>
  }

  lemma {:induction false} LedgerSafety(states: seq<State>, run: seq<Action>, n: nat)
    requires Trace(states, run) && n <= |run|
    ensures Inv(states[n])
  {
    if n > 0 {
      LedgerSafety(states, run, n - 1);
      StepKeepsInv(states[n - 1], run[n - 1]);
    }
  }

  /** An insert that took `slot` and was acknowledged. */
  ghost predicate Grants(s: State, a: Action, slot: Slot) {
    a.Insert? && a.id in s.counting && s.counting[a.id].slot == slot
    && Found(s.ledger, s.counting[a.id]).Claimed? && !a.write.Threw()
  }

  /** Over every interleaving, each model is called at most once per slot and never without a
      granted claim. */
  lemma AtMostOneCall(states: seq<State>, run: seq<Action>, n: nat, slot: Slot)
    requires Trace(states, run) && n <= |run|
    ensures states[n].calls[slot] <= 1
    ensures states[n].calls[slot] == 1 ==> exists i | 0 <= i < n :: Grants(states[i], run[i], slot)
  {
    LedgerSafety(states, run, n);
    if slot in states[n].calls {
      CallWasGranted(states, run, n, slot);
    }
  }

  lemma {:induction false} CallWasGranted(states: seq<State>, run: seq<Action>, n: nat, slot: Slot)
    requires Trace(states, run) && n <= |run|
    requires slot in states[n].calls || exists id :: id in states[n].granted && states[n].granted[id] == slot
    ensures exists i | 0 <= i < n :: Grants(states[i], run[i], slot)
  {
    assert n > 0;
    var s, a := states[n - 1], run[n - 1];
    assert states[n] == Step(s, a);
    if slot in s.calls || exists id :: id in s.granted && s.granted[id] == slot {
      CallWasGranted(states, run, n - 1, slot);
    } else {
      assert Grants(s, a, slot);
    }
  }

  // ------------------------------------------------------------ the ceilings

  /** The claims of one scope that counted room and have yet to insert. */
  ghost function OpenIds(counting: map<nat, Counting>, scope: Option<string>): set<nat> {
    set id | id in counting && Counts(scope, counting[id].slot) && counting[id].room
  }

  ghost function Open(s: State, scope: Option<string>): nat {
    |OpenIds(s.counting, scope)|
  }

  lemma SpendAfterClaim(ledger: Ledger, slot: Slot, scope: Option<string>)
    requires slot !in ledger
    ensures Spend(ledger + {slot}, scope) == Spend(ledger, scope) + (if Counts(scope, slot) then 1 else 0)
  {
    var before := set s | s in ledger && Counts(scope, s);
    var after := set s | s in ledger + {slot} && Counts(scope, s);
    assert after == if Counts(scope, slot) then before + {slot} else before;
  }

  lemma OpenAfterCount(s: State, s': State, id: nat, c: Counting, scope: Option<string>)
    requires id !in s.counting && s'.counting == s.counting[id := c]
    ensures Open(s', scope) == Open(s, scope) + (if Counts(scope, c.slot) && c.room then 1 else 0)
  {
    var before, after := OpenIds(s.counting, scope), OpenIds(s'.counting, scope);
    assert forall k | k != id :: k in after <==> k in before;
    assert after == if Counts(scope, c.slot) && c.room then before + {id} else before;
  }

  lemma OpenAfterEnd(s: State, s': State, id: nat, scope: Option<string>)
    requires s'.counting == s.counting - {id}
    ensures Open(s, scope) == Open(s', scope)
              + (if id in s.counting && Counts(scope, s.counting[id].slot) && s.counting[id].room then 1 else 0)
  {
    if id in s.counting {
      assert s'.counting[id := s.counting[id]] == s.counting;
      OpenAfterCount(s', s, id, s.counting[id], scope);
    } else {
      assert s'.counting == s.counting;
    }
  }

  /** The ceiling of a scope that a count is made under. */
  function CapOf(a: Action, scope: Option<string>): nat
    requires a.Count?
  {
    if scope.None? then a.organizationCap else a.projectCap
  }

  /** What is spent and what is about to be: only a count that found room adds to it. */
  lemma StepMovesSpend(s: State, a: Action, scope: Option<string>)
    requires Enabled(s, a)
    ensures var s' := Step(s, a);
            if a.Count? then
              Spend(s'.ledger, scope) == Spend(s.ledger, scope)
              && (Open(s', scope) == Open(s, scope)
                  || (Open(s', scope) == Open(s, scope) + 1 && Spend(s.ledger, scope) < CapOf(a, scope)))
            else Spend(s'.ledger, scope) + Open(s', scope) <= Spend(s.ledger, scope) + Open(s, scope)
  {
    var s' := Step(s, a);
    match a
    case Count(id, slot, _, _) => OpenAfterCount(s, s', id, s'.counting[id], scope);
    case Insert(id, _) =>
      OpenAfterEnd(s, s', id, scope);
      if s'.ledger != s.ledger { SpendAfterClaim(s.ledger, s.counting[id].slot, scope); }
    case CallModel(_) => assert s'.counting == s.counting;
    case Die(id) => OpenAfterEnd(s, s', id, scope);
  }

  /** No count of the scope is made under a higher ceiling, and at most `wide` of its claims
      stand between a count that found room and their insert at once. */
  ghost predicate Within(states: seq<State>, run: seq<Action>, n: nat, scope: Option<string>, cap: nat, wide: nat) {
    && n <= |run| < |states|
    && (forall i | 0 <= i < n && run[i].Count? && Counts(scope, run[i].slot) :: CapOf(run[i], scope) <= cap)
    && (forall i | 0 <= i <= n :: Open(states[i], scope) <= wide)
  }

  /** A ceiling is overshot by less than the number of its claims that overlap. */
  lemma {:induction false} OvershootBounded(states: seq<State>, run: seq<Action>, n: nat, scope: Option<string>, cap: nat, wide: nat)
    requires Trace(states, run) && Within(states, run, n, scope, cap, wide) && wide >= 1
    ensures Spend(states[n].ledger, scope) + Open(states[n], scope) <= cap + wide - 1
  {
    if n == 0 {
      assert (set s | s in states[0].ledger && Counts(scope, s)) == {};
      assert OpenIds(states[0].counting, scope) == {};
    } else {
      OvershootBounded(states, run, n - 1, scope, cap, wide);
      var s, a := states[n - 1], run[n - 1];
      StepMovesSpend(s, a, scope);
      if a.Count? && !Counts(scope, a.slot) { OpenAfterCount(s, states[n], a.id, states[n].counting[a.id], scope); }
    }
  }

  /** So a ceiling holds wherever the claims it counts do not overlap, and however they do it
      holds but for one less than the overlap; the calls never outnumber the ledger. */
  lemma CapsHold(states: seq<State>, run: seq<Action>, n: nat, scope: Option<string>, cap: nat, wide: nat)
    requires Trace(states, run) && Within(states, run, n, scope, cap, wide)
    ensures wide <= 1 ==> Spend(states[n].ledger, scope) <= cap
    ensures wide >= 1 ==> Spend(states[n].ledger, scope) <= cap + wide - 1
    ensures |states[n].calls| <= |states[n].ledger| == Spend(states[n].ledger, None)
  {
    OvershootBounded(states, run, n, scope, cap, if wide == 0 then 1 else wide);
    LedgerSafety(states, run, n);
    CallsWithinLedger(states[n].calls, states[n].ledger);
    assert (set s | s in states[n].ledger && Counts(None, s)) == states[n].ledger;
  }

  /** So an overshot ceiling has, behind it, two claims that both counted room before either
      inserted. */
  lemma OvershootNeedsOverlap(states: seq<State>, run: seq<Action>, n: nat, scope: Option<string>, cap: nat) returns (i: nat)
    requires Trace(states, run) && n <= |run|
    requires forall i | 0 <= i < n && run[i].Count? && Counts(scope, run[i].slot) :: CapOf(run[i], scope) <= cap
    requires Spend(states[n].ledger, scope) > cap
    ensures i <= n && Open(states[i], scope) >= 2
  {
    if forall k | 0 <= k <= n :: Open(states[k], scope) <= 1 {
      CapsHold(states, run, n, scope, cap, 1);
      assert false;
    }
    i :| 0 <= i <= n && Open(states[i], scope) > 1;
  }

  lemma {:induction false} CallsWithinLedger(calls: multiset<Slot>, ledger: Ledger)
    requires forall slot | slot in calls :: slot in ledger && calls[slot] == 1
    ensures |calls| <= |ledger|
    decreases |ledger|
  {
    if slot :| slot in calls {
      CallsWithinLedger(calls[slot := 0], ledger - {slot});
      assert calls == calls[slot := 0] + multiset{slot};
    } else {
      assert calls == multiset{};
    }
  }

  // ------------------------------------------------- how far it is overshot

  function Tally(n: nat): string {
    seq(n, _ => 'i')
  }

  /** A different slot of one project for every number. */
  function SlotOf(project: string, n: nat): Slot {
    Slot(project, Tally(n), Render)
  }

  lemma SlotsDiffer(project: string, a: nat, b: nat)
    requires a != b
    ensures SlotOf(project, a) != SlotOf(project, b)
  {
    assert |Tally(a)| == a && |Tally(b)| == b;
  }

  lemma OneStepMore(states: seq<State>, run: seq<Action>, a: Action)
    requires Trace(states, run) && Enabled(states[|run|], a)
    ensures Trace(states + [Step(states[|run|], a)], run + [a])
  {
    var longer, next := states + [Step(states[|run|], a)], run + [a];
    forall i | 0 <= i < |next| ensures Enabled(longer[i], next[i]) && longer[i + 1] == Step(longer[i], next[i]) {
      assert i < |run| ==> next[i] == run[i] && longer[i + 1] == states[i + 1];
      assert longer[i] == states[i];
    }
  }

  /** `stored` slots are in the ledger and `open` more have been counted with room. */
  ghost predicate Stand(s: State, project: string, stored: nat, open: nat) {
    && s.ledger == Slots(project, stored)
    && s.counting == (map k: nat | stored <= k < stored + open :: Counting(SlotOf(project, k), true))
    && (forall id | id in s.granted :: id < stored)
  }

  lemma StandSpends(s: State, project: string, stored: nat, open: nat, scope: Option<string>)
    requires Stand(s, project, stored, open) && Counts(scope, SlotOf(project, 0))
    ensures Spend(s.ledger, scope) == stored && Open(s, scope) == open
  {
    SlotsCount(project, stored, stored);
    assert (set x | x in s.ledger && Counts(scope, x)) == s.ledger;
    IdsCount(stored, open);
    assert forall k: nat | stored <= k < stored + open :: k in s.counting && s.counting[k] == Counting(SlotOf(project, k), true);
    assert OpenIds(s.counting, scope) == Ids(stored, open);
  }

  /** The first `n` slots of a project. */
  ghost function Slots(project: string, n: nat): (r: set<Slot>)
    ensures forall k: nat | k < n :: SlotOf(project, k) in r
    ensures forall x | x in r :: x.project == project
  {
    if n == 0 then {} else Slots(project, n - 1) + {SlotOf(project, n - 1)}
  }

  lemma {:induction false} SlotsCount(project: string, n: nat, beyond: nat)
    requires beyond >= n
    ensures |Slots(project, n)| == n && SlotOf(project, beyond) !in Slots(project, n)
  {
    if n > 0 {
      SlotsCount(project, n - 1, n - 1);
      SlotsCount(project, n - 1, beyond);
      SlotsDiffer(project, n - 1, beyond);
    }
  }

  /** The numbers from `from` on, `n` of them. */
  ghost function Ids(from: nat, n: nat): (r: set<nat>)
    ensures forall k: nat :: k in r <==> from <= k < from + n
  {
    if n == 0 then {} else Ids(from, n - 1) + {from + n - 1}
  }

  lemma {:induction false} IdsCount(from: nat, n: nat)
    ensures |Ids(from, n)| == n
  {
    if n > 0 { IdsCount(from, n - 1); }
  }

  /** One more claim counts, under ceilings the project has not reached. */
  lemma CountOneMore(s: State, project: string, stored: nat, open: nat, cap: nat)
    requires Stand(s, project, stored, open) && stored < cap
    ensures var a := Count(stored + open, SlotOf(project, stored + open), cap, cap);
            Enabled(s, a) && Stand(Step(s, a), project, stored, open + 1)
  {
    StandSpends(s, project, stored, open, Some(project));
    StandSpends(s, project, stored, open, None);
  }

  /** The first open claim inserts. */
  lemma InsertOneMore(s: State, project: string, stored: nat, open: nat)
    requires Stand(s, project, stored, open) && open > 0
    ensures var a := Insert(stored, Landed);
            Enabled(s, a) && Stand(Step(s, a), project, stored + 1, open - 1)
  {
    var s' := Step(s, Insert(stored, Landed));
    SlotsCount(project, stored, stored);
    assert s'.counting == (map k: nat | stored + 1 <= k < stored + open :: Counting(SlotOf(project, k), true));
    assert s'.ledger == Slots(project, stored + 1);
  }

  /** A run that stands so far, within `wide` overlapping claims under `cap`. */
  ghost predicate Reaching(states: seq<State>, run: seq<Action>, project: string, stored: nat, open: nat, cap: nat, wide: nat) {
    && Trace(states, run) && Stand(states[|run|], project, stored, open)
    && Within(states, run, |run|, Some(project), cap, wide) && Within(states, run, |run|, None, cap, wide)
  }

  lemma CountNext(states: seq<State>, run: seq<Action>, project: string, stored: nat, open: nat, cap: nat, wide: nat)
    returns (states': seq<State>, run': seq<Action>)
    requires Reaching(states, run, project, stored, open, cap, wide) && stored < cap && open < wide
    ensures Reaching(states', run', project, stored, open + 1, cap, wide)
  {
    var a := Count(stored + open, SlotOf(project, stored + open), cap, cap);
    var s := states[|run|];
    CountOneMore(s, project, stored, open, cap);
    OneStepMore(states, run, a);
    StandSpends(Step(s, a), project, stored, open + 1, None);
    StandSpends(Step(s, a), project, stored, open + 1, Some(project));
    states', run' := states + [Step(s, a)], run + [a];
  }

  lemma InsertNext(states: seq<State>, run: seq<Action>, project: string, stored: nat, open: nat, cap: nat, wide: nat)
    returns (states': seq<State>, run': seq<Action>)
    requires Reaching(states, run, project, stored, open, cap, wide) && 0 < open <= wide
    ensures Reaching(states', run', project, stored + 1, open - 1, cap, wide)
  {
    var a, s := Insert(stored, Landed), states[|run|];
    InsertOneMore(s, project, stored, open);
    OneStepMore(states, run, a);
    StandSpends(Step(s, a), project, stored + 1, open - 1, None);
    StandSpends(Step(s, a), project, stored + 1, open - 1, Some(project));
    states', run' := states + [Step(s, a)], run + [a];
  }

  /** Claims made one at a time, until the ceilings have room for one more. */
  lemma {:induction false} FillUp(project: string, stored: nat, cap: nat, wide: nat) returns (states: seq<State>, run: seq<Action>)
    requires stored < cap && wide >= 1
    ensures Reaching(states, run, project, stored, 0, cap, wide)
  {
    if stored == 0 {
      states, run := [Start()], [];
      StandSpends(Start(), project, 0, 0, None);
      StandSpends(Start(), project, 0, 0, Some(project));
    } else {
      states, run := FillUp(project, stored - 1, cap, wide);
      states, run := CountNext(states, run, project, stored - 1, 0, cap, wide);
      states, run := InsertNext(states, run, project, stored - 1, 1, cap, wide);
    }
  }

  lemma {:induction false} InsertAll(states: seq<State>, run: seq<Action>, project: string, stored: nat, open: nat, cap: nat, wide: nat)
    returns (states': seq<State>, run': seq<Action>)
    requires Reaching(states, run, project, stored, open, cap, wide) && open <= wide
    ensures Reaching(states', run', project, stored + open, 0, cap, wide)
    decreases open
  {
    states', run' := states, run;
    if open > 0 {
      states', run' := InsertNext(states, run, project, stored, open, cap, wide);
      states', run' := InsertAll(states', run', project, stored + 1, open - 1, cap, wide);
    }
  }

  /** The bound is reached for every ceiling and every overlap: claims one at a time until one
      is left, then `wide` that all count before any inserts. */
  lemma OvershootReached(project: string, cap: nat, wide: nat) returns (states: seq<State>, run: seq<Action>)
    requires cap >= 1 && wide >= 1
    ensures Trace(states, run)
    ensures Within(states, run, |run|, Some(project), cap, wide) && Within(states, run, |run|, None, cap, wide)
    ensures Spend(states[|run|].ledger, Some(project)) == Spend(states[|run|].ledger, None) == cap + wide - 1
  {
    states, run := FillUp(project, cap - 1, cap, wide);
    for k := 0 to wide
      invariant Reaching(states, run, project, cap - 1, k, cap, wide)
    {
      states, run := CountNext(states, run, project, cap - 1, k, cap, wide);
    }
    states, run := InsertAll(states, run, project, cap - 1, wide, cap, wide);
    StandSpends(states[|run|], project, cap - 1 + wide, 0, None);
    StandSpends(states[|run|], project, cap - 1 + wide, 0, Some(project));
  }
}
