/** One analysis run over a lane's candidates, its running totals and how it is closed; then
    the tick over all lanes. */
module AnalysisLane {
  import opened Common
  import opened Sequences
  import opened ModelCalls
  import opened AnalysisPlan

  // ------------------------------------------------------------------ totals

  function AddReported(total: Option<nat>, reported: Option<nat>): Option<nat> {
    if reported.None? then total
    else Some((if total.Some? then total.value else 0) + reported.value)
  }

  /** The counts reported by the attempted calls, in order. */
  function Reported(attributions: seq<Attribution>, side: Usage -> Option<nat>): seq<nat> {
    if attributions == [] then []
    else
      var last := attributions[|attributions| - 1];
      Reported(attributions[..|attributions| - 1], side)
      + (if last.Attempted? && side(last.usage).Some? then [side(last.usage).value] else [])
  }

  function Sum(s: seq<nat>): nat {
    if s == [] then 0 else Sum(s[..|s| - 1]) + s[|s| - 1]
  }

  function InSide(): Usage -> Option<nat> {
    (u: Usage) => u.tokensIn
  }

  function OutSide(): Usage -> Option<nat> {
    (u: Usage) => u.tokensOut
  }

  function WasAttempted(): Attribution -> bool {
    (a: Attribution) => a.Attempted?
  }

  /** A total is null exactly when nothing was reported, and the sum otherwise: "measured
      zero" and "never measured" stay apart. */
  function TotalOf(reports: seq<nat>): Option<nat> {
    if reports == [] then None else Some(Sum(reports))
  }

  /** The model id of the first call attempted. */
  function FirstModel(attributions: seq<Attribution>): Option<string> {
    if attributions == [] then None
    else
      var earlier, last := FirstModel(attributions[..|attributions| - 1]), attributions[|attributions| - 1];
      if earlier.Some? then earlier else if last.Attempted? then Some(last.modelId) else None
  }

  lemma {:induction false} FirstModelIs(attributions: seq<Attribution>, i: nat)
    requires i < |attributions| && attributions[i].Attempted?
    requires forall k | 0 <= k < i :: attributions[k] == NoCall
    ensures FirstModel(attributions) == Some(attributions[i].modelId)
  {
    var front := attributions[..|attributions| - 1];
    if i < |front| { FirstModelIs(front, i); } else { NoModel(front); }
  }

  lemma {:induction false} NoModel(attributions: seq<Attribution>)
    requires forall k | 0 <= k < |attributions| :: attributions[k] == NoCall
    ensures FirstModel(attributions) == None
  {
    if attributions != [] { NoModel(attributions[..|attributions| - 1]); }
  }

  /** What the provider reported of one side, call by call: nothing until something is. */
  function TokensIn(attributions: seq<Attribution>): Option<nat> {
    if attributions == [] then None
    else
      var earlier := TokensIn(attributions[..|attributions| - 1]);
      match attributions[|attributions| - 1]
      case Attempted(_, Usage(Some(n), _)) => if earlier == None then Some(n) else Some(earlier.value + n)
      case _ => earlier
  }

  function TokensOut(attributions: seq<Attribution>): Option<nat> {
    if attributions == [] then None
    else
      var earlier := TokensOut(attributions[..|attributions| - 1]);
      match attributions[|attributions| - 1]
      case Attempted(_, Usage(_, Some(n))) => if earlier == None then Some(n) else Some(earlier.value + n)
      case _ => earlier
  }

  lemma ReportedNext(front: seq<Attribution>, last: Attribution, side: Usage -> Option<nat>, next: Option<nat>)
    requires next == if last.Attempted? then side(last.usage) else None
    ensures TotalOf(Reported(front + [last], side)) == AddReported(TotalOf(Reported(front, side)), next)
  {
    assert (front + [last])[..|front|] == front;
    SumNext(Reported(front, side), next);
  }

  /** The total of the input side is that of the input side. */
  lemma {:induction false} TotalsIn(attributions: seq<Attribution>)
    ensures TotalOf(Reported(attributions, InSide())) == TokensIn(attributions)
  {
    if attributions != [] {
      var front, last := attributions[..|attributions| - 1], attributions[|attributions| - 1];
      TotalsIn(front);
      assert attributions == front + [last];
      TotalsInNext(front, last);
    }
  }

  lemma TotalsInNext(front: seq<Attribution>, last: Attribution)
    requires TotalOf(Reported(front, InSide())) == TokensIn(front)
    ensures TotalOf(Reported(front + [last], InSide())) == TokensIn(front + [last])
  {
    ReportedNext(front, last, InSide(), if last.Attempted? then last.usage.tokensIn else None);
    assert (front + [last])[..|front|] == front;
  }

  /** The total of the output side is that of the output side. */
  lemma {:induction false} TotalsOut(attributions: seq<Attribution>)
    ensures TotalOf(Reported(attributions, OutSide())) == TokensOut(attributions)
  {
    if attributions != [] {
      var front, last := attributions[..|attributions| - 1], attributions[|attributions| - 1];
      TotalsOut(front);
      assert attributions == front + [last];
      TotalsOutNext(front, last);
    }
  }

  lemma TotalsOutNext(front: seq<Attribution>, last: Attribution)
    requires TotalOf(Reported(front, OutSide())) == TokensOut(front)
    ensures TotalOf(Reported(front + [last], OutSide())) == TokensOut(front + [last])
  {
    ReportedNext(front, last, OutSide(), if last.Attempted? then last.usage.tokensOut else None);
    assert (front + [last])[..|front|] == front;
  }

  /** The totals are those of their own side. */
  lemma TotalsAre(attributions: seq<Attribution>)
    ensures TotalOf(Reported(attributions, InSide())) == TokensIn(attributions)
    ensures TotalOf(Reported(attributions, OutSide())) == TokensOut(attributions)
  {
    TotalsIn(attributions);
    TotalsOut(attributions);
  }

  class RunTally {
    var modelCallsAttempted: nat
    var resolvedModelId: Option<string>
    var tokensIn: Option<nat>
    var tokensOut: Option<nat>

    constructor ()
      ensures Tracks([])
    {
      modelCallsAttempted, resolvedModelId, tokensIn, tokensOut := 0, None, None, None;
    }

    /** The totals are those of exactly these attributions. */
    ghost predicate Tracks(attributions: seq<Attribution>)
      reads this
    {
      var attempted := Filter(WasAttempted(), attributions);
      && modelCallsAttempted == |attempted|
      && resolvedModelId == FirstModel(attributions)
      && tokensIn == TotalOf(Reported(attributions, InSide()))
      && tokensOut == TotalOf(Reported(attributions, OutSide()))
    }

    method ApplyAttribution(a: Attribution, ghost before: seq<Attribution>)
      requires Tracks(before)
      modifies this
      ensures Tracks(before + [a])
      ensures modelCallsAttempted == old(modelCallsAttempted) + (if a.Attempted? then 1 else 0)
    {
      assert (before + [a])[..|before|] == before;
      SumNext(Reported(before, InSide()), if a.Attempted? then a.usage.tokensIn else None);
      SumNext(Reported(before, OutSide()), if a.Attempted? then a.usage.tokensOut else None);
      if a.NoCall? { return; }
      modelCallsAttempted := modelCallsAttempted + 1;
      if resolvedModelId.None? { resolvedModelId := Some(a.modelId); }
      tokensIn := AddReported(tokensIn, a.usage.tokensIn);
      tokensOut := AddReported(tokensOut, a.usage.tokensOut);
    }
  }

  /** One more report, or none, moves the total as the null-aware addition does. */
  lemma SumNext(reports: seq<nat>, next: Option<nat>)
    ensures TotalOf(reports + (if next.Some? then [next.value] else [])) == AddReported(TotalOf(reports), next)
  {
    if next.Some? {
      assert (reports + [next.value])[..|reports|] == reports;
    } else {
      assert reports + [] == reports;
    }
  }

  // -------------------------------------------------------------------- lane

  datatype Open = Opened | AlreadyOpen | OpenThrew

  /** One candidate of the lane, with the faults of the writes that follow its plan. */
  datatype Item = Item(candidate: Candidate, persistThrew: bool, relookupThrew: bool, cause: CauseWorld)

  datatype StopReason = RanToCompletion | StoppedOnCap | FatalError

  datatype Counts = Counts(persisted: nat, unrenderable: nat, refused: nat, suppressed: nat)

  /** The run row as it is closed. */
  datatype RunRow = RunRow(
    completed: bool, producedFindings: bool, stopReason: StopReason, modelCallsAttempted: nat,
    candidatesUnrenderable: nat, candidatesRefused: nat,
    resolvedModelId: Option<string>, tokensIn: Option<nat>, tokensOut: Option<nat>)

  /** `closed` is missing when the closing write threw, which changes nothing else. */
  datatype LaneResult =
    | LaneThrew
    | AlreadyRunning
    | Ran(completed: bool, counts: Counts, modelCallsAttempted: nat, closed: Option<RunRow>)

  function Handled(c: Counts): nat {
    c.persisted + c.unrenderable + c.refused + c.suppressed
  }

  function IsRender(): Slot -> bool {
    (s: Slot) => s.stage.Render?
  }

  function RenderCalls(calls: seq<Slot>): nat {
    |Filter(IsRender(), calls)|
  }

  function IsWriteUp(): Plan -> bool {
    (p: Plan) => p.action.Persist? || p.action.Reuse?
  }

  function IsUnrenderable(): Plan -> bool {
    (p: Plan) => p.action.Unrenderable?
  }

  function IsRefused(): Plan -> bool {
    (p: Plan) => p.action.Refused?
  }

  function IsSuppressed(): Plan -> bool {
    (p: Plan) => p.action.Suppressed?
  }

  function Counted(c: Counts, p: Plan): (r: Counts)
    ensures Handled(r) == Handled(c) + 1
  {
    match p.action
    case Unrenderable => c.(unrenderable := c.unrenderable + 1)
    case Refused => c.(refused := c.refused + 1)
    case Suppressed => c.(suppressed := c.suppressed + 1)
    case _ => c.(persisted := c.persisted + 1)
  }

  /** The counters of a run that followed exactly these plans. */
  function CountsOf(plans: seq<Plan>): (c: Counts)
    ensures Handled(c) == |plans|
  {
    if plans == [] then Counts(0, 0, 0, 0)
    else Counted(CountsOf(plans[..|plans| - 1]), plans[|plans| - 1])
  }

  /** The counters are the plans sorted into kinds. */
  lemma {:induction false} CountsAreKinds(plans: seq<Plan>)
    ensures CountsOf(plans) == Counts(|Filter(IsWriteUp(), plans)|, |Filter(IsUnrenderable(), plans)|,
                                      |Filter(IsRefused(), plans)|, |Filter(IsSuppressed(), plans)|)
  {
    if plans != [] {
      var front, last := plans[..|plans| - 1], plans[|plans| - 1];
      CountsAreKinds(front);
      CountsNext(front, last);
      FilterCount(IsWriteUp(), front, last);
      FilterCount(IsUnrenderable(), front, last);
      FilterCount(IsRefused(), front, last);
      FilterCount(IsSuppressed(), front, last);
      assert plans == front + [last];
    }
  }

  lemma CountsNext(plans: seq<Plan>, p: Plan)
    ensures CountsOf(plans + [p]) == Counted(CountsOf(plans), p)
  {
    assert (plans + [p])[..|plans|] == plans;
  }

  lemma RenderCallsAppend(calls: seq<Slot>, more: seq<Slot>)
    ensures RenderCalls(calls + more) == RenderCalls(calls) + RenderCalls(more)
  {
    FilterAppend(IsRender(), calls, more);
  }

  lemma OneCall(slot: Slot)
    ensures RenderCalls([slot]) == if slot.stage.Render? then 1 else 0
    ensures RenderCalls([]) == 0
  {
    assert [slot][..0] == [];
  }

  /** The plan an item gets at a moment. */
  function PlanAt(m: Moment, config: Config, item: Item): Option<Plan> {
    PlanOf(m.ledger, m.findings, config, item.candidate)
  }

  /** The write a plan asks for goes through. */
  predicate IsWritten(item: Item, plan: Plan) {
    !(plan.action.Persist? && item.persistThrew)
  }

  /** The candidate is added to the counters. */
  predicate IsCounted(m: Moment, config: Config, item: Item) {
    var plan := PlanAt(m, config, item);
    plan.Some? && IsWritten(item, plan.value)
  }

  /** The finding whose cause is looked at once a plan has been made, and the moment it is
      looked at; `after` is the moment the plan left. */
  function CauseOf(after: Moment, config: Config, item: Item, plan: Plan): Option<(Moment, string)> {
    match plan.action
    case Persist(finding, _, _) =>
      if item.persistThrew then None else Some((after.(findings := after.findings + {finding}), finding.signature))
    case Reuse =>
      var identity := item.candidate.identity;
      if item.relookupThrew || identity.None? || FindingOf(config, item.candidate) !in after.findings then None
      else Some((after, identity.value))
    case _ => None
  }

  function AfterFollowing(after: Moment, config: Config, item: Item, plan: Plan): Moment {
    match CauseOf(after, config, item, plan)
    case None => after
    case Some((m1, signature)) => AfterCause(m1, config, signature, item.cause)
  }

  predicate FollowingThrows(after: Moment, config: Config, item: Item, plan: Plan) {
    || !IsWritten(item, plan)
    || (plan.action.Reuse? && item.relookupThrew)
    || var cause := CauseOf(after, config, item, plan);
       cause.Some? && CauseThrows(cause.value.0, config, cause.value.1, item.cause)
  }

  function AfterItem(m: Moment, config: Config, item: Item): Moment {
    var after := AfterPlan(m, config, item.candidate);
    match PlanAt(m, config, item)
    case None => after
    case Some(plan) => AfterFollowing(after, config, item, plan)
  }

  /** The candidate ends the lane. */
  predicate Throws(m: Moment, config: Config, item: Item) {
    var plan := PlanAt(m, config, item);
    plan.None? || FollowingThrows(AfterPlan(m, config, item.candidate), config, item, plan.value)
  }

  /** The finding a plan leaves on record: one it wrote up, or one it found there. */
  function LeftOnRecord(after: Moment, config: Config, item: Item, plan: Plan): Option<Finding> {
    match plan.action
    case Persist(finding, _, _) => if item.persistThrew then None else Some(finding)
    case Reuse =>
      var identity := item.candidate.identity;
      if !item.relookupThrew && identity != None && Finding(config.project, identity.value) in after.findings
      then Some(Finding(config.project, identity.value)) else None
    case _ => None
  }

  /** Following a plan: the write-up is the one thing put on record, a cause is looked for exactly
      for a finding left on record, under its own signature, and what ends the lane is a write-up
      or a second lookup that threw, or the cause stage itself. */
  lemma FollowsIff(after: Moment, config: Config, item: Item, plan: Plan)
    ensures var end, left := AfterFollowing(after, config, item, plan), LeftOnRecord(after, config, item, plan);
            var found := if plan.action.Persist? && !item.persistThrew then after.findings + {plan.action.finding} else after.findings;
            var m := after.(findings := found);
            && end.findings == found
            && (left == None ==> end == after)
            && (left != None ==> end == AfterCause(m, config, left.value.signature, item.cause))
            && (FollowingThrows(after, config, item, plan) <==>
                  || (plan.action.Persist? && item.persistThrew)
                  || (plan.action == Reuse && item.relookupThrew)
                  || (left != None && CauseThrows(m, config, left.value.signature, item.cause)))
            && (IsWritten(item, plan) <==> !plan.action.Persist? || !item.persistThrew)
  {
  }

  /** A candidate: taken up on what it met, planned, followed, counted unless its plan or its
      write-up threw, and the end of its lane exactly if anything threw. */
  lemma PartsIff(m: Moment, config: Config, item: Item)
    ensures var p := PartOf(m, config, item);
            var planned := AfterPlan(m, config, item.candidate);
            && p.plan == PlanOf(m.ledger, m.findings, config, item.candidate)
            && (p.plan == None ==> p.threw && !p.counted && p.after == planned)
            && (p.plan != None ==>
                  && p.after == AfterFollowing(planned, config, item, p.plan.value)
                  && (p.threw <==> FollowingThrows(planned, config, item, p.plan.value))
                  && (p.counted <==> !p.plan.value.action.Persist? || !item.persistThrew))
  {
  }

  /** What a plan adds to the running totals; the tally moves before the write. */
  function AttributionOf(p: Plan): Attribution {
    if p.action.Persist? then p.action.attribution else NoCall
  }

  function AttributionsOf(plans: seq<Plan>): seq<Attribution> {
    if plans == [] then [] else AttributionsOf(plans[..|plans| - 1]) + [AttributionOf(plans[|plans| - 1])]
  }

  lemma AttributionsNext(plans: seq<Plan>, p: Plan)
    ensures AttributionsOf(plans + [p]) == AttributionsOf(plans) + [AttributionOf(p)]
  {
    assert (plans + [p])[..|plans|] == plans;
  }

  /** The write a plan calls for, and the cause stage of the finding it leaves. */
  method FollowPlan(db: Backend, config: Config, item: Item, plan: Plan, tally: RunTally, counts: Counts, ghost plans: seq<Plan>)
    returns (threw: bool, counted: Counts)
    requires tally.Tracks(AttributionsOf(plans))
    modifies db`ledger, db`findings, db`calls, tally
    ensures db.Now() == AfterFollowing(old(db.Now()), config, item, plan)
    ensures threw <==> FollowingThrows(old(db.Now()), config, item, plan)
    ensures counted == if IsWritten(item, plan) then Counted(counts, plan) else counts
    ensures tally.Tracks(AttributionsOf(plans + [plan]))
  {
    counted, threw := counts, false;
    AttributionsNext(plans, plan);
    tally.ApplyAttribution(AttributionOf(plan), AttributionsOf(plans));
    if plan.action.Persist? {
      if item.persistThrew { threw := true; return; }
      db.findings := db.findings + {plan.action.finding};
      counted := Counted(counts, plan);
      var persisted;
      threw, persisted := PlanCause(db, config, plan.action.finding.signature, item.cause);
    } else {
      counted := Counted(counts, plan);
      if plan.action.Reuse? {
        if item.relookupThrew { threw := true; return; }
        if item.candidate.identity.Some? && FindingOf(config, item.candidate) in db.findings {
          var persisted;
          threw, persisted := PlanCause(db, config, item.candidate.identity.value, item.cause);
        }
      }
    }
  }

  // -------------------------------------------------------------------- runs

  /** What one candidate came to: its plan, whether its render call was made, whether it is
      counted, whether it ended the lane, and the moment it left. */
  datatype Part = Part(plan: Option<Plan>, called: bool, counted: bool, threw: bool, after: Moment)

  function PartOf(m: Moment, config: Config, item: Item): Part {
    Part(PlanAt(m, config, item), CallsModel(m.ledger, config, item.candidate), IsCounted(m, config, item),
         Throws(m, config, item), AfterItem(m, config, item))
  }

  datatype Lane = Lane(config: Config, open: Open, items: seq<Item>, closeThrew: bool)

  /** One run of a lane: the moment it started, the candidates it took up and its result. */
  datatype LaneRun = LaneRun(start: Moment, parts: seq<Part>, result: LaneResult)

  function EndOf(start: Moment, parts: seq<Part>): Moment {
    if parts == [] then start else parts[|parts| - 1].after
  }

  /** Candidate `i` met what the ones before it had left. */
  predicate PartIs(lane: Lane, start: Moment, parts: seq<Part>, i: nat) {
    i < |parts| && i < |lane.items| && parts[i] == PartOf(EndOf(start, parts[..i]), lane.config, lane.items[i])
  }

  ghost predicate TookUp(lane: Lane, start: Moment, parts: seq<Part>) {
    |parts| <= |lane.items| && forall i: nat | i < |parts| :: PartIs(lane, start, parts, i)
  }

  lemma TookUpNext(lane: Lane, start: Moment, parts: seq<Part>, part: Part)
    requires TookUp(lane, start, parts) && |parts| < |lane.items|
    requires part == PartOf(EndOf(start, parts), lane.config, lane.items[|parts|])
    ensures TookUp(lane, start, parts + [part])
  {
    var parts' := parts + [part];
    forall i: nat | i < |parts'| ensures PartIs(lane, start, parts', i) {
      assert parts'[..i] == parts[..i];
      if i < |parts| { assert PartIs(lane, start, parts, i); } else { assert parts[..i] == parts; }
    }
  }

  /** The plans the candidates got, in order. */
  function PlansOf(parts: seq<Part>): seq<Plan> {
    if parts == [] then []
    else
      var last := parts[|parts| - 1];
      PlansOf(parts[..|parts| - 1]) + if last.plan.Some? then [last.plan.value] else []
  }

  /** The plans that are counted, in order. */
  function CountedPlans(parts: seq<Part>): seq<Plan> {
    if parts == [] then []
    else
      var last := parts[|parts| - 1];
      CountedPlans(parts[..|parts| - 1]) + if last.counted && last.plan.Some? then [last.plan.value] else []
  }

  lemma PlansNext(parts: seq<Part>, p: Part)
    ensures PlansOf(parts + [p]) == if p.plan.Some? then PlansOf(parts) + [p.plan.value] else PlansOf(parts)
  {
    assert (parts + [p])[..|parts|] == parts && PlansOf(parts) + [] == PlansOf(parts);
  }

  lemma CountedNext(parts: seq<Part>, p: Part)
    ensures CountedPlans(parts + [p]) ==
            if p.counted && p.plan.Some? then CountedPlans(parts) + [p.plan.value] else CountedPlans(parts)
  {
    assert (parts + [p])[..|parts|] == parts && CountedPlans(parts) + [] == CountedPlans(parts);
  }

  lemma FlagsNext(parts: seq<Part>, p: Part)
    ensures MetTheCap(parts + [p]) <==> MetTheCap(parts) || (p.plan.Some? && p.plan.value.capExhausted)
    ensures NoneThrew(parts + [p]) <==> NoneThrew(parts) && !p.threw
  {
    var parts' := parts + [p];
    assert parts'[|parts|] == p && forall i | 0 <= i < |parts| :: parts'[i] == parts[i];
  }

  ghost predicate NoneThrew(parts: seq<Part>) {
    forall i | 0 <= i < |parts| :: !parts[i].threw
  }

  ghost predicate MetTheCap(parts: seq<Part>) {
    exists i | 0 <= i < |parts| :: parts[i].plan.Some? && parts[i].plan.value.capExhausted
  }

  /** The running counters are those of the candidates taken up so far. */
  ghost predicate Agrees(parts: seq<Part>, counts: Counts, capExhausted: bool) {
    counts == CountsOf(CountedPlans(parts)) && (capExhausted <==> MetTheCap(parts))
  }

  function Attempts(plans: seq<Plan>): nat {
    |Filter(WasAttempted(), AttributionsOf(plans))|
  }

  /** The run row says what the candidates came to. */
  ghost predicate ClosedAs(row: RunRow, lane: Lane, completed: bool, parts: seq<Part>) {
    var plans, counts := PlansOf(parts), CountsOf(CountedPlans(parts));
    && row.completed == completed && row.producedFindings == (lane.items != [])
    && row.modelCallsAttempted == Attempts(plans)
    && row.resolvedModelId == FirstModel(AttributionsOf(plans))
    && row.candidatesUnrenderable == counts.unrenderable && row.candidatesRefused == counts.refused
    && row.tokensIn == TotalOf(Reported(AttributionsOf(plans), InSide()))
    && row.tokensOut == TotalOf(Reported(AttributionsOf(plans), OutSide()))
    && (row.stopReason.FatalError? <==> !completed)
    && (completed ==> (row.stopReason.StoppedOnCap? <==> MetTheCap(parts)))
  }

  /** What a run reports of the candidates it took up: all of them with no throw, or all up to
      the one that threw. */
  ghost predicate Reports(lane: Lane, parts: seq<Part>, r: LaneResult) {
    match r
    case LaneThrew => lane.open.OpenThrew? && parts == []
    case AlreadyRunning => lane.open.AlreadyOpen? && parts == []
    case Ran(completed, counts, attempted, closed) =>
      && lane.open.Opened? && attempted == Attempts(PlansOf(parts)) && counts == CountsOf(CountedPlans(parts))
      && (closed.None? <==> lane.closeThrew)
      && (closed.Some? ==> ClosedAs(closed.value, lane, completed, parts))
      && LeftOff(lane, parts, !completed)
  }

  /** Every candidate was taken up and none threw, or the last one taken up threw. */
  ghost predicate LeftOff(lane: Lane, parts: seq<Part>, threw: bool) {
    if threw then parts != [] && NoneThrew(parts[..|parts| - 1]) && parts[|parts| - 1].threw
    else |parts| == |lane.items| && NoneThrew(parts)
  }

  ghost predicate IsRunOf(lane: Lane, run: LaneRun) {
    TookUp(lane, run.start, run.parts) && Reports(lane, run.parts, run.result)
  }

  /** `closeRun`: a throw is logged and swallowed. */
  method CloseRun(lane: Lane, completed: bool, capExhausted: bool, counts: Counts, tally: RunTally, ghost parts: seq<Part>)
    returns (closed: Option<RunRow>)
    requires tally.Tracks(AttributionsOf(PlansOf(parts))) && Agrees(parts, counts, capExhausted)
    ensures closed.None? <==> lane.closeThrew
    ensures closed.Some? ==> ClosedAs(closed.value, lane, completed, parts)
    ensures tally.modelCallsAttempted == Attempts(PlansOf(parts)) && counts == CountsOf(CountedPlans(parts))
  {
    if lane.closeThrew { return None; }
    var stopReason := if !completed then FatalError else if capExhausted then StoppedOnCap else RanToCompletion;
    closed := Some(RunRow(completed, |lane.items| > 0, stopReason, tally.modelCallsAttempted, counts.unrenderable,
                          counts.refused, tally.resolvedModelId, tally.tokensIn, tally.tokensOut));
  }

  /** Plan one candidate, follow its plan and count it. */
  method OneCandidate(db: Backend, config: Config, item: Item, tally: RunTally, counts: Counts, ghost parts: seq<Part>)
    returns (plan: Option<Plan>, threw: bool, counted: Counts, ghost part: Part)
    requires tally.Tracks(AttributionsOf(PlansOf(parts)))
    modifies db`ledger, db`findings, db`calls, tally
    ensures part == PartOf(old(db.Now()), config, item)
    ensures plan == part.plan && threw == part.threw && db.Now() == part.after
    ensures part.counted ==> plan.Some?
    ensures counted == if part.counted then Counted(counts, plan.value) else counts
    ensures tally.Tracks(AttributionsOf(PlansOf(parts + [part])))
  {
    part := PartOf(db.Now(), config, item);
    PlansNext(parts, part);
    plan := PlanCandidate(db, config, item.candidate);
    if plan.None? { return plan, true, counts, part; }
    threw, counted := FollowPlan(db, config, item, plan.value, tally, counts, PlansOf(parts));
  }

  /** Everything the loop keeps, one candidate further. */
  lemma PartNext(lane: Lane, start: Moment, parts: seq<Part>, counts: Counts, capExhausted: bool, part: Part)
    requires |parts| < |lane.items| && TookUp(lane, start, parts) && NoneThrew(parts) && Agrees(parts, counts, capExhausted)
    requires part == PartOf(EndOf(start, parts), lane.config, lane.items[|parts|])
    ensures part.counted ==> part.plan.Some?
    ensures var parts' := parts + [part];
            && TookUp(lane, start, parts') && EndOf(start, parts') == part.after && parts'[|parts|] == part
            && parts'[..|parts|] == parts && (NoneThrew(parts') <==> !part.threw)
            && Agrees(parts', if part.counted then Counted(counts, part.plan.value) else counts,
                      capExhausted || (part.plan.Some? && part.plan.value.capExhausted))
  {
    TookUpNext(lane, start, parts, part);
    AgreesNext(parts, counts, capExhausted, part);
  }

  /** One turn of the loop: take up the next candidate. */
  method TakeUp(db: Backend, lane: Lane, i: nat, tally: RunTally, counts: Counts, capExhausted: bool,
                ghost start: Moment, ghost parts: seq<Part>)
    returns (threw: bool, counts': Counts, capExhausted': bool, ghost parts': seq<Part>)
    requires i == |parts| < |lane.items| && TookUp(lane, start, parts) && db.Now() == EndOf(start, parts)
    requires tally.Tracks(AttributionsOf(PlansOf(parts))) && NoneThrew(parts) && Agrees(parts, counts, capExhausted)
    modifies db`ledger, db`findings, db`calls, tally
    ensures |parts'| == i + 1 && parts'[..i] == parts && threw == parts'[i].threw
    ensures TookUp(lane, start, parts') && db.Now() == EndOf(start, parts')
    ensures tally.Tracks(AttributionsOf(PlansOf(parts'))) && Agrees(parts', counts', capExhausted')
    ensures NoneThrew(parts') <==> !threw
  {
    var plan;
    ghost var part: Part;
    plan, threw, counts', part := OneCandidate(db, lane.config, lane.items[i], tally, counts, parts);
    PartNext(lane, start, parts, counts, capExhausted, part);
    parts' := parts + [part];
    capExhausted' := capExhausted || (plan.Some? && plan.value.capExhausted);
  }

  /** Every candidate up to the first that throws. */
  method TakeUpAll(db: Backend, lane: Lane, tally: RunTally)
    returns (threw: bool, counts: Counts, capExhausted: bool, ghost parts: seq<Part>)
    requires tally.Tracks([])
    modifies db`ledger, db`findings, db`calls, tally
    ensures TookUp(lane, old(db.Now()), parts) && db.Now() == EndOf(old(db.Now()), parts)
    ensures tally.Tracks(AttributionsOf(PlansOf(parts))) && Agrees(parts, counts, capExhausted)
    ensures LeftOff(lane, parts, threw)
  {
    threw, counts, capExhausted, parts := false, Counts(0, 0, 0, 0), false, [];
    ghost var start := db.Now();
    for i := 0 to |lane.items|
      invariant tally.Tracks(AttributionsOf(PlansOf(parts))) && !threw
      invariant i == |parts| && TookUp(lane, start, parts) && db.Now() == EndOf(start, parts)
      invariant NoneThrew(parts) && Agrees(parts, counts, capExhausted)
    {
      threw, counts, capExhausted, parts := TakeUp(db, lane, i, tally, counts, capExhausted, start, parts);
      if threw { return; }
    }
  }

  lemma NothingTaken(lane: Lane, start: Moment)
    ensures EndOf(start, []) == start
    ensures lane.open.OpenThrew? ==> IsRunOf(lane, LaneRun(start, [], LaneThrew))
    ensures lane.open.AlreadyOpen? ==> IsRunOf(lane, LaneRun(start, [], AlreadyRunning))
  {
  }

  method RunAnalysisLane(db: Backend, lane: Lane) returns (r: LaneResult, ghost parts: seq<Part>)
    modifies db`ledger, db`findings, db`calls
    ensures IsRunOf(lane, LaneRun(old(db.Now()), parts, r))
    ensures db.Now() == EndOf(old(db.Now()), parts)
  {
    parts := [];
    NothingTaken(lane, db.Now());
    if lane.open.OpenThrew? { return LaneThrew, parts; }
    if lane.open.AlreadyOpen? { return AlreadyRunning, parts; }

    var tally := new RunTally();
    var threw, counts, capExhausted;
    threw, counts, capExhausted, parts := TakeUpAll(db, lane, tally);
    var closed := CloseRun(lane, !threw, capExhausted, counts, tally, parts);
    r := Ran(!threw, counts, tally.modelCallsAttempted, closed);
  }

  lemma AgreesNext(parts: seq<Part>, counts: Counts, capExhausted: bool, part: Part)
    requires Agrees(parts, counts, capExhausted) && (part.counted ==> part.plan.Some?)
    ensures Agrees(parts + [part], if part.counted then Counted(counts, part.plan.value) else counts,
                   capExhausted || (part.plan.Some? && part.plan.value.capExhausted))
    ensures NoneThrew(parts + [part]) <==> NoneThrew(parts) && !part.threw
    ensures (parts + [part])[..|parts|] == parts
  {
    CountedNext(parts, part);
    FlagsNext(parts, part);
    if part.counted { CountsNext(CountedPlans(parts), part.plan.value); }
  }

  // ------------------------------------------------------------- whole runs

  /** The calls since a mark, after some more were made. */
  lemma CallsGrow(mark: seq<Slot>, before: seq<Slot>, after: seq<Slot>)
    requires mark <= before <= after
    ensures RenderCalls(after[|mark|..]) == RenderCalls(before[|mark|..]) + RenderCalls(after[|before|..])
  {
    assert after[|mark|..] == before[|mark|..] + after[|before|..];
    RenderCallsAppend(before[|mark|..], after[|before|..]);
  }

  /** A plan makes a render call exactly if it calls the model. */
  lemma PlanCalls(m: Moment, config: Config, c: Candidate)
    ensures var after := AfterPlan(m, config, c);
            && m.calls <= after.calls
            && RenderCalls(after.calls[|m.calls|..]) == if CallsModel(m.ledger, config, c) then 1 else 0
  {
    if c.identity.Some? { OneCall(RenderSlot(config, c)); } else { OneCall(Slot("", "", Render)); }
    var after := AfterPlan(m, config, c);
    assert after.calls[|m.calls|..] == if CallsModel(m.ledger, config, c) then [RenderSlot(config, c)] else [];
  }

  /** Following a plan makes no render call. */
  lemma FollowingCalls(after: Moment, config: Config, item: Item, plan: Plan)
    ensures var end := AfterFollowing(after, config, item, plan);
            after.calls <= end.calls && RenderCalls(end.calls[|after.calls|..]) == 0
  {
    var end := AfterFollowing(after, config, item, plan);
    if CauseOf(after, config, item, plan).Some? {
      var slot := Slot(config.project, CauseOf(after, config, item, plan).value.1, Cause);
      OneCall(slot);
      assert end.calls[|after.calls|..] == [] || end.calls[|after.calls|..] == [slot];
    } else {
      OneCall(Slot("", "", Cause));
    }
  }

  /** The model was called, and the plan has no row that could say so. */
  predicate IsSilent(p: Part) {
    p.called && p.plan.Some? && p.plan.value.action.Unrenderable?
  }

  /** The calls no row reports. */
  function Silent(parts: seq<Part>): nat {
    if parts == [] then 0 else Silent(parts[..|parts| - 1]) + if IsSilent(parts[|parts| - 1]) then 1 else 0
  }

  /** What a part says of the moment it met, its plan aside: calls and findings only grow, a
      part that did not throw is counted and has its finding on record, a part with no plan
      called nothing, and the plan names the one call made unless it could not be written up. */
  ghost predicate Sound(m: Moment, p: Part) {
    && m.calls <= p.after.calls && m.findings <= p.after.findings
    && (p.counted ==> p.plan.Some?) && (!p.threw ==> p.counted)
    && (!p.threw && p.plan.value.action.Persist? ==> p.plan.value.action.finding in p.after.findings)
    && RenderCalls(p.after.calls[|m.calls|..]) == (if p.called then 1 else 0)
    && match p.plan
       case None => !p.called
       case Some(plan) => AttributionOf(plan).Attempted? <==> p.called && !plan.action.Unrenderable?
  }

  lemma PartIsSound(m: Moment, config: Config, item: Item)
    ensures Sound(m, PartOf(m, config, item))
  {
    var after := AfterPlan(m, config, item.candidate);
    PlanCalls(m, config, item.candidate);
    var plan := PlanAt(m, config, item);
    if plan.Some? {
      PlansMatchSpend(m.ledger, m.findings, config, item.candidate);
      FollowingCalls(after, config, item, plan.value);
      CallsGrow(m.calls, after.calls, AfterItem(m, config, item).calls);
    }
  }

  ghost predicate SoundAt(start: Moment, parts: seq<Part>, i: nat) {
    i < |parts| && Sound(EndOf(start, parts[..i]), parts[i])
  }

  ghost predicate AllSound(start: Moment, parts: seq<Part>) {
    forall i: nat | i < |parts| :: SoundAt(start, parts, i)
  }

  lemma TookUpIsSound(lane: Lane, start: Moment, parts: seq<Part>)
    requires TookUp(lane, start, parts)
    ensures AllSound(start, parts)
  {
    forall i: nat | i < |parts| ensures SoundAt(start, parts, i) {
      assert PartIs(lane, start, parts, i);
      PartIsSound(EndOf(start, parts[..i]), lane.config, lane.items[i]);
    }
  }

  lemma SoundFront(start: Moment, parts: seq<Part>)
    requires AllSound(start, parts) && parts != []
    ensures AllSound(start, parts[..|parts| - 1])
    ensures Sound(EndOf(start, parts[..|parts| - 1]), parts[|parts| - 1])
  {
    var front := parts[..|parts| - 1];
    forall i: nat | i < |front| ensures SoundAt(start, front, i) {
      assert front[..i] == parts[..i] && SoundAt(start, parts, i);
    }
    assert SoundAt(start, parts, |parts| - 1);
  }

  lemma AttemptsNext(plans: seq<Plan>, p: Plan)
    ensures Attempts(plans + [p]) == Attempts(plans) + if AttributionOf(p).Attempted? then 1 else 0
  {
    AttributionsNext(plans, p);
    FilterCount(WasAttempted(), AttributionsOf(plans), AttributionOf(p));
  }

  /** Calls made against calls reported, from `start` to `end`. */
  ghost predicate ReportFits(start: Moment, end: Moment, attempts: nat, silent: nat) {
    start.calls <= end.calls && RenderCalls(end.calls[|start.calls|..]) == attempts + silent
  }

  lemma ReportStep(start: Moment, front: seq<Part>, p: Part)
    requires ReportFits(start, EndOf(start, front), Attempts(PlansOf(front)), Silent(front)) && Sound(EndOf(start, front), p)
    ensures ReportFits(start, p.after, Attempts(PlansOf(front + [p])), Silent(front + [p]))
  {
    CallsGrow(start.calls, EndOf(start, front).calls, p.after.calls);
    PlansNext(front, p);
    assert (front + [p])[..|front|] == front;
    if p.plan.Some? { AttemptsNext(PlansOf(front), p.plan.value); }
  }

  lemma NothingReported(start: Moment)
    ensures ReportFits(start, start, 0, 0)
  {
    OneCall(Slot("", "", Render));
  }

  /** The render calls made are the calls reported and the silent ones: those whose plan could
      not be written up. */
  lemma {:induction false} CallsVersusReport(start: Moment, parts: seq<Part>)
    requires AllSound(start, parts)
    ensures ReportFits(start, EndOf(start, parts), Attempts(PlansOf(parts)), Silent(parts))
  {
    if parts == [] {
      NothingReported(start);
    } else {
      var front, last := parts[..|parts| - 1], parts[|parts| - 1];
      SoundFront(start, parts);
      CallsVersusReport(start, front);
      ReportStep(start, front, last);
      assert parts == front + [last];
    }
  }

  /** A part that did not throw is counted, so only the last one can be left out. */
  lemma {:induction false} CountedAll(start: Moment, parts: seq<Part>)
    requires AllSound(start, parts) && NoneThrew(parts)
    ensures |CountedPlans(parts)| == |parts|
  {
    if parts != [] {
      SoundFront(start, parts);
      CountedAll(start, parts[..|parts| - 1]);
    }
  }

  /** The same when the last part threw: it is left out exactly if it was not counted. */
  lemma CountedUpToThrow(start: Moment, parts: seq<Part>)
    requires AllSound(start, parts) && parts != [] && NoneThrew(parts[..|parts| - 1])
    ensures |CountedPlans(parts)| == |parts| - if parts[|parts| - 1].counted then 0 else 1
  {
    SoundFront(start, parts);
    CountedAll(start, parts[..|parts| - 1]);
  }

  lemma {:induction false} FindingsGrow(start: Moment, parts: seq<Part>, i: nat)
    requires AllSound(start, parts) && i <= |parts|
    ensures EndOf(start, parts[..i]).findings <= EndOf(start, parts).findings
  {
    if i == |parts| {
      assert parts[..i] == parts;
    } else {
      SoundFront(start, parts);
      FindingsGrow(start, parts[..|parts| - 1], i);
      assert parts[..|parts| - 1][..i] == parts[..i];
    }
  }

  /** Analysis accounting. A completed run counts every candidate once; a failed one counts
      those before the candidate it failed at, and that one exactly if its own write went
      through. The render calls made are those it reports and those of plans it could not write
      up. */
  lemma RunAccounts(lane: Lane, run: LaneRun)
    requires IsRunOf(lane, run) && run.result.Ran?
    ensures var handled, end := Handled(run.result.counts), EndOf(run.start, run.parts);
            && (run.result.completed ==> handled == |run.parts| == |lane.items|)
            && (!run.result.completed ==>
                run.parts != [] && handled == |run.parts| - if run.parts[|run.parts| - 1].counted then 0 else 1)
            && run.start.calls <= end.calls
            && RenderCalls(end.calls[|run.start.calls|..]) == run.result.modelCallsAttempted + Silent(run.parts)
  {
    TookUpIsSound(lane, run.start, run.parts);
    CallsVersusReport(run.start, run.parts);
    if run.result.completed {
      CountedAll(run.start, run.parts);
    } else {
      CountedUpToThrow(run.start, run.parts);
    }
  }

  lemma WrittenUpBy(start: Moment, parts: seq<Part>, i: nat)
    requires AllSound(start, parts) && NoneThrew(parts) && i < |parts|
    ensures parts[i].plan.Some?
    ensures parts[i].plan.value.action.Persist? ==>
              parts[i].plan.value.action.finding in EndOf(start, parts).findings
  {
    assert SoundAt(start, parts, i);
    FindingsGrow(start, parts, i + 1);
    assert EndOf(start, parts[..i + 1]) == parts[i].after;
  }

  /** Every finding a completed run was to write up is on record when it ends. */
  lemma FindingsAreWrittenUp(lane: Lane, run: LaneRun, i: nat)
    requires TookUp(lane, run.start, run.parts) && NoneThrew(run.parts) && i < |run.parts|
    ensures run.parts[i].plan.Some?
    ensures run.parts[i].plan.value.action.Persist? ==>
              run.parts[i].plan.value.action.finding in EndOf(run.start, run.parts).findings
  {
    TookUpIsSound(lane, run.start, run.parts);
    WrittenUpBy(run.start, run.parts, i);
  }

  /** The ledger's answer to a candidate that reached it is that the cap is spent. */
  predicate MeetsCap(m: Moment, config: Config, item: Item) {
    PassesGates(item.candidate) && config.summariser && Answer(m.ledger, config, item.candidate).CapExhausted?
  }

  /** The ledger refused candidate `i` for the cap. */
  predicate CapAt(lane: Lane, start: Moment, parts: seq<Part>, i: nat) {
    i < |parts| && i < |lane.items| && MeetsCap(EndOf(start, parts[..i]), lane.config, lane.items[i])
  }

  lemma PartMeetsCap(lane: Lane, start: Moment, parts: seq<Part>, i: nat)
    requires PartIs(lane, start, parts, i) && parts[i].plan.Some?
    ensures parts[i].plan.value.capExhausted <==> CapAt(lane, start, parts, i)
  {
    CapShows(EndOf(start, parts[..i]), lane.config, lane.items[i]);
  }

  lemma CapIff(lane: Lane, start: Moment, parts: seq<Part>)
    requires TookUp(lane, start, parts) && NoneThrew(parts)
    ensures MetTheCap(parts) <==> exists i: nat :: CapAt(lane, start, parts, i)
  {
    TookUpIsSound(lane, start, parts);
    forall i: nat | i < |parts| ensures parts[i].plan.Some? && (parts[i].plan.value.capExhausted <==> CapAt(lane, start, parts, i)) {
      assert PartIs(lane, start, parts, i) && SoundAt(start, parts, i);
      PartMeetsCap(lane, start, parts, i);
    }
  }

  /** A completed run that could be closed says it stopped on the cap exactly when the ledger
      refused one of its candidates for the cap. */
  lemma StopReasonIff(lane: Lane, run: LaneRun)
    requires IsRunOf(lane, run) && run.result.Ran? && run.result.completed && run.result.closed.Some?
    ensures run.result.closed.value.stopReason.StoppedOnCap? <==> exists i: nat :: CapAt(lane, run.start, run.parts, i)
  {
    CapIff(lane, run.start, run.parts);
  }

  lemma CapShows(m: Moment, config: Config, item: Item)
    requires PlanAt(m, config, item).Some?
    ensures PlanAt(m, config, item).value.capExhausted <==> MeetsCap(m, config, item)
  {
    PlansMatchSpend(m.ledger, m.findings, config, item.candidate);
  }

  /** Every call made is of a slot in the ledger, and no slot was called twice. */
  ghost predicate SpentOnce(m: Moment) {
    && (forall i | 0 <= i < |m.calls| :: m.calls[i] in m.ledger)
    && (forall i, j | 0 <= i < j < |m.calls| :: m.calls[i] != m.calls[j])
  }

  /** A ledger that only grew, and at most one call of a slot it did not hold before. */
  lemma CallKeepsSpentOnce(m: Moment, m': Moment, slot: Slot)
    requires SpentOnce(m) && m.ledger <= m'.ledger
    requires m'.calls == m.calls || (m'.calls == m.calls + [slot] && slot !in m.ledger && slot in m'.ledger)
    ensures SpentOnce(m')
  {
  }

  lemma PartKeepsSpentOnce(m: Moment, config: Config, item: Item)
    requires SpentOnce(m)
    ensures SpentOnce(AfterItem(m, config, item))
  {
    var c := item.candidate;
    var after := AfterPlan(m, config, c);
    CallKeepsSpentOnce(m, after, if c.identity.Some? then RenderSlot(config, c) else Slot("", "", Render));
    var plan := PlanAt(m, config, item);
    if plan.Some? && CauseOf(after, config, item, plan.value).Some? {
      var (m1, signature) := CauseOf(after, config, item, plan.value).value;
      CallKeepsSpentOnce(m1, AfterCause(m1, config, signature, item.cause), Slot(config.project, signature, Cause));
    }
  }

  lemma {:induction false} RunKeepsSpentOnce(lane: Lane, start: Moment, parts: seq<Part>)
    requires TookUp(lane, start, parts) && SpentOnce(start)
    ensures SpentOnce(EndOf(start, parts))
  {
    if parts != [] {
      var n := |parts| - 1;
      var front := parts[..n];
      forall i: nat | i < n ensures PartIs(lane, start, front, i) {
        assert front[..i] == parts[..i] && PartIs(lane, start, parts, i);
      }
      RunKeepsSpentOnce(lane, start, front);
      assert PartIs(lane, start, parts, n);
      PartKeepsSpentOnce(EndOf(start, front), lane.config, lane.items[n]);
    }
  }

  // -------------------------------------------------------------------- tick

  /** The tick's counters. A lane that ran and failed is counted twice on purpose. */
  datatype Summary = Summary(
    lanesRun: nat, lanesAlreadyRunning: nat, lanesFailed: nat, lanesErrored: nat,
    findingsPersisted: nat, candidatesUnrenderable: nat, candidatesRefused: nat, modelCallsAttempted: nat)

  function Add(s: Summary, r: LaneResult): Summary {
    match r
    case LaneThrew => s.(lanesErrored := s.lanesErrored + 1)
    case AlreadyRunning => s.(lanesAlreadyRunning := s.lanesAlreadyRunning + 1)
    case Ran(completed, counts, modelCallsAttempted, _) =>
      s.(lanesRun := s.lanesRun + 1,
         lanesFailed := s.lanesFailed + (if completed then 0 else 1),
         findingsPersisted := s.findingsPersisted + counts.persisted,
         candidatesUnrenderable := s.candidatesUnrenderable + counts.unrenderable,
         candidatesRefused := s.candidatesRefused + counts.refused,
         modelCallsAttempted := s.modelCallsAttempted + modelCallsAttempted)
  }

  function SummaryOf(runs: seq<LaneRun>): Summary {
    if runs == [] then Summary(0, 0, 0, 0, 0, 0, 0, 0)
    else Add(SummaryOf(runs[..|runs| - 1]), runs[|runs| - 1].result)
  }

  function Ended(start: Moment, runs: seq<LaneRun>): Moment {
    if runs == [] then start else EndOf(runs[|runs| - 1].start, runs[|runs| - 1].parts)
  }

  /** Lane `i` was run on what the lanes before it left. */
  ghost predicate RunIs(lanes: seq<Lane>, start: Moment, runs: seq<LaneRun>, i: nat) {
    i < |runs| && i < |lanes| && IsRunOf(lanes[i], runs[i]) && runs[i].start == Ended(start, runs[..i])
  }

  ghost predicate TickOf(lanes: seq<Lane>, start: Moment, runs: seq<LaneRun>) {
    |runs| <= |lanes| && forall i: nat | i < |runs| :: RunIs(lanes, start, runs, i)
  }

  lemma TickNext(lanes: seq<Lane>, start: Moment, runs: seq<LaneRun>, run: LaneRun)
    requires TickOf(lanes, start, runs) && |runs| < |lanes|
    requires IsRunOf(lanes[|runs|], run) && run.start == Ended(start, runs)
    ensures TickOf(lanes, start, runs + [run]) && SummaryOf(runs + [run]) == Add(SummaryOf(runs), run.result)
  {
    var runs' := runs + [run];
    assert runs'[..|runs|] == runs;
    forall i: nat | i < |runs'| ensures RunIs(lanes, start, runs', i) {
      assert runs'[..i] == runs[..i];
      if i < |runs| { assert RunIs(lanes, start, runs, i); } else { assert runs[..i] == runs; }
    }
  }

  /** How many runs are of a kind. */
  function Runs(kind: LaneResult -> bool, runs: seq<LaneRun>): nat {
    if runs == [] then 0 else Runs(kind, runs[..|runs| - 1]) + if kind(runs[|runs| - 1].result) then 1 else 0
  }

  /** The sum of one figure over the runs that ran. */
  function SumOver(figure: (Counts, nat) -> nat, runs: seq<LaneRun>): nat {
    if runs == [] then 0
    else SumOver(figure, runs[..|runs| - 1])
         + match runs[|runs| - 1].result
           case Ran(_, counts, calls, _) => figure(counts, calls)
           case _ => 0
  }

  /** Each counter of the tick, figure by figure: how many lanes ran, were running, threw or did
      not complete, and the sums of what their runs counted. */
  lemma {:induction false} SummaryIs(runs: seq<LaneRun>)
    ensures var s := SummaryOf(runs);
            && s.lanesRun == Runs((r: LaneResult) => r.Ran?, runs)
            && s.lanesAlreadyRunning == Runs((r: LaneResult) => r == AlreadyRunning, runs)
            && s.lanesErrored == Runs((r: LaneResult) => r == LaneThrew, runs)
            && s.lanesFailed == Runs((r: LaneResult) => r.Ran? && !r.completed, runs)
            && s.findingsPersisted == SumOver((c: Counts, calls: nat) => c.persisted, runs)
            && s.candidatesUnrenderable == SumOver((c: Counts, calls: nat) => c.unrenderable, runs)
            && s.candidatesRefused == SumOver((c: Counts, calls: nat) => c.refused, runs)
            && s.modelCallsAttempted == SumOver((c: Counts, calls: nat) => calls, runs)
  {
    if runs != [] { SummaryIs(runs[..|runs| - 1]); }
  }

  /** Every lane is run, whatever happened to the ones before it. */
  method RunAnalysisTick(db: Backend, lanes: seq<Lane>) returns (s: Summary, ghost runs: seq<LaneRun>)
    modifies db`ledger, db`findings, db`calls
    ensures |runs| == |lanes| && TickOf(lanes, old(db.Now()), runs) && db.Now() == Ended(old(db.Now()), runs)
    ensures s == SummaryOf(runs)
  {
    s, runs := Summary(0, 0, 0, 0, 0, 0, 0, 0), [];
    for i := 0 to |lanes|
      invariant |runs| == i && TickOf(lanes, old(db.Now()), runs) && db.Now() == Ended(old(db.Now()), runs)
      invariant s == SummaryOf(runs)
    {
      ghost var start := db.Now();
      var r, parts := RunAnalysisLane(db, lanes[i]);
      TickNext(lanes, old(db.Now()), runs, LaneRun(start, parts, r));
      s := Add(s, r);
      runs := runs + [LaneRun(start, parts, r)];
    }
  }

  function ItemsOf(lanes: seq<Lane>): nat {
    if lanes == [] then 0 else ItemsOf(lanes[..|lanes| - 1]) + |lanes[|lanes| - 1].items|
  }

  lemma TickFront(lanes: seq<Lane>, start: Moment, runs: seq<LaneRun>)
    requires TickOf(lanes, start, runs) && runs != []
    ensures var n := |runs| - 1;
            && TickOf(lanes, start, runs[..n])
            && IsRunOf(lanes[n], runs[n]) && runs[n].start == Ended(start, runs[..n])
  {
    var n := |runs| - 1;
    forall i: nat | i < n ensures RunIs(lanes, start, runs[..n], i) {
      assert runs[..n][..i] == runs[..i] && RunIs(lanes, start, runs, i);
    }
    assert RunIs(lanes, start, runs, n);
  }

  lemma LaneAdds(lane: Lane, run: LaneRun)
    requires IsRunOf(lane, run)
    ensures var end := EndOf(run.start, run.parts);
            && run.start.calls <= end.calls
            && RenderCalls(end.calls[|run.start.calls|..]) ==
               (if run.result.Ran? then run.result.modelCallsAttempted else 0) + Silent(run.parts)
            && (run.result.Ran? ==> Handled(run.result.counts) <= |lane.items|)
  {
    if run.result.Ran? { RunAccounts(lane, run); } else { OneCall(Slot("", "", Render)); }
  }

  function SilentIn(runs: seq<LaneRun>): nat {
    if runs == [] then 0 else SilentIn(runs[..|runs| - 1]) + Silent(runs[|runs| - 1].parts)
  }

  /** Every lane lands in exactly one of run, already running and errored, and failed ones are
      among those run; the render calls made during the tick are those it reports and the
      silent ones, and its outcomes never exceed the candidates it was given. */
  lemma {:induction false} TickAccounts(lanes: seq<Lane>, start: Moment, runs: seq<LaneRun>)
    requires TickOf(lanes, start, runs)
    ensures var s, end := SummaryOf(runs), Ended(start, runs);
            && s.lanesRun + s.lanesAlreadyRunning + s.lanesErrored == |runs| && s.lanesFailed <= s.lanesRun
            && start.calls <= end.calls
            && RenderCalls(end.calls[|start.calls|..]) == s.modelCallsAttempted + SilentIn(runs)
            && s.findingsPersisted + s.candidatesUnrenderable + s.candidatesRefused <= ItemsOf(lanes[..|runs|])
  {
    if runs == [] {
      OneCall(Slot("", "", Render));
    } else {
      var n := |runs| - 1;
      TickFront(lanes, start, runs);
      TickAccounts(lanes, start, runs[..n]);
      LaneAdds(lanes[n], runs[n]);
      CallsGrow(start.calls, runs[n].start.calls, Ended(start, runs).calls);
      assert lanes[..n + 1][..n] == lanes[..n];
    }
  }

  /** Over a whole tick, whatever overlapping runs claim in between, no model is called twice
      for one signature and stage, and none without its slot in the ledger. */
  lemma {:induction false} TickCallsOnce(lanes: seq<Lane>, start: Moment, runs: seq<LaneRun>)
    requires TickOf(lanes, start, runs) && SpentOnce(start)
    ensures SpentOnce(Ended(start, runs))
  {
    if runs != [] {
      var n := |runs| - 1;
      TickFront(lanes, start, runs);
      TickCallsOnce(lanes, start, runs[..n]);
      RunKeepsSpentOnce(lanes[n], runs[n].start, runs[n].parts);
    }
  }
}
