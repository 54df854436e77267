/** The decision ladder for one candidate: the gates before the model-call claim, the claim,
    the call, the floor below it, and the separate cause stage. */
module AnalysisPlan {
  import opened Common
  import opened ModelCalls

  datatype Consult = Proceed | Suppress | ConsultThrew

  /** How the render call ended. `Written` text is kept only if it parses, splits into
      sentences, passes the accuracy guard and scans clean. */
  datatype Rendering =
    | RenderThrew
    | RenderFailed(outputInvalid: bool)
    | Written(parses: bool, splits: bool, accurate: bool, clean: bool)

  /** The model-free text: its template may throw or hold back, and the withheld constant
      beneath it may be held as well. */
  datatype Floor = Floor(throws: bool, held: bool, withheldHeld: bool)

  datatype Source =
    | ModelRendered | FloorNoKeyConfigured | FloorCapExhausted | FloorModelCallFailed
    | FloorModelOutputInvalid | FloorModelTextRejected

  datatype Usage = Usage(tokensIn: Option<nat>, tokensOut: Option<nat>)

  datatype Attribution = NoCall | Attempted(modelId: string, usage: Usage)

  /** A finding on record, found again by its project and signature. */
  datatype Finding = Finding(project: string, signature: string)

  datatype Action =
    | Persist(finding: Finding, source: Source, attribution: Attribution)
    | Reuse
    | Unrenderable
    | Refused
    | Suppressed

  datatype Plan = Plan(capExhausted: bool, action: Action)

  /** One candidate and what the outside world does while it is planned. `rivals` and
      `rivalFindings` are what overlapping runs claimed and wrote up just before this claim
      counts, `late` what they claim between its count and its insert. */
  datatype Candidate = Candidate(
    surfaceSafe: bool, identity: Option<string>, consult: Consult,
    rivals: Ledger, late: Ledger, rivalFindings: set<Finding>, claimWrite: Write, lookupThrew: bool,
    rendering: Rendering, modelId: string, usage: Usage, floor: Floor)

  datatype Config = Config(project: string, summariser: bool, projectCap: nat, organizationCap: nat)

  /** The ledger, the findings on record and the model calls made, at one instant. */
  datatype Moment = Moment(ledger: Ledger, findings: set<Finding>, calls: seq<Slot>)

  /** The same as one run sees them. */
  class Backend {
    var ledger: Ledger
    var findings: set<Finding>
    var calls: seq<Slot>

    function Now(): Moment
      reads this
    {
      Moment(ledger, findings, calls)
    }

    method ClaimModelCall(slot: Slot, rivals: Ledger, late: Ledger, config: Config, write: Write) returns (r: ClaimResult)
      modifies this`ledger
      ensures findings == old(findings) && calls == old(calls)
      ensures var (ledger', r') := ClaimSlot(old(ledger) + rivals, late, slot, config.projectCap, config.organizationCap);
              r == r' && ledger == if write.Stored() then ledger' else old(ledger) + rivals + late
    {
      var (claimed, result) := ClaimSlot(ledger + rivals, late, slot, config.projectCap, config.organizationCap);
      ledger := if write.Stored() then claimed else ledger + rivals + late;
      r := result;
    }
  }

  /** What the floor gives a candidate: words, withheld words, or nothing it may record. */
  function FloorAction(floor: Floor, finding: Finding, source: Source, attribution: Attribution): Action {
    if floor.throws || (floor.held && floor.withheldHeld) then Unrenderable
    else Persist(finding, source, attribution)
  }

  /** The rung an answered call lands on. */
  function RungOf(rendering: Rendering): Source {
    match rendering
    case RenderThrew => FloorModelCallFailed
    case RenderFailed(outputInvalid) => if outputInvalid then FloorModelOutputInvalid else FloorModelCallFailed
    case Written(parses, splits, accurate, clean) =>
      if !parses then FloorModelOutputInvalid
      else if splits && accurate && clean then ModelRendered
      else FloorModelTextRejected
  }

  /** Nothing past this gate may claim, call or write for the candidate. */
  predicate PassesGates(c: Candidate) {
    c.surfaceSafe && c.identity.Some? && c.consult.Proceed?
  }

  function RenderSlot(config: Config, c: Candidate): Slot
    requires c.identity.Some?
  {
    Slot(config.project, c.identity.value, Render)
  }

  function FindingOf(config: Config, c: Candidate): Finding
    requires c.identity.Some?
  {
    Finding(config.project, c.identity.value)
  }

  /** What the ledger would answer this candidate. */
  function Answer(db: Ledger, config: Config, c: Candidate): ClaimResult
    requires c.identity.Some?
  {
    ClaimSlot(db + c.rivals, c.late, RenderSlot(config, c), config.projectCap, config.organizationCap).1
  }

  /** The plan the ladder owes a candidate, given the ledger's answer and the findings on
      record. `None` is a plan that threw, which only its claim and its lookup can do. */
  function PlanOf(ledger: Ledger, findings: set<Finding>, config: Config, c: Candidate): Option<Plan> {
    if !PassesGates(c) then
      Some(Plan(false, if c.surfaceSafe && c.identity.Some? && c.consult.Suppress? then Suppressed else Action.Refused))
    else if !config.summariser then Some(Plan(false, FloorAction(c.floor, FindingOf(config, c), FloorNoKeyConfigured, NoCall)))
    else if c.claimWrite.Threw() then None
    else
      match Answer(ledger, config, c)
      case CapExhausted => Some(Plan(true, FloorAction(c.floor, FindingOf(config, c), FloorCapExhausted, NoCall)))
      case AlreadyClaimed =>
        if c.lookupThrew then None
        else if FindingOf(config, c) in findings + c.rivalFindings then Some(Plan(false, Reuse))
        else Some(Plan(false, FloorAction(c.floor, FindingOf(config, c), FloorModelCallFailed, NoCall)))
      case Claimed =>
        var attribution := Attempted(c.modelId, if c.rendering.RenderThrew? then Usage(None, None) else c.usage);
        var rung := RungOf(c.rendering);
        Some(Plan(false, if rung.ModelRendered? then Persist(FindingOf(config, c), ModelRendered, attribution)
                         else FloorAction(c.floor, FindingOf(config, c), rung, attribution)))
  }

  /** The model is asked about this candidate. */
  predicate CallsModel(ledger: Ledger, config: Config, c: Candidate) {
    PassesGates(c) && config.summariser && Answer(ledger, config, c).Claimed? && !c.claimWrite.Threw()
  }

  /** The gates come before any spend; past them one claim is made, and one call exactly if
      it was granted. */
  function AfterPlan(m: Moment, config: Config, c: Candidate): Moment {
    if !PassesGates(c) || !config.summariser then m
    else
      var granted := Answer(m.ledger, config, c).Claimed? && c.claimWrite.Stored();
      Moment(m.ledger + c.rivals + c.late + (if granted then {RenderSlot(config, c)} else {}),
             m.findings + c.rivalFindings,
             if CallsModel(m.ledger, config, c) then m.calls + [RenderSlot(config, c)] else m.calls)
  }

  method PlanCandidate(db: Backend, config: Config, c: Candidate) returns (plan: Option<Plan>)
    modifies db`ledger, db`findings, db`calls
    ensures plan == PlanOf(old(db.ledger), old(db.findings), config, c)
    ensures db.Now() == AfterPlan(old(db.Now()), config, c)
  {
    if !c.surfaceSafe { return Some(Plan(false, Action.Refused)); }
    if c.identity.None? { return Some(Plan(false, Action.Refused)); }
    if c.consult.Suppress? { return Some(Plan(false, Suppressed)); }
    if c.consult.ConsultThrew? { return Some(Plan(false, Action.Refused)); }

    var signature, finding := c.identity.value, FindingOf(config, c);
    if !config.summariser {
      return Some(Plan(false, FloorAction(c.floor, finding, FloorNoKeyConfigured, NoCall)));
    }

    var slot := Slot(config.project, signature, Render);
    db.findings := db.findings + c.rivalFindings;
    var claim := db.ClaimModelCall(slot, c.rivals, c.late, config, c.claimWrite);
    if c.claimWrite.Threw() { return None; }

    if claim.CapExhausted? {
      return Some(Plan(true, FloorAction(c.floor, finding, FloorCapExhausted, NoCall)));
    }
    if claim.AlreadyClaimed? {
      if c.lookupThrew { return None; }
      if finding in db.findings { return Some(Plan(false, Reuse)); }
      return Some(Plan(false, FloorAction(c.floor, finding, FloorModelCallFailed, NoCall)));
    }

    db.calls := db.calls + [slot];
    if c.rendering.RenderThrew? {
      var attribution := Attempted(c.modelId, Usage(None, None));
      return Some(Plan(false, FloorAction(c.floor, finding, FloorModelCallFailed, attribution)));
    }
    var attribution := Attempted(c.modelId, c.usage);
    if c.rendering.RenderFailed? {
      var source := if c.rendering.outputInvalid then FloorModelOutputInvalid else FloorModelCallFailed;
      return Some(Plan(false, FloorAction(c.floor, finding, source, attribution)));
    }
    if !c.rendering.parses {
      return Some(Plan(false, FloorAction(c.floor, finding, FloorModelOutputInvalid, attribution)));
    }
    if !c.rendering.splits {
      return Some(Plan(false, FloorAction(c.floor, finding, FloorModelTextRejected, attribution)));
    }
    if !c.rendering.accurate {
      return Some(Plan(false, FloorAction(c.floor, finding, FloorModelTextRejected, attribution)));
    }
    if !c.rendering.clean {
      return Some(Plan(false, FloorAction(c.floor, finding, FloorModelTextRejected, attribution)));
    }
    return Some(Plan(false, Persist(finding, ModelRendered, attribution)));
  }

  /** The planner's claim and call are steps of the ledger protocol, whatever other runs did
      there between its count in `s` and its insert in `s'`: the claim lands as a count and an
      insert do, and the call follows only where those leave a slot held. */
  lemma PlanFollowsLedger(s: State, s': State, id: nat, config: Config, c: Candidate)
    requires PassesGates(c) && id !in s.counting && id !in s.granted && c.rivals <= s.ledger
    requires s'.ledger == s.ledger + c.late && id !in s'.granted && id in s'.counting
    requires s'.counting[id] == Step(s, Count(id, RenderSlot(config, c), config.projectCap, config.organizationCap)).counting[id]
    ensures var slot, answer := RenderSlot(config, c), Answer(s.ledger, config, c);
            var s'' := Step(s', Insert(id, c.claimWrite));
            && s''.ledger == s.ledger + c.late + (if answer.Claimed? && c.claimWrite.Stored() then {slot} else {})
            && (Enabled(s'', CallModel(id)) <==> answer.Claimed? && !c.claimWrite.Threw())
            && (Enabled(s'', CallModel(id)) ==> Step(s'', CallModel(id)).calls == s'.calls + multiset{slot})
  {
    assert s.ledger + c.rivals == s.ledger;
    CountThenInsert(s, s', Count(id, RenderSlot(config, c), config.projectCap, config.organizationCap), c.claimWrite, c.late);
  }

  /** What a plan says about spend: it names a model call only for a candidate that passed
      the gates and was granted its slot; a suppressed or refused plan never did either. */
  lemma PlansMatchSpend(ledger: Ledger, findings: set<Finding>, config: Config, c: Candidate)
    requires PlanOf(ledger, findings, config, c).Some?
    ensures var plan := PlanOf(ledger, findings, config, c).value;
            && (plan.action.Persist? && plan.action.attribution.Attempted? ==> CallsModel(ledger, config, c))
            && (CallsModel(ledger, config, c) ==>
                plan.action.Unrenderable? || (plan.action.Persist? && plan.action.attribution.Attempted?))
            && (plan.action.Suppressed? || plan.action.Refused? <==> !PassesGates(c))
            && (plan.capExhausted <==> PassesGates(c) && config.summariser && Answer(ledger, config, c).CapExhausted?)
            && (plan.action.Reuse? ==> c.identity.Some? && FindingOf(config, c) in findings + c.rivalFindings)
            && (plan.action.Persist? && plan.action.source.ModelRendered? <==>
                CallsModel(ledger, config, c) && c.rendering == Written(true, true, true, true))
  {
  }

  /** The words that can be recorded without the model: its template does not throw, and either it
      or the withheld constant beneath it is not held. */
  predicate HasFloor(c: Candidate) {
    !c.floor.throws && (!c.floor.held || !c.floor.withheldHeld)
  }

  /** The candidate is safe to show, has an identity, and the ledger of dismissals let it by. */
  predicate Presentable(c: Candidate) {
    c.surfaceSafe && c.identity != None && c.consult == Proceed
  }

  /** Where an answered call ends up, by what went wrong first. */
  predicate LandsOn(r: Rendering, source: Source) {
    match source
    case ModelRendered => r == Written(true, true, true, true)
    case FloorModelCallFailed => r == RenderThrew || r == RenderFailed(false)
    case FloorModelOutputInvalid => r == RenderFailed(true) || (r.Written? && r.parses == false)
    case FloorModelTextRejected => r.Written? && r.parses && !(r.splits && r.accurate && r.clean)
    case FloorNoKeyConfigured => false
    case FloorCapExhausted => false
  }

  /** What each kind of plan means. Only a claim or a lookup that throws leaves none. The rungs:
      no summariser, a spent cap, a slot already taken with no finding on record, or a call that
      landed on `source`; the words are the model's only if it wrote them well, and otherwise the
      floor's or none. A write-up names the project's finding of that signature, and the call it
      cost with what that call reported. */
  lemma PlansIff(ledger: Ledger, findings: set<Finding>, config: Config, c: Candidate)
    ensures var plan := PlanOf(ledger, findings, config, c);
            var asks := Presentable(c) && config.summariser;
            var taken := asks && c.claimWrite == Landed && Answer(ledger, config, c) == AlreadyClaimed;
            var onRecord := c.identity.Some? && Finding(config.project, c.identity.value) in findings + c.rivalFindings;
            && (plan == None <==> asks && (c.claimWrite != Landed || (taken && c.lookupThrew)))
            && (plan != None ==>
                  var action := plan.value.action;
                  && (action == Suppressed <==> c.surfaceSafe && c.identity != None && c.consult == Suppress)
                  && (action == Action.Refused <==> !c.surfaceSafe || c.identity == None || c.consult == ConsultThrew)
                  && (action == Reuse <==> taken && onRecord)
                  && (action.Persist? || action == Unrenderable <==> Presentable(c) && !(taken && onRecord))
                  && (action == Unrenderable ==> !HasFloor(c) && !(CallsModel(ledger, config, c) && LandsOn(c.rendering, ModelRendered)))
                  && (action.Persist? ==> HasFloor(c) || action.source == ModelRendered)
                  && (plan.value.capExhausted <==> asks && Answer(ledger, config, c) == CapExhausted))
  {
  }

  lemma WriteUpsIff(ledger: Ledger, findings: set<Finding>, config: Config, c: Candidate)
    requires PlanOf(ledger, findings, config, c).Some? && PlanOf(ledger, findings, config, c).value.action.Persist?
    ensures var action := PlanOf(ledger, findings, config, c).value.action;
            var called := config.summariser && Answer(ledger, config, c) == Claimed;
            && c.identity.Some? && action.finding == Finding(config.project, c.identity.value)
            && (action.source == FloorNoKeyConfigured <==> !config.summariser)
            && (action.source == FloorCapExhausted <==> config.summariser && Answer(ledger, config, c) == CapExhausted)
            && (called ==> LandsOn(c.rendering, action.source))
            && (config.summariser && Answer(ledger, config, c) == AlreadyClaimed ==> action.source == FloorModelCallFailed)
            && action.attribution == (if !called then NoCall
                                      else Attempted(c.modelId, if c.rendering == RenderThrew then Usage(None, None) else c.usage))
  {
  }

  /** Exactly when the model is asked, which slot that is, and what the claim leaves. */
  lemma SpendsIff(m: Moment, config: Config, c: Candidate)
    ensures CallsModel(m.ledger, config, c) <==>
            Presentable(c) && config.summariser && Answer(m.ledger, config, c) == Claimed && c.claimWrite == Landed
    ensures var after, asks := AfterPlan(m, config, c), Presentable(c) && config.summariser;
            && (!asks ==> after == m)
            && (asks ==>
                  var slot := Slot(config.project, c.identity.value, Render);
                  && after.findings == m.findings + c.rivalFindings
                  && after.calls == m.calls + (if CallsModel(m.ledger, config, c) then [slot] else [])
                  && after.ledger == m.ledger + c.rivals + c.late
                                     + (if Answer(m.ledger, config, c) == Claimed && c.claimWrite != LostThenThrew then {slot} else {}))
  {
    if !CallsModel(m.ledger, config, c) { assert m.calls + [] == m.calls; }
  }

  /** The ledger's answer, on its own terms: taken if the slot is in by the time of the insert,
      granted if both counts were below their ceilings at the count, and otherwise spent. */
  lemma AnswersFrom(ledger: Ledger, config: Config, c: Candidate)
    requires c.identity.Some?
    ensures var slot, counted := Slot(config.project, c.identity.value, Render), ledger + c.rivals;
            var room := |set s | s in counted && s.project == config.project| < config.projectCap && |counted| < config.organizationCap;
            && (Answer(ledger, config, c) == AlreadyClaimed <==> slot in counted + c.late)
            && (Answer(ledger, config, c) == Claimed <==> slot !in counted + c.late && room)
            && (Answer(ledger, config, c) == CapExhausted <==> slot !in counted + c.late && !room)
  {
    var slot, counted := Slot(config.project, c.identity.value, Render), ledger + c.rivals;
    assert (set s | s in counted && Counts(Some(config.project), s)) == (set s | s in counted && s.project == config.project);
    assert (set s | s in counted && Counts(None, s)) == counted;
  }

  /** A claim lost to a crash forecloses nothing: once a slot is taken, by whichever run and
      however it ended, every later plan for that signature calls no model and still ends in
      the finding on record or in a floor write-up. */
  lemma LostClaimStillEnds(ledger: Ledger, findings: set<Finding>, config: Config, c: Candidate)
    requires PassesGates(c) && config.summariser && !c.claimWrite.Threw() && !c.lookupThrew
    requires RenderSlot(config, c) in ledger + c.rivals + c.late
    ensures !CallsModel(ledger, config, c)
    ensures var plan := PlanOf(ledger, findings, config, c);
            && plan.Some? && !plan.value.capExhausted
            && (plan.value.action.Reuse? <==> FindingOf(config, c) in findings + c.rivalFindings)
            && (plan.value.action.Unrenderable? ==> c.floor.throws || (c.floor.held && c.floor.withheldHeld))
            && (plan.value.action.Persist? ==>
                plan.value.action == Persist(FindingOf(config, c), FloorModelCallFailed, NoCall))
            && (plan.value.action.Reuse? || plan.value.action.Unrenderable? || plan.value.action.Persist?)
  {
  }

  // ------------------------------------------------------------- cause stage

  const CAUSE_ANCHOR_SESSION_CANDIDATES: nat := 3

  /** A session's stored transcript, as the batch read returned it; `None` is unreadable. */
  datatype Citation = Citation(sessionId: string, actions: Option<nat>)

  /** Built by inserting in order, so the last citation of a session wins. */
  function CitationMap(citations: seq<Citation>): map<string, Citation> {
    if citations == [] then map[]
    else CitationMap(citations[..|citations| - 1])[citations[|citations| - 1].sessionId := citations[|citations| - 1]]
  }

  predicate Readable(byId: map<string, Citation>, sessionId: string) {
    sessionId in byId && byId[sessionId].actions.Some? && byId[sessionId].actions.value > 0
  }

  function FindReadable(byId: map<string, Citation>, sessions: seq<string>): Option<string> {
    if sessions == [] then None
    else if Readable(byId, sessions[0]) then Some(sessions[0])
    else FindReadable(byId, sessions[1..])
  }

  function AnchorOf(sample: seq<string>, citations: seq<Citation>): Option<string> {
    var tried := if |sample| < CAUSE_ANCHOR_SESSION_CANDIDATES then sample else sample[..CAUSE_ANCHOR_SESSION_CANDIDATES];
    FindReadable(CitationMap(citations), tried)
  }

  /** Session `i` is `id`, is readable, and is the first that is. */
  predicate FirstAt(byId: map<string, Citation>, sessions: seq<string>, i: nat, id: string) {
    i < |sessions| && sessions[i] == id && Readable(byId, id) && forall k | 0 <= k < i :: !Readable(byId, sessions[k])
  }

  lemma FirstFurther(byId: map<string, Citation>, sessions: seq<string>, i: nat, id: string)
    requires sessions != [] && !Readable(byId, sessions[0]) && FirstAt(byId, sessions[1..], i, id)
    ensures FirstAt(byId, sessions, i + 1, id)
  {
    forall k | 0 <= k < i + 1 ensures !Readable(byId, sessions[k]) {
      if k > 0 { assert sessions[k] == sessions[1..][k - 1]; }
    }
  }

  /** `r` is the first of the sessions that is readable, or there is none. */
  predicate FirstOf(byId: map<string, Citation>, sessions: seq<string>, r: Option<string>) {
    match r
    case None => forall i | 0 <= i < |sessions| :: !Readable(byId, sessions[i])
    case Some(id) => exists i | 0 <= i < |sessions| :: FirstAt(byId, sessions, i, id)
  }

  lemma {:induction false} FindReadableIsFirst(byId: map<string, Citation>, sessions: seq<string>)
    ensures FirstOf(byId, sessions, FindReadable(byId, sessions))
  {
    if sessions != [] {
      if Readable(byId, sessions[0]) {
        assert FirstAt(byId, sessions, 0, sessions[0]);
        assert FirstOf(byId, sessions, Some(sessions[0]));
      } else {
        FindReadableIsFirst(byId, sessions[1..]);
        FirstOfRest(byId, sessions, FindReadable(byId, sessions[1..]));
      }
    }
  }

  lemma FirstOfRest(byId: map<string, Citation>, sessions: seq<string>, r: Option<string>)
    requires sessions != [] && !Readable(byId, sessions[0]) && FirstOf(byId, sessions[1..], r)
    ensures FirstOf(byId, sessions, r)
  {
    if r.None? {
      forall i | 0 <= i < |sessions| ensures !Readable(byId, sessions[i]) {
        if i > 0 { assert sessions[i] == sessions[1..][i - 1]; }
      }
    } else {
      var i :| 0 <= i < |sessions[1..]| && FirstAt(byId, sessions[1..], i, r.value);
      FirstFurther(byId, sessions, i, r.value);
    }
  }

  /** The last citation of a session is the one that is read. */
  lemma {:induction false} LastCitationWins(citations: seq<Citation>, i: nat)
    requires i < |citations|
    requires forall k | i < k < |citations| :: citations[k].sessionId != citations[i].sessionId
    ensures citations[i].sessionId in CitationMap(citations)
    ensures CitationMap(citations)[citations[i].sessionId] == citations[i]
  {
    var front := citations[..|citations| - 1];
    if i < |front| {
      assert front[i] == citations[i];
      assert forall k | i < k < |front| :: front[k] == citations[k];
      LastCitationWins(front, i);
    }
  }

  /** The anchor is the earliest of the first three sampled sessions whose last citation is a
      non-empty transcript; there is none exactly when none of the three has one. */
  lemma AnchorIsFirstReadable(sample: seq<string>, citations: seq<Citation>)
    ensures FirstOf(CitationMap(citations), if |sample| <= 3 then sample else sample[..3], AnchorOf(sample, citations))
  {
    FindReadableIsFirst(CitationMap(citations), if |sample| < 3 then sample else sample[..3]);
    if |sample| == 3 { assert sample[..3] == sample; }
  }

  /** Citation `i` is of session `id`, and none after it is. */
  predicate LastlyCites(citations: seq<Citation>, i: nat, id: string) {
    i < |citations| && citations[i].sessionId == id && forall k | i < k < |citations| :: citations[k].sessionId != id
  }

  /** A session can be read exactly when a citation of it, the last there is, holds a transcript
      with at least one action. */
  lemma ReadableIff(citations: seq<Citation>, id: string)
    ensures Readable(CitationMap(citations), id) <==>
            exists i: nat :: LastlyCites(citations, i, id) && match citations[i].actions case None => false case Some(n) => n >= 1
  {
    if id in CitationMap(citations) {
      var i := LastOf(citations, id);
      LastCitationWins(citations, i);
      assert LastlyCites(citations, i, id);
    }
    if i: nat :| LastlyCites(citations, i, id) {
      LastCitationWins(citations, i);
    }
  }

  lemma {:induction false} LastOf(citations: seq<Citation>, id: string) returns (i: nat)
    requires id in CitationMap(citations)
    ensures LastlyCites(citations, i, id)
  {
    var n := |citations| - 1;
    if citations[n].sessionId == id {
      i := n;
    } else {
      i := LastOf(citations[..n], id);
    }
  }

  datatype Explanation = ExplainThrew | ExplainFailed | Explained(offends: bool, survivors: nat, dropped: nat, clean: bool)

  /** What the outside world does during one cause stage; the reads are not caught. */
  datatype CauseWorld = CauseWorld(
    funnelDropoff: bool, explainer: bool, readThrew: bool, windowDiverged: bool,
    sample: seq<string>, citations: seq<Citation>, rivals: Ledger, late: Ledger, claimWrite: Write,
    explanation: Explanation, persistThrew: bool)

  predicate CauseReaches(w: CauseWorld) {
    w.funnelDropoff && w.explainer && !w.readThrew && w.windowDiverged && AnchorOf(w.sample, w.citations).Some?
  }

  /** Claims are kept only when no claim offends, something survived or was dropped, and the
      scan is clean. */
  predicate CauseKept(e: Explanation) {
    e.Explained? && !e.offends && !(e.survivors == 0 && e.dropped == 0) && e.clean
  }

  /** The cause claim's answer. */
  function CauseAnswer(m: Moment, config: Config, signature: string, w: CauseWorld): ClaimResult {
    ClaimSlot(m.ledger + w.rivals, w.late, Slot(config.project, signature, Cause), config.projectCap, config.organizationCap).1
  }

  predicate CallsCause(m: Moment, config: Config, signature: string, w: CauseWorld) {
    CauseReaches(w) && CauseAnswer(m, config, signature, w).Claimed? && !w.claimWrite.Threw()
  }

  function AfterCause(m: Moment, config: Config, signature: string, w: CauseWorld): Moment {
    if !CauseReaches(w) then m
    else
      var slot := Slot(config.project, signature, Cause);
      var granted := CauseAnswer(m, config, signature, w).Claimed? && w.claimWrite.Stored();
      m.(ledger := m.ledger + w.rivals + w.late + (if granted then {slot} else {}),
         calls := if CallsCause(m, config, signature, w) then m.calls + [slot] else m.calls)
  }

  /** The reads, the claim and the write of the cause stage are not caught. */
  predicate CauseThrows(m: Moment, config: Config, signature: string, w: CauseWorld) {
    || (w.funnelDropoff && w.explainer && w.readThrew)
    || (CauseReaches(w) && w.claimWrite.Threw())
    || (CallsCause(m, config, signature, w) && CauseKept(w.explanation) && w.persistThrew)
  }

  /** The stage comes to its claim for a funnel drop-off with an explainer, once its reads are
      good, the window diverged and one of the first three sampled sessions can be read. */
  ghost predicate ComesToClaim(w: CauseWorld) {
    && w.funnelDropoff && w.explainer && !w.readThrew && w.windowDiverged
    && exists i | 0 <= i < |w.sample| && i < 3 :: Readable(CitationMap(w.citations), w.sample[i])
  }

  /** The model answered, none of its claims offends, some survived or were dropped for their
      citations, and the text of the survivors is clean. */
  ghost predicate WorthKeeping(e: Explanation) {
    exists s, d :: e == Explained(false, s, d, true) && s + d > 0
  }

  lemma CauseIff(m: Moment, config: Config, signature: string, w: CauseWorld)
    ensures CauseReaches(w) <==> ComesToClaim(w)
    ensures CallsCause(m, config, signature, w) <==>
            ComesToClaim(w) && CauseAnswer(m, config, signature, w) == Claimed && w.claimWrite == Landed
    ensures CauseKept(w.explanation) <==> WorthKeeping(w.explanation)
  {
    var byId, tried := CitationMap(w.citations), if |w.sample| <= 3 then w.sample else w.sample[..3];
    AnchorIsFirstReadable(w.sample, w.citations);
    assert forall i | 0 <= i < |tried| :: tried[i] == w.sample[i];
    if AnchorOf(w.sample, w.citations).Some? {
      var i :| 0 <= i < |tried| && FirstAt(byId, tried, i, AnchorOf(w.sample, w.citations).value);
      assert Readable(byId, w.sample[i]);
    } else {
      forall i | 0 <= i < |w.sample| && i < 3 ensures !Readable(byId, w.sample[i]) { assert !Readable(byId, tried[i]); }
    }
    if CauseKept(w.explanation) {
      assert w.explanation == Explained(false, w.explanation.survivors, w.explanation.dropped, true);
    }
  }

  /** The cause stage of one finding: its own claim, at most one call, and a row only for
      claims that passed both gates. It may throw, and then its lane fails. */
  method PlanCause(db: Backend, config: Config, signature: string, w: CauseWorld) returns (threw: bool, persisted: bool)
    modifies db`ledger, db`calls
    ensures db.Now() == AfterCause(old(db.Now()), config, signature, w)
    ensures persisted <==> CallsCause(old(db.Now()), config, signature, w) && CauseKept(w.explanation) && !w.persistThrew
    ensures threw <==> CauseThrows(old(db.Now()), config, signature, w)
    ensures var called := ComesToClaim(w) && CauseAnswer(old(db.Now()), config, signature, w) == Claimed && w.claimWrite == Landed;
            && (persisted <==> called && WorthKeeping(w.explanation) && !w.persistThrew)
            && (threw <==> || (w.funnelDropoff && w.explainer && w.readThrew)
                           || (ComesToClaim(w) && w.claimWrite != Landed)
                           || (called && WorthKeeping(w.explanation) && w.persistThrew))
            && db.calls == old(db.calls) + if called then [Slot(config.project, signature, Cause)] else []
  {
    CauseIff(db.Now(), config, signature, w);
    threw, persisted := false, false;
    if !w.funnelDropoff { return; }
    if !w.explainer { return; }
    if w.readThrew { return true, false; }
    if !w.windowDiverged { return; }
    if AnchorOf(w.sample, w.citations).None? { return; }

    var slot := Slot(config.project, signature, Cause);
    var claim := db.ClaimModelCall(slot, w.rivals, w.late, config, w.claimWrite);
    if w.claimWrite.Threw() { return true, false; }
    if !claim.Claimed? { return; }

    db.calls := db.calls + [slot];
    if !w.explanation.Explained? { return; }
    if w.explanation.offends { return; }
    if w.explanation.survivors == 0 && w.explanation.dropped == 0 { return; }
    if !w.explanation.clean { return; }
    if w.persistThrew { return true, false; }
    persisted := true;
  }

  /** The cause stage's claim and call are steps of the ledger protocol too, whatever other runs
      did there between its count and its insert. */
  lemma CauseFollowsLedger(s: State, s': State, id: nat, m: Moment, config: Config, signature: string, w: CauseWorld)
    requires CauseReaches(w) && id !in s.counting && id !in s.granted && s.ledger == m.ledger + w.rivals
    requires s'.ledger == s.ledger + w.late && id !in s'.granted && id in s'.counting
    requires s'.counting[id] == Step(s, Count(id, Slot(config.project, signature, Cause), config.projectCap, config.organizationCap)).counting[id]
    ensures var slot, answer := Slot(config.project, signature, Cause), CauseAnswer(m, config, signature, w);
            var s'' := Step(s', Insert(id, w.claimWrite));
            && s''.ledger == AfterCause(m, config, signature, w).ledger
            && (Enabled(s'', CallModel(id)) <==> CallsCause(m, config, signature, w))
            && (Enabled(s'', CallModel(id)) ==> Step(s'', CallModel(id)).calls == s'.calls + multiset{slot})
  {
    CountThenInsert(s, s', Count(id, Slot(config.project, signature, Cause), config.projectCap, config.organizationCap), w.claimWrite, w.late);
  }
}
