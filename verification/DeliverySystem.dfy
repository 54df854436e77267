/** Any number of lanes running their code at once on one table: each makes the calls of its own
    script one at a time, with any other lane, the clock or a crash in between. Seen from one
    (finding, channel) every such run is a run of the delivery protocol. */
module DeliverySystem {
  import opened Common
  import opened Deliveries
  import opened DeliveryTick
  import P = DeliveryProtocol

  /** A lane in flight, from the start of its tick: the calls it has made, and what its claim
      answered once that call is made. */
  datatype Running = Running(key: Key, tickAt: int, h: Happens, made: nat, granted: bool, alive: bool)

  /** `delivered` are the messages in the channel; `lost` those whose lane died before its
      record, whose poster threw after sending, or whose `markPosted` stored nothing. */
  datatype System = System(
    now: int, rows: map<Key, Row>, lanes: map<nat, Running>, delivered: multiset<Key>, lost: multiset<Key>)

  datatype Event =
    | Advance(to: int)
    | Begin(id: nat, key: Key, h: Happens)
    | Next(id: nat)
    | Crash(id: nat)

  /** A finding belongs to one project. */
  type Projects = Key -> string

  /** The calls of the lane's code; its clock is read when a call is made. */
  function ScriptOf(l: Running, projects: Projects, now: int): seq<Call> {
    Script(l.key, projects(l.key), l.tickAt, l.granted, l.h.(clock := now))
  }

  /** The call the lane makes next. */
  function NextCall(l: Running, projects: Projects, now: int): Option<Call> {
    if !l.alive then None
    else if l.made < |ScriptOf(l, projects, now)| then Some(ScriptOf(l, projects, now)[l.made])
    else None
  }

  /** The calls of the system are those of the code: the first a lane makes is the first of its
      tick, made over the rows as they stand; what its claim finds there is what the code goes by;
      and the rest follow in order, whatever has become of the rows since. */
  lemma NextIsTheCodes(s: System, id: nat, projects: Projects, lane: Lane, h: Happens)
    requires id in s.lanes && s.lanes[id].alive && s.lanes[id].h == h
    requires s.lanes[id].key == Key(h.chosen, lane.channelId) && projects(s.lanes[id].key) == lane.projectId
    ensures var l, calls := s.lanes[id], LaneCalls(s.rows, lane, s.lanes[id].tickAt, h);
            l.made == 0 && calls != [] ==>
              NextCall(l, projects, h.clock) == Some(calls[0])
              && Happen(s.(now := h.clock), Next(id), projects).lanes[id]
                 == l.(made := 1, granted := Granted(s.rows, lane, l.tickAt, h))
    ensures forall rows | LaneCalls(rows, lane, s.lanes[id].tickAt, h) != []
                          && Granted(rows, lane, s.lanes[id].tickAt, h) == s.lanes[id].granted ::
              var calls := LaneCalls(rows, lane, s.lanes[id].tickAt, h);
              NextCall(s.lanes[id], projects, h.clock) == if s.lanes[id].made < |calls| then Some(calls[s.lanes[id].made]) else None
  {
    assert h.(clock := h.clock) == h;
  }

  /** Where the lane stands in the protocol, from the call it made last. */
  function PhaseOf(l: Running, projects: Projects): P.Phase {
    var calls := ScriptOf(l, projects, 0);
    if !l.alive || l.made >= |calls| then P.Done
    else if l.made == 0 then P.Started
    else
      match calls[l.made - 1]
      case ClaimCall(_, _, _, _, _) => P.Holding
      case PostCall(answer) => if answer.Accepted? then P.PostAccepted else P.MustFail
      case _ => P.MustFail
  }

  predicate Possible(s: System, e: Event, projects: Projects) {
    match e
    case Advance(to) => s.now <= to
    case Begin(id, _, _) => id !in s.lanes
    case Next(id) => id in s.lanes && NextCall(s.lanes[id], projects, s.now).Some?
    case Crash(id) => id in s.lanes && NextCall(s.lanes[id], projects, s.now).Some?
  }

  function Happen(s: System, e: Event, projects: Projects): System
    requires Possible(s, e, projects)
  {
    match e
    case Advance(to) => s.(now := to)
    case Begin(id, key, h) => s.(lanes := s.lanes[id := Running(key, s.now, h, 0, false, true)])
    case Next(id) =>
      var l := s.lanes[id];
      var call := NextCall(l, projects, s.now).value;
      var granted := if call.ClaimCall? then ClaimGranted(RowAt(s.rows, l.key), ClaimsExpireBefore(l.tickAt)) else l.granted;
      System(s.now, ApplyCall(s.rows, call), s.lanes[id := l.(made := l.made + 1, granted := granted)],
             if call.PostCall? && call.answer.Delivered() then s.delivered + multiset{l.key} else s.delivered,
             if (call.PostCall? && call.answer.ThrewSent?) || (call.MarkPostedCall? && !call.write.Stored())
             then s.lost + multiset{l.key} else s.lost)
    case Crash(id) =>
      var l := s.lanes[id];
      s.(lanes := s.lanes[id := l.(alive := false)],
         lost := if PhaseOf(l, projects).PostAccepted? then s.lost + multiset{l.key} else s.lost)
  }

  ghost predicate SystemRun(states: seq<System>, events: seq<Event>, projects: Projects) {
    && |states| == |events| + 1
    && states[0].rows == map[] && states[0].lanes == map[]
    && states[0].delivered == multiset{} && states[0].lost == multiset{}
    && forall i | 0 <= i < |events| ::
         Possible(states[i], events[i], projects) && states[i + 1] == Happen(states[i], events[i], projects)
  }

  /** The protocol's state of one key. */
  ghost function View(s: System, key: Key, projects: Projects): P.State {
    P.State(s.now, RowAt(s.rows, key),
            map id | id in s.lanes && s.lanes[id].key == key :: P.Tick(s.lanes[id].tickAt, PhaseOf(s.lanes[id], projects)),
            s.delivered[key], s.lost[key])
  }

  /** A call as the protocol step of its lane. */
  function ToAction(id: nat, call: Call): P.Action {
    match call
    case ClaimCall(_, _, _, _, write) => P.Claim(id, write)
    case PostCall(answer) => P.Post(id, answer)
    case MarkPostedCall(_, _, write) => P.RecordPosted(id, write)
    case MarkFailedCall(_, reason, write) => P.RecordFailed(id, reason, write)
  }

  /** A lane one call further. */
  function Made(l: Running, granted: bool): Running {
    l.(made := l.made + 1, granted := granted)
  }

  /** Each call of a script is made from the phase that allows it and leads to the phase that
      owes the next one. */
  lemma PhaseMoves(l: Running, projects: Projects, now: int, granted: bool)
    requires NextCall(l, projects, now).Some?
    requires !NextCall(l, projects, now).value.ClaimCall? ==> granted == l.granted
    ensures var from, to := PhaseOf(l, projects), PhaseOf(Made(l, granted), projects);
            match NextCall(l, projects, now).value
            case ClaimCall(key, project, at, stale, write) =>
              && from.Started? && to == (if granted && !write.Threw() then P.Holding else P.Done)
              && key == l.key && project == projects(l.key) && at == l.tickAt && stale == ClaimsExpireBefore(l.tickAt)
            case PostCall(answer) => from.Holding? && to == (if answer.Accepted? then P.PostAccepted else P.MustFail)
            case MarkPostedCall(key, at, write) =>
              from.PostAccepted? && to == (if write.Threw() then P.MustFail else P.Done) && key == l.key && at == now
            case MarkFailedCall(key, _, _) => (from.MustFail? || from.Holding?) && to.Done? && key == l.key
  {
  }

  /** What a call does to its own row, and that it leaves every other row alone. */
  lemma CallMovesRow(rows: map<Key, Row>, call: Call, key: Key)
    ensures RowAt(ApplyCall(rows, call), key) ==
            match call
            case ClaimCall(k, project, at, stale, write) =>
              if k == key && write.Stored() then ClaimRow(RowAt(rows, key), project, at, stale) else RowAt(rows, key)
            case PostCall(_) => RowAt(rows, key)
            case MarkPostedCall(k, at, write) =>
              if k == key && write.Stored() then MarkPostedRow(RowAt(rows, key), at) else RowAt(rows, key)
            case MarkFailedCall(k, reason, write) =>
              if k == key && write.Stored() then MarkFailedRow(RowAt(rows, key), reason) else RowAt(rows, key)
  {
  }

  /** What the claim answers, or answered. */
  function AnswerOf(s: System, id: nat, projects: Projects): bool
    requires Possible(s, Next(id), projects)
  {
    var l := s.lanes[id];
    if NextCall(l, projects, s.now).value.ClaimCall?
    then ClaimGranted(RowAt(s.rows, l.key), ClaimsExpireBefore(l.tickAt)) else l.granted
  }

  /** One lane of a key changed: so did its tick in the key's view, and no other. */
  lemma OneLaneMoves(s: System, s': System, id: nat, l: Running, projects: Projects)
    requires id in s.lanes && s'.lanes == s.lanes[id := l]
    requires l.key == s.lanes[id].key && l.tickAt == s.lanes[id].tickAt
    ensures var v, v' := View(s, l.key, projects), View(s', l.key, projects);
            && id in v.ticks && v.ticks[id] == P.Tick(l.tickAt, PhaseOf(s.lanes[id], projects))
            && v'.ticks == v.ticks[id := P.Tick(l.tickAt, PhaseOf(l, projects))]
  {
  }

  /** A call moves its own lane's phase and no other lane. */
  lemma NextMovesTicks(s: System, id: nat, projects: Projects)
    requires Possible(s, Next(id), projects)
    ensures var l := s.lanes[id];
            var v, v' := View(s, l.key, projects), View(Happen(s, Next(id), projects), l.key, projects);
            && id in v.ticks && v.ticks[id] == P.Tick(l.tickAt, PhaseOf(l, projects))
            && v'.ticks == v.ticks[id := P.Tick(l.tickAt, PhaseOf(Made(l, AnswerOf(s, id, projects)), projects))]
  {
    var moved := Made(s.lanes[id], AnswerOf(s, id, projects));
    assert Happen(s, Next(id), projects).lanes == s.lanes[id := moved];
    OneLaneMoves(s, Happen(s, Next(id), projects), id, moved, projects);
  }

  /** The rest of the view: the row, and what reached the channel or was lost. */
  lemma NextMovesRow(s: System, id: nat, projects: Projects)
    requires Possible(s, Next(id), projects)
    ensures var l := s.lanes[id];
            var call := NextCall(l, projects, s.now).value;
            var v, v' := View(s, l.key, projects), View(Happen(s, Next(id), projects), l.key, projects);
            && v'.now == v.now && v'.row == RowAt(ApplyCall(s.rows, call), l.key) && v.row == RowAt(s.rows, l.key)
            && v'.delivered == v.delivered + (if call.PostCall? && call.answer.Delivered() then 1 else 0)
            && v'.lost == v.lost + (if (call.PostCall? && call.answer.ThrewSent?)
                                       || (call.MarkPostedCall? && !call.write.Stored()) then 1 else 0)
  {
  }

  /** Whatever others did since its last call, the next call of a lane is enabled in the
      protocol, and makes the very step there that it makes on the table. */
  lemma NextIsStep(s: System, id: nat, projects: Projects)
    requires Possible(s, Next(id), projects)
    ensures var key, call := s.lanes[id].key, NextCall(s.lanes[id], projects, s.now).value;
            var v := View(s, key, projects);
            && P.Enabled(v, ToAction(id, call))
            && View(Happen(s, Next(id), projects), key, projects) == P.Step(v, ToAction(id, call), projects(key))
  {
    var l := s.lanes[id];
    NextMovesTicks(s, id, projects);
    NextMovesRow(s, id, projects);
    PhaseMoves(l, projects, s.now, AnswerOf(s, id, projects));
    CallMovesRow(s.rows, NextCall(l, projects, s.now).value, l.key);
  }

  /** The lanes of other keys leave a key's view alone. */
  lemma ElsewhereStutters(s: System, e: Event, key: Key, projects: Projects)
    requires Possible(s, e, projects) && (e.Next? || e.Crash?) && s.lanes[e.id].key != key
    ensures View(Happen(s, e, projects), key, projects) == View(s, key, projects)
  {
    var v, v' := View(s, key, projects), View(Happen(s, e, projects), key, projects);
    assert v'.ticks == v.ticks;
    if e.Next? {
      var l := s.lanes[e.id];
      var call := NextCall(l, projects, s.now).value;
      PhaseMoves(l, projects, s.now, if call.ClaimCall? then true else l.granted);
      CallMovesRow(s.rows, call, key);
    }
  }

  lemma CrashIsStep(s: System, id: nat, projects: Projects)
    requires Possible(s, Crash(id), projects)
    ensures var key := s.lanes[id].key;
            var v := View(s, key, projects);
            && P.Enabled(v, P.Crash(id))
            && View(Happen(s, Crash(id), projects), key, projects) == P.Step(v, P.Crash(id), projects(key))
  {
    var l := s.lanes[id];
    PhaseMoves(l, projects, s.now, if l.made == 0 then true else l.granted);
    OneLaneMoves(s, Happen(s, Crash(id), projects), id, l.(alive := false), projects);
  }

  lemma BeginIsStep(s: System, e: Event, key: Key, projects: Projects)
    requires Possible(s, e, projects) && e.Begin?
    ensures var v, v' := View(s, key, projects), View(Happen(s, e, projects), key, projects);
            if e.key == key then P.Enabled(v, P.Start(e.id)) && v' == P.Step(v, P.Start(e.id), projects(key)) else v' == v
  {
    var v, v' := View(s, key, projects), View(Happen(s, e, projects), key, projects);
    assert v'.ticks == if e.key == key then v.ticks[e.id := P.Tick(s.now, P.Started)] else v.ticks;
  }

  /** One event keeps the protocol's invariant of every key. */
  lemma EventKeepsInv(s: System, e: Event, key: Key, projects: Projects)
    requires Possible(s, e, projects) && P.Inv(View(s, key, projects)) && P.Punctual(View(s, key, projects))
    ensures P.Inv(View(Happen(s, e, projects), key, projects))
  {
    var v := View(s, key, projects);
    match e
    case Advance(to) =>
      assert View(Happen(s, e, projects), key, projects) == P.Step(v, P.Advance(to), projects(key));
      P.StepKeepsInv(v, P.Advance(to), projects(key));
    case Begin(id, k, _) =>
      BeginIsStep(s, e, key, projects);
      if k == key { P.StepKeepsInv(v, P.Start(id), projects(key)); }
    case Next(id) =>
      if s.lanes[id].key == key {
        NextIsStep(s, id, projects);
        P.StepKeepsInv(v, ToAction(id, NextCall(s.lanes[id], projects, s.now).value), projects(key));
      } else {
        ElsewhereStutters(s, e, key, projects);
      }
    case Crash(id) =>
      if s.lanes[id].key == key {
        CrashIsStep(s, id, projects);
        P.StepKeepsInv(v, P.Crash(id), projects(key));
      } else {
        ElsewhereStutters(s, e, key, projects);
      }
  }

  lemma {:induction false} RunKeepsInv(states: seq<System>, events: seq<Event>, projects: Projects, n: nat, key: Key)
    requires SystemRun(states, events, projects) && n <= |events|
    requires forall i | 0 <= i < n :: P.Punctual(View(states[i], key, projects))
    ensures P.Inv(View(states[n], key, projects))
  {
    if n == 0 {
      assert forall k :: !View(states[0], key, projects).Phase(k, P.PostAccepted);
    } else {
      RunKeepsInv(states, events, projects, n - 1, key);
      EventKeepsInv(states[n - 1], events[n - 1], key, projects);
    }
  }

  /** The lane is between its claim and its record. */
  predicate InFlightOn(s: System, id: nat, key: Key, projects: Projects) {
    && id in s.lanes && s.lanes[id].key == key
    && var phase := PhaseOf(s.lanes[id], projects);
       phase.Holding? || phase.PostAccepted? || phase.MustFail?
  }

  /** Delivery exclusion of the code itself: however the calls of any number of lanes
      interleave, with time passing and crashes in between, while the lanes of a key record
      within the claim lifetime of their tick's start at most one is between claim and record,
      and the channel holds at most one message for the key plus those whose record was lost. */
  lemma LaneExclusion(states: seq<System>, events: seq<Event>, projects: Projects, n: nat, key: Key, a: nat, b: nat)
    requires SystemRun(states, events, projects) && n <= |events|
    requires forall i | 0 <= i < n :: P.Punctual(View(states[i], key, projects))
    ensures states[n].delivered[key] <= 1 + states[n].lost[key]
    ensures InFlightOn(states[n], a, key, projects) && InFlightOn(states[n], b, key, projects) ==> a == b
  {
    RunKeepsInv(states, events, projects, n, key);
    var v := View(states[n], key, projects);
    if k :| v.Phase(k, P.PostAccepted) { assert v.ticks[k].InFlight(); }
    if InFlightOn(states[n], a, key, projects) && InFlightOn(states[n], b, key, projects) {
      assert v.ticks[a].InFlight() && v.ticks[b].InFlight();
    }
  }
}
