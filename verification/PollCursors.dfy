/** The poll's two cursors: a forward watermark and a backward backfill cursor. A poll carries
    its own copy from pass to pass, tests that copy and writes to the stored row, which anyone
    else may have moved since. */
module PollCursors {
  import opened Common

  datatype Cursors = Cursors(watermark: Option<int>, backfill: Option<string>)

  datatype Pull =
    | PullThrew
    | PullFailed
    | Pulled(contiguous: bool, newestObservedAt: Option<int>, resumeBefore: Option<string>, eventsReceived: nat)

  /** What the outside world does during one pass. `atPull` and `atWrite` are the stored row as
      others have left it when the pull goes out and when the cursors are written; `None` is a
      row deleted by then. Every write may store its change and throw all the same. */
  datatype PassWorld = PassWorld(
    overBudget: bool, startWrite: Write, atPull: Option<Cursors>, pull: Pull, persistThrew: bool,
    atWrite: Option<Cursors>, cursorWrite: Write, secondWrite: Write, finishWrite: Write, failWrite: Write)

  datatype RunStatus = Running | Completed | Failed

  /** `finish`: only a run still `running` is closed; a later closing finds no row. */
  function Closed(run: RunStatus, status: RunStatus, write: Write): RunStatus {
    if run.Running? && write.Stored() then status else run
  }

  function Greatest(a: Option<int>, b: int): Option<int> {
    if a.Some? && a.value >= b then a else Some(b)
  }

  /** A forward write came to pass: the watermark is no less than the newest instant seen nor than
      it was, and is one of the two; and the backfill cursor is where the pull may resume. */
  predicate WentForward(before: Cursors, after: Cursors, newest: int, resume: Option<string>) {
    && after.watermark.Some? && after.watermark.value >= newest
    && (before.watermark.Some? ==> after.watermark.value >= before.watermark.value)
    && (after.watermark.value == newest || after.watermark == before.watermark)
    && after.backfill == resume
  }

  /** A write of the backfill cursor alone came to pass. */
  predicate WentBack(before: Cursors, after: Cursors, resume: Option<string>) {
    after.watermark == before.watermark && after.backfill == resume
  }

  /** What a poll's cursor write does to a row that is there, by what its pull says: forward when
      the pull met what was stored and saw something newer, back when it did not meet it, clear
      when it met it, saw nothing newer and the poll's own copy is set, and otherwise nothing. */
  predicate WroteAs(local: Cursors, before: Cursors, after: Cursors, pull: Pull)
    requires pull.Pulled?
  {
    match pull
    case Pulled(true, Some(newest), resume, _) => WentForward(before, after, newest, resume)
    case Pulled(false, _, resume, _) => WentBack(before, after, resume)
    case Pulled(true, None, _, _) => if local.backfill == None then after == before else WentBack(before, after, None)
  }

  /** A cursor write: forward with the watermark, or the backfill cursor alone. */
  datatype Change = Forward(newest: int, resume: Option<string>) | Back(resume: Option<string>)

  /** What a write makes of the row it finds. */
  function Changed(c: Cursors, change: Change): Cursors {
    match change
    case Forward(newest, resume) => Cursors(Greatest(c.watermark, newest), resume)
    case Back(resume) => c.(backfill := resume)
  }

  function MovedRow(row: Option<Cursors>, change: Change, write: Write): Option<Cursors> {
    if row.Some? && write.Stored() then Some(Changed(row.value, change)) else row
  }

  /** What a cursor write came to: the row it left, whether it threw, the cursors the poll goes
      on with, and whether it announces a drained backfill. */
  datatype Moved = Moved(row: Option<Cursors>, threw: bool, next: Cursors, drained: bool)

  /** The backward walk drained and the forward pass saw nothing: by the poll's own cursors
      there is a backfill to clear. */
  predicate Drains(local: Cursors, pull: Pull)
    requires pull.Pulled?
  {
    pull.contiguous && pull.newestObservedAt.None? && local.backfill.Some?
  }

  /** The write a poll asks for first. */
  function ChangeOf(local: Cursors, pull: Pull): Option<Change>
    requires pull.Pulled?
  {
    if pull.contiguous && pull.newestObservedAt.Some? then Some(Forward(pull.newestObservedAt.value, pull.resumeBefore))
    else if !pull.contiguous then Some(Back(pull.resumeBefore))
    else if local.backfill.Some? then Some(Back(None))
    else None
  }

  /** A poll's cursor write on the row it finds. On a row that is gone every write misses, and a
      missed advance is followed by an attempt to clear. */
  function CursorStep(local: Cursors, row: Option<Cursors>, pull: Pull, first: Write, second: Write): Moved
    requires pull.Pulled?
  {
    var missed := Cursors(local.watermark, None);
    match ChangeOf(local, pull)
    case None => Moved(row, false, missed, false)
    case Some(change) =>
      if first.Threw() then Moved(MovedRow(row, change, first), true, local, false)
      else if row.Some? then Moved(Some(Changed(row.value, change)), false, Changed(row.value, change), Drains(local, pull))
      else if change.Forward? && local.backfill.Some? && second.Threw() then Moved(None, true, local, false)
      else Moved(None, false, missed, false)
  }

  /** The first pull of a connect, which writes forward or back, never clears and never
      announces. */
  function FirstStep(local: Cursors, row: Option<Cursors>, pull: Pull, write: Write): Moved
    requires pull.Pulled?
  {
    if pull.contiguous && pull.newestObservedAt.None? then Moved(row, false, local, false)
    else
      var change := ChangeOf(local, pull).value;
      if write.Threw() then Moved(MovedRow(row, change, write), true, local, false)
      else if row.Some? then Moved(Some(Changed(row.value, change)), false, Changed(row.value, change), false)
      else Moved(row, false, local, false)
  }

  /** A pull whose events were stored, so the cursors are the next thing to move. */
  predicate ReachesCursors(w: PassWorld) {
    w.pull.Pulled? && !w.persistThrew
  }

  /** One pass: the cursors it pulled with and those it goes on with, the row it left, what it
      reported, and the status its run was left with. */
  datatype Pass = Pass(
    world: PassWorld, local: Cursors, next: Cursors, after: Option<Cursors>, drained: bool, ok: bool, run: RunStatus)

  function StepOf(p: Pass): Moved
    requires ReachesCursors(p.world)
  {
    CursorStep(p.local, p.world.atWrite, p.world.pull, p.world.cursorWrite, p.world.secondWrite)
  }

  /** The pass stored its events and moved its cursors, so it closes its run as completed. */
  predicate Completes(p: Pass) {
    ReachesCursors(p.world) && !StepOf(p).threw
  }

  /** Everything a pass does to the row it finds, whatever cursors it carries. */
  ghost predicate ValidPass(p: Pass) {
    && p.after == (if ReachesCursors(p.world) then StepOf(p).row else p.world.atWrite)
    && (p.drained <==> Completes(p) && StepOf(p).drained)
    && (p.ok <==> Completes(p) && !p.world.finishWrite.Threw())
    && p.next == (if p.ok then StepOf(p).next else p.local)
    && (var run := if Completes(p) then Closed(Running, Completed, p.world.finishWrite) else Running;
        p.run == if p.ok then run else Closed(run, Failed, p.world.failWrite))
  }

  /** The stored connection row and its poll runs. */
  class Connections {
    var row: Option<Cursors>
    var runs: seq<RunStatus>

    /** `None` is a throw, which may leave the new run behind. */
    method StartRun(write: Write) returns (id: Option<nat>)
      modifies this`runs
      ensures runs == if write.Stored() then old(runs) + [Running] else old(runs)
      ensures id == if write.Threw() then None else Some(|old(runs)|)
    {
      id := if write.Threw() then None else Some(|runs|);
      if write.Stored() { runs := runs + [Running]; }
    }

    method FinishRun(id: nat, status: RunStatus, write: Write)
      requires id < |runs|
      modifies this`runs
      ensures runs == old(runs)[id := Closed(old(runs)[id], status, write)]
    {
      if runs[id].Running? && write.Stored() { runs := runs[id := status]; }
    }

    /** One statement moves both cursors; it returns the row it left, or none if it is gone. */
    method AdvanceWatermark(watermarkAt: int, backfill: Option<string>, write: Write) returns (r: Option<Cursors>)
      modifies this`row
      ensures row == MovedRow(old(row), Forward(watermarkAt, backfill), write)
      ensures old(row).Some? && write.Stored() ==> row.Some? && WentForward(old(row).value, row.value, watermarkAt, backfill)
      ensures old(row).None? || !write.Stored() ==> row == old(row)
      ensures r.Some? <==> old(row).Some?
      ensures write.Stored() ==> r == row
    {
      r := row;
      if row.Some? {
        r := Some(Cursors(Greatest(row.value.watermark, watermarkAt), backfill));
        if write.Stored() { row := r; }
      }
    }

    method SetBackfillCursor(backfill: Option<string>, write: Write) returns (r: Option<Cursors>)
      modifies this`row
      ensures row == MovedRow(old(row), Back(backfill), write)
      ensures old(row).Some? && write.Stored() ==> row.Some? && WentBack(old(row).value, row.value, backfill)
      ensures old(row).None? || !write.Stored() ==> row == old(row)
      ensures r.Some? <==> old(row).Some?
      ensures write.Stored() ==> r == row
    {
      r := row;
      if row.Some? {
        r := Some(row.value.(backfill := backfill));
        if write.Stored() { row := r; }
      }
    }
  }

  datatype Applied = Applied(cursors: Cursors, drained: bool)

  /** `None` is a throw. The tests are on the poll's own cursors, the writes on the stored row. */
  method ApplyCursors(db: Connections, pull: Pull, current: Cursors, first: Write, second: Write)
    returns (r: Option<Applied>)
    requires pull.Pulled?
    modifies db`row
    ensures var moved := CursorStep(current, old(db.row), pull, first, second);
            && db.row == moved.row
            && r == if moved.threw then None else Some(Applied(moved.next, moved.drained))
    ensures old(db.row).Some? ==>
              var idle := pull.contiguous && pull.newestObservedAt == None && current.backfill == None;
              && db.row.Some?
              && (first.Stored() ==> WroteAs(current, old(db.row).value, db.row.value, pull))
              && (!first.Stored() ==> db.row == old(db.row))
              && (r == None <==> first != Landed && !idle)
              && (r != None && !idle ==> Some(r.value.cursors) == db.row)
              && (r != None && idle ==> r.value.cursors == current)
              && (r != None ==> (r.value.drained <==>
                    pull.contiguous && pull.newestObservedAt == None && current.backfill != None))
    ensures old(db.row).None? ==>
              && db.row.None? && (r != None ==> r.value == Applied(Cursors(current.watermark, None), false))
              && (r == None <==>
                    || (first != Landed && !(pull.contiguous && pull.newestObservedAt == None && current.backfill == None))
                    || (second != Landed && pull.contiguous && pull.newestObservedAt != None && current.backfill != None))
  {
    var missed := false;
    if pull.contiguous && pull.newestObservedAt.Some? {
      var advanced := db.AdvanceWatermark(pull.newestObservedAt.value, pull.resumeBefore, first);
      if first.Threw() { return None; }
      if advanced.Some? { return Some(Applied(advanced.value, false)); }
      missed := true;
    }
    if !pull.contiguous {
      var held := db.SetBackfillCursor(pull.resumeBefore, first);
      if first.Threw() { return None; }
      if held.Some? { return Some(Applied(held.value, false)); }
    }
    if pull.contiguous && current.backfill.Some? {
      var write := if missed then second else first;
      var cleared := db.SetBackfillCursor(None, write);
      if write.Threw() { return None; }
      if cleared.Some? { return Some(Applied(cleared.value, true)); }
    }
    return Some(Applied(Cursors(current.watermark, None), false));
  }

  /** A pass whose run is open: pull, store, move the cursors, close the run. */
  method PullAndStore(db: Connections, id: nat, w: PassWorld, local: Cursors) returns (ok: bool, next: Cursors, ghost p: Pass)
    requires id == |db.runs| - 1 && db.runs[id].Running?
    modifies db`row, db`runs
    ensures |db.runs| == id + 1 && db.runs[..id] == old(db.runs[..id]) && db.runs[id] == p.run
    ensures ValidPass(p) && p.world == w && p.local == local && p.after == db.row && p.ok == ok && p.next == next
  {
    ok, next := false, local;
    ghost var drained := false;
    db.row := w.atWrite;
    if w.pull.Pulled? && !w.persistThrew {
      var applied := ApplyCursors(db, w.pull, local, w.cursorWrite, w.secondWrite);
      if applied.Some? {
        drained := applied.value.drained;
        db.FinishRun(id, Completed, w.finishWrite);
        if !w.finishWrite.Threw() {
          ok, next := true, applied.value.cursors;
        }
      }
    }
    if !ok { db.FinishRun(id, Failed, w.failWrite); }
    p := Pass(w, local, next, db.row, drained, ok, db.runs[id]);
  }

  /** One pass. `None` is a run that could not be started, which may still have been stored. */
  method RunOnePass(db: Connections, w: PassWorld, local: Cursors) returns (r: Option<bool>, next: Cursors, ghost p: Pass)
    modifies db
    ensures r.None? <==> w.startWrite.Threw()
    ensures r.None? ==> db.row == w.atPull && db.runs == old(db.runs) + if w.startWrite.Stored() then [Running] else []
    ensures r.Some? ==>
              && db.runs == old(db.runs) + [p.run] && ValidPass(p)
              && p.world == w && p.local == local && p.after == db.row && p.ok == r.value && p.next == next
  {
    next := local;
    p := Pass(w, local, local, w.atPull, false, false, Running);
    db.row := w.atPull;
    var id := db.StartRun(w.startWrite);
    if id.None? { return None, next, p; }
    var ok;
    ok, next, p := PullAndStore(db, id.value, w, local);
    return Some(ok), next, p;
  }

  /** `PollThrew` is a run that could not be started or a key that could not be looked up; the
      caller counts the connection failed. */
  datatype Polled = Polled(failed: bool, stoppedOnDuration: bool) | PollThrew

  predicate QuietPass(p: Pass) {
    p.ok && p.world.pull.Pulled? && p.world.pull.eventsReceived == 0
  }

  /** The pass ran in world `i` with the cursors it was handed. That world let it start: its
      run opened, and the time budget, which is looked at before every pass but the first, was
      not spent. */
  ghost predicate Fits(p: Pass, worlds: seq<PassWorld>, i: int, local: Cursors) {
    && 0 <= i < |worlds| && p.world == worlds[i] && p.local == local && ValidPass(p)
    && !worlds[i].startWrite.Threw() && (i > 0 ==> !worlds[i].overBudget)
  }

  /** The cursors the pass at `i` is handed: the claim's, or those the one before it returned. */
  ghost function Handed(connection: Cursors, took: seq<Pass>, i: nat): Cursors
    requires i <= |took|
  {
    if i == 0 then connection else took[i - 1].next
  }

  /** The passes taken are a loop over the worlds, quiet up to `quietTo`. */
  ghost predicate Loop(connection: Cursors, took: seq<Pass>, quietTo: int, worlds: seq<PassWorld>) {
    && |took| <= |worlds|
    && (forall i | 0 <= i < |took| :: Fits(took[i], worlds, i, Handed(connection, took, i)))
    && (forall i | 0 <= i < quietTo && i < |took| :: QuietPass(took[i]))
  }

  lemma LoopNext(connection: Cursors, took: seq<Pass>, p: Pass, worlds: seq<PassWorld>)
    requires Loop(connection, took, |took|, worlds) && Fits(p, worlds, |took|, Handed(connection, took, |took|))
    ensures Loop(connection, took + [p], |took|, worlds)
    ensures QuietPass(p) ==> Loop(connection, took + [p], |took| + 1, worlds)
  {
    var longer := took + [p];
    forall i | 0 <= i < |longer| ensures Fits(longer[i], worlds, i, Handed(connection, longer, i)) {
      assert Handed(connection, longer, i) == Handed(connection, took, i);
      assert longer[i] == if i < |took| then took[i] else p;
    }
  }

  datatype Turn = OverBudget | StartFailed | Took(ok: bool, next: Cursors)

  /** One turn of the loop, up to the pass it may take. */
  method TakeTurn(db: Connections, w: PassWorld, i: nat, local: Cursors) returns (t: Turn, ghost p: Pass)
    modifies db
    ensures match t
            case OverBudget => i > 0 && w.overBudget && db.runs == old(db.runs)
            case StartFailed =>
              w.startWrite.Threw() && db.runs == old(db.runs) + if w.startWrite.Stored() then [Running] else []
            case Took(ok, next) =>
              && db.runs == old(db.runs) + [p.run] && ValidPass(p) && p.ok == ok && p.next == next
              && p.world == w && p.local == local && !w.startWrite.Threw() && (i > 0 ==> !w.overBudget)
  {
    p := Pass(w, local, local, db.row, false, false, Running);
    if i > 0 && w.overBudget { return OverBudget, p; }
    var ok, next;
    ok, next, p := RunOnePass(db, w, local);
    if ok.None? { return StartFailed, p; }
    return Took(ok.value, next), p;
  }

  ghost function RunsOf(passes: seq<Pass>): seq<RunStatus> {
    if passes == [] then [] else RunsOf(passes[..|passes| - 1]) + [passes[|passes| - 1].run]
  }

  lemma RunsNext(took: seq<Pass>, p: Pass)
    ensures RunsOf(took + [p]) == RunsOf(took) + [p.run]
  {
    assert (took + [p])[..|took|] == took;
  }

  /** The run a start that threw left behind. */
  function LeftBehind(worlds: seq<PassWorld>, n: nat): seq<RunStatus> {
    if n < |worlds| && worlds[n].startWrite.LandedThenThrew? then [Running] else []
  }

  /** How a loop that took these passes ends: over budget, at a run that would not start, at a
      pass that failed or saw events, or with every planned pass taken. */
  ghost predicate Ends(r: Polled, connection: Cursors, took: seq<Pass>, worlds: seq<PassWorld>) {
    && Loop(connection, took, |took| - 1, worlds)
    && match r
       case PollThrew => |took| < |worlds| && worlds[|took|].startWrite.Threw() && Loop(connection, took, |took|, worlds)
       case Polled(failed, stopped) =>
         && (failed <==> took != [] && !took[|took| - 1].ok)
         && (stopped ==> 0 < |took| < |worlds| && worlds[|took|].overBudget && !failed)
         && (!failed && !stopped && |took| < |worlds| ==> took != [] && !QuietPass(took[|took| - 1]))
  }

  /** The run rows a loop leaves. */
  ghost function Left(r: Polled, took: seq<Pass>, worlds: seq<PassWorld>): seq<RunStatus> {
    RunsOf(took) + if r.PollThrew? then LeftBehind(worlds, |took|) else []
  }

  /** One turn of the loop; `Some` is how it ends. */
  method NextPass(db: Connections, worlds: seq<PassWorld>, pass: nat, local: Cursors,
                  ghost connection: Cursors, ghost runs: seq<RunStatus>, ghost took: seq<Pass>)
    returns (r: Option<Polled>, next: Cursors, ghost took': seq<Pass>)
    requires pass == |took| < |worlds| && Loop(connection, took, |took|, worlds) && local == Handed(connection, took, |took|)
    requires db.runs == runs + RunsOf(took)
    modifies db
    ensures r.None? ==> |took'| == pass + 1 && Loop(connection, took', |took'|, worlds) && db.runs == runs + RunsOf(took')
    ensures r.None? ==> next == Handed(connection, took', |took'|)
    ensures r.Some? ==> Ends(r.value, connection, took', worlds) && db.runs == runs + Left(r.value, took', worlds)
  {
    var turn;
    ghost var p: Pass;
    next, took' := local, took;
    turn, p := TakeTurn(db, worlds[pass], pass, local);
    match turn
    case OverBudget => return Some(Polled(false, true)), next, took;
    case StartFailed => return Some(PollThrew), next, took;
    case Took(ok, after) =>
      TurnTaken(connection, took, p, worlds);
      RunTaken(runs, took, p);
      next, took' := after, took + [p];
      if !ok { return Some(Polled(true, false)), next, took'; }
      if worlds[pass].pull.eventsReceived > 0 { return Some(Polled(false, false)), next, took'; }
      return None, next, took';
  }

  /** A claimed connection whose key opened is polled for up to the planned number of passes.
      The first pull goes out with the cursors the claim read, each later one with those the
      pass before it returned, whatever the row says by then; a failed pass, or one that saw
      events, is the last of its loop; each pass has its run; and the loop stops where its
      world says. */
  method PollPasses(db: Connections, connection: Cursors, worlds: seq<PassWorld>) returns (r: Polled, ghost took: seq<Pass>)
    modifies db
    ensures Ends(r, connection, took, worlds) && db.runs == old(db.runs) + Left(r, took, worlds)
  {
    var local := connection;
    took := [];
    for pass := 0 to |worlds|
      invariant |took| == pass && local == Handed(connection, took, |took|)
      invariant Loop(connection, took, |took|, worlds) && db.runs == old(db.runs) + RunsOf(took)
    {
      var ended;
      ended, local, took := NextPass(db, worlds, pass, local, connection, old(db.runs), took);
      if ended.Some? { return ended.value, took; }
    }
    return Polled(false, false), took;
  }

  /** What a turn that took a pass leaves. */
  lemma TurnTaken(connection: Cursors, took: seq<Pass>, p: Pass, worlds: seq<PassWorld>)
    requires Loop(connection, took, |took|, worlds) && Fits(p, worlds, |took|, Handed(connection, took, |took|))
    ensures QuietPass(p) ==> Loop(connection, took + [p], |took| + 1, worlds)
    ensures !p.ok ==> Ends(Polled(true, false), connection, took + [p], worlds)
    ensures p.ok && !QuietPass(p) ==> Ends(Polled(false, false), connection, took + [p], worlds)
  {
    LoopNext(connection, took, p, worlds);
  }

  lemma RunTaken(runs: seq<RunStatus>, took: seq<Pass>, p: Pass)
    ensures runs + RunsOf(took) + [p.run] == runs + RunsOf(took + [p])
  {
    RunsNext(took, p);
  }

  /** The stored key: looking it up may throw, and it may not open. */
  datatype Credential = LookupThrew | Unreadable | Opened

  /** `pollConnection`: a key that does not open is a run of its own, failed without a pass. */
  method PollConnection(db: Connections, credential: Credential, unattempted: PassWorld, connection: Cursors, worlds: seq<PassWorld>)
    returns (r: Polled, ghost took: seq<Pass>)
    modifies db
    ensures !credential.Opened? ==> db.row == old(db.row) && took == []
    ensures credential.LookupThrew? ==> r.PollThrew? && db.runs == old(db.runs)
    ensures credential.Unreadable? ==>
              && r == (if unattempted.startWrite.Threw() then PollThrew else Polled(true, false))
              && db.runs == old(db.runs) + (if unattempted.startWrite.LostThenThrew? then []
                                            else if unattempted.startWrite.Threw() then [Running]
                                            else [Closed(Running, Failed, unattempted.failWrite)])
    ensures credential.Opened? ==>
              && Ends(r, connection, took, worlds)
              && db.runs == old(db.runs) + Left(r, took, worlds)
  {
    took := [];
    if credential.LookupThrew? { return PollThrew, took; }
    if credential.Unreadable? {
      var id := db.StartRun(unattempted.startWrite);
      if id.None? { return PollThrew, took; }
      db.FinishRun(id.value, Failed, unattempted.failWrite);
      return Polled(true, false), took;
    }
    r, took := PollPasses(db, connection, worlds);
  }

  /** `runFirstPull`: the one pull of a connect, under no claim. Whatever throws past the start
      of its run is caught by the caller, which leaves the run as it is. */
  method RunFirstPull(db: Connections, w: PassWorld, local: Cursors) returns (current: Cursors, completed: bool)
    modifies db
    ensures var reached := !w.startWrite.Threw() && ReachesCursors(w);
            var moved := if reached then FirstStep(local, w.atWrite, w.pull, w.cursorWrite) else Moved(w.atWrite, false, local, false);
            && db.row == (if w.startWrite.Threw() then w.atPull else moved.row)
            && (completed <==> reached && !moved.threw && !w.finishWrite.Threw())
            && (reached && w.atWrite.Some? ==>
                  && db.row.Some?
                  && (w.cursorWrite.Stored() ==> WroteAs(Cursors(None, None), w.atWrite.value, db.row.value, w.pull))
                  && (!w.cursorWrite.Stored() ==> db.row == w.atWrite))
            && current == (if completed then moved.next else local)
            && db.runs == old(db.runs) + (if w.startWrite.LostThenThrew? then []
                                          else if w.startWrite.Threw() then [Running]
                                          else if reached && !moved.threw then [Closed(Running, Completed, w.finishWrite)]
                                          else if w.pull.PullFailed? && !w.persistThrew then [Closed(Running, Failed, w.finishWrite)]
                                          else [Running])
    ensures var idle := w.pull.Pulled? && w.pull.contiguous && w.pull.newestObservedAt == None;
            && (completed <==>
                  && w.startWrite == Landed && w.pull.Pulled? && !w.persistThrew
                  && (idle || w.cursorWrite == Landed) && w.finishWrite == Landed)
            && (completed && w.atWrite.Some? && !idle ==> Some(current) == db.row)
            && (!completed || w.atWrite == None || idle ==> current == local)
  {
    db.row := w.atPull;
    var id := db.StartRun(w.startWrite);
    if id.None? { return local, false; }
    db.row := w.atWrite;
    if w.pull.PullThrew? || w.persistThrew { return local, false; }
    if w.pull.PullFailed? {
      db.FinishRun(id.value, Failed, w.finishWrite);
      return local, false;
    }

    current := local;
    if w.pull.contiguous && w.pull.newestObservedAt.Some? {
      var advanced := db.AdvanceWatermark(w.pull.newestObservedAt.value, w.pull.resumeBefore, w.cursorWrite);
      if w.cursorWrite.Threw() { return local, false; }
      if advanced.Some? { current := advanced.value; }
    } else if !w.pull.contiguous {
      var held := db.SetBackfillCursor(w.pull.resumeBefore, w.cursorWrite);
      if w.cursorWrite.Threw() { return local, false; }
      if held.Some? { current := held.value; }
    }
    db.FinishRun(id.value, Completed, w.finishWrite);
    if w.finishWrite.Threw() { return local, false; }
    return current, true;
  }

  // ------------------------------------------------------------- single passes

  /** The backfill cursor of a row is set. */
  predicate IsSet(row: Option<Cursors>) {
    row.Some? && row.value.backfill.Some?
  }

  /** A pass over a row that is there, said by what its world did: when it succeeds, what it leaves,
      what it hands on, and how its run is recorded. */
  lemma PassesAs(p: Pass)
    requires ValidPass(p) && p.world.atWrite.Some?
    ensures var w := p.world;
            var stored := w.pull.Pulled? && !w.persistThrew;
            var idle := stored && w.pull.contiguous && w.pull.newestObservedAt == None && p.local.backfill == None;
            var moved := stored && (idle || w.cursorWrite == Landed);
            && (p.ok <==> moved && w.finishWrite == Landed)
            && p.after.Some?
            && (!stored || w.cursorWrite == LostThenThrew ==> p.after == w.atWrite)
            && (stored && w.cursorWrite != LostThenThrew ==> WroteAs(p.local, w.atWrite.value, p.after.value, w.pull))
            && (p.drained <==> moved && w.pull.contiguous && w.pull.newestObservedAt == None && p.local.backfill != None)
            && (p.ok && !idle ==> Some(p.next) == p.after)
            && (!p.ok || idle ==> p.next == p.local)
            && (p.run == Completed <==> moved && w.finishWrite != LostThenThrew)
            && (p.run == Failed <==> (!moved || w.finishWrite == LostThenThrew) && w.failWrite != LostThenThrew)
  {
  }

  /** And over a row that is gone: nothing is written, and a poll goes on with its own watermark
      and no backfill cursor. */
  lemma PassesOverNothing(p: Pass)
    requires ValidPass(p) && p.world.atWrite == None
    ensures p.after == None && !p.drained
    ensures p.ok ==> p.next == Cursors(p.local.watermark, None)
    ensures p.ok || p.run == Completed ==> p.world.pull.Pulled? && !p.world.persistThrew
  {
  }

  /** What an announcement means: a contiguous pull that saw nothing new, by a poll whose own
      copy was set, left the row clear with its watermark where it was. It marks a real step
      from set to clear exactly when the stored backfill was still set at the write. */
  lemma DrainIsRealIff(p: Pass)
    requires ValidPass(p) && p.drained
    ensures p.local.backfill.Some? && p.world.atWrite.Some? && p.after.Some? && !IsSet(p.after)
    ensures p.after.value.watermark == p.world.atWrite.value.watermark
    ensures p.world.pull.contiguous && p.world.pull.newestObservedAt.None?
    ensures p.world.atWrite != p.after <==> IsSet(p.world.atWrite)
  {
  }

  /** A cursor cleared without advancing is announced exactly when the pull was contiguous, saw
      nothing new and the clear was acknowledged. A pull whose backward walk spends the whole
      page cap is cut off before the first request of its forward walk, with nowhere to resume,
      and clears the cursor silently. */
  lemma ClearedSilentlyIff(p: Pass)
    requires ValidPass(p) && IsSet(p.world.atWrite) && !IsSet(p.after)
    requires p.after.Some? && p.after.value.watermark == p.world.atWrite.value.watermark
    ensures !p.drained <==> (!p.world.pull.contiguous || p.world.pull.newestObservedAt.Some? || p.world.cursorWrite.Threw())
  {
  }

  lemma SilentClearExists() returns (p: Pass)
    ensures ValidPass(p) && p.world.atWrite == Some(p.local) && IsSet(p.world.atWrite)
    ensures p.after == Some(Cursors(Some(7), None)) && !p.drained && p.ok
    ensures p.world.pull.Pulled? && p.world.pull.eventsReceived > 0
  {
    var c, clear := Cursors(Some(7), Some("cursor")), Cursors(Some(7), None);
    var w := PassWorld(false, Landed, Some(c), Pulled(false, None, None, 1000), false, Some(c), Landed, Landed, Landed, Landed);
    p := Pass(w, c, clear, Some(clear), false, true, Completed);
  }

  /** What a pass's run row says in the end. It contradicts the pass exactly when the write
      that completed it was stored but thrown: the failure recorded next finds the run closed.
      And it is left running exactly when neither closing was stored. */
  lemma RunRowIff(p: Pass)
    requires ValidPass(p)
    ensures p.run.Completed? <==> Completes(p) && p.world.finishWrite.Stored()
    ensures p.run.Completed? && !p.ok <==> Completes(p) && p.world.finishWrite.LandedThenThrew?
    ensures p.run.Running? <==> (!Completes(p) || p.world.finishWrite.LostThenThrew?) && p.world.failWrite.LostThenThrew?
    ensures p.ok ==> p.run.Completed?
  {
  }

  /** And it does contradict it. */
  lemma CompletedThoughFailed() returns (p: Pass)
    ensures ValidPass(p) && p.run.Completed? && !p.ok && p.after == p.world.atWrite
  {
    var c := Cursors(Some(7), None);
    var w := PassWorld(false, Landed, Some(c), Pulled(true, None, None, 5), false, Some(c), Landed, Landed, LandedThenThrew, Landed);
    p := Pass(w, c, c, Some(c), false, false, Completed);
  }
}
