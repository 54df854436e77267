/** The narration tick: per lane, list since the watermark, attempt what is due, count; across
    lanes, spend one shared budget. */
module ReplayTick {
  import opened Common
  import opened Sequences
  import opened ReplayDrain

  /** What a lane's outside world does: what the source lists since a watermark and how each
      attempt ends. `threw` is any of the reads before the first attempt throwing; every attempt
      has its own catch. */
  datatype LaneWorld = LaneWorld(
    resolves: bool, threw: bool, listing: Option<int> -> seq<Recording>, attempts: nat -> Attempt)

  datatype Tally = Tally(summarised: nat, retried: nat, skipped: int, failed: nat, attempted: nat)

  /** One project's `recording_summaries`. */
  class Summaries {
    var rows: Rows

    /** The watermark query: the newest known start among held rows. */
    method LatestStartedAt() returns (w: Option<int>)
      ensures IsWatermark(rows, w)
    {
      w := None;
      var left := rows.Keys;
      while left != {}
        invariant left <= rows.Keys
        invariant match w
                  case None => forall id | id in rows && id !in left :: rows[id].startedAt.None?
                  case Some(t) =>
                    && (exists id | id in rows :: rows[id].startedAt == Some(t))
                    && (forall id | id in rows && id !in left && rows[id].startedAt.Some? :: rows[id].startedAt.value <= t)
        decreases left
      {
        var id :| id in left;
        if rows[id].startedAt.Some? && (w.None? || w.value < rows[id].startedAt.value) {
          w := rows[id].startedAt;
        }
        left := left - {id};
      }
    }

    /** The row write of one attempt: insert-or-keep first, a pull refresh after that. */
    method Hold(r: Recording, retry: bool, a: Attempt)
      modifies this
      ensures rows == HoldOne(old(rows), r, retry, a)
    {
      rows := HoldOne(rows, r, retry, a);
    }
  }

  /** Attempts that did not throw among the first `n`, split by kind. */
  function Succeeded(due: seq<Recording>, attempts: nat -> Attempt, kind: Recording -> bool, n: nat): nat
    requires n <= |due|
  {
    if n == 0 then 0
    else Succeeded(due, attempts, kind, n - 1) + (if kind(due[n - 1]) && !attempts(n - 1).threw then 1 else 0)
  }

  function Threw(attempts: nat -> Attempt, n: nat): nat {
    if n == 0 then 0 else Threw(attempts, n - 1) + (if attempts(n - 1).threw then 1 else 0)
  }

  function NotRetry(rows: Rows): Recording -> bool {
    (r: Recording) => !IsRetry(rows)(r)
  }

  /** The first `n` attempts that threw; and those that did not, over recordings with a row, or
      with none. */
  ghost function ThrewAt(attempts: nat -> Attempt, n: nat): set<nat> {
    set i: nat | i < n && attempts(i).threw
  }

  ghost function WentAt(due: seq<Recording>, rows: Rows, held: bool, attempts: nat -> Attempt, n: nat): set<nat>
    requires n <= |due|
  {
    set i: nat | i < n && !attempts(i).threw && (held <==> due[i].id in rows)
  }

  lemma {:induction false} ThrowsAre(attempts: nat -> Attempt, n: nat)
    ensures Threw(attempts, n) == |ThrewAt(attempts, n)|
  {
    if n == 0 {
      assert ThrewAt(attempts, 0) == {};
    } else {
      var i: nat := n - 1;
      ThrowsAre(attempts, i);
      assert ThrewAt(attempts, n) == if attempts(i).threw then ThrewAt(attempts, i) + {i} else ThrewAt(attempts, i);
    }
  }

  lemma WentNext(due: seq<Recording>, rows: Rows, held: bool, attempts: nat -> Attempt, i: nat)
    requires i < |due|
    ensures WentAt(due, rows, held, attempts, i + 1) ==
            if !attempts(i).threw && (held <==> due[i].id in rows) then WentAt(due, rows, held, attempts, i) + {i}
            else WentAt(due, rows, held, attempts, i)
    ensures i !in WentAt(due, rows, held, attempts, i)
  {
  }

  lemma {:induction false} SuccessesAre(due: seq<Recording>, rows: Rows, held: bool, kind: Recording -> bool, attempts: nat -> Attempt, n: nat)
    requires n <= |due| && forall i | 0 <= i < n :: kind(due[i]) <==> (held <==> due[i].id in rows)
    ensures Succeeded(due, attempts, kind, n) == |WentAt(due, rows, held, attempts, n)|
  {
    if n == 0 {
      assert WentAt(due, rows, held, attempts, 0) == {};
    } else {
      SuccessesAre(due, rows, held, kind, attempts, n - 1);
      WentNext(due, rows, held, attempts, n - 1);
    }
  }

  /** The counters of a lane count what they are named for: throws, retries of a recording with a
      row that did not throw, and first readings of one without that did not. */
  lemma CountersAre(due: seq<Recording>, rows: Rows, attempts: nat -> Attempt)
    requires forall i | 0 <= i < |due| :: TakenUp(rows, due[i])
    ensures Threw(attempts, |due|) == |ThrewAt(attempts, |due|)|
    ensures Succeeded(due, attempts, IsRetry(rows), |due|) == |WentAt(due, rows, true, attempts, |due|)|
    ensures Succeeded(due, attempts, NotRetry(rows), |due|) == |WentAt(due, rows, false, attempts, |due|)|
  {
    ThrowsAre(attempts, |due|);
    SuccessesAre(due, rows, true, IsRetry(rows), attempts, |due|);
    SuccessesAre(due, rows, false, NotRetry(rows), attempts, |due|);
  }

  /** What a lane that reached its listing reports. */
  ghost predicate Reports(t: Tally, rows: Rows, world: LaneWorld, budget: nat) {
    var listed := world.listing(WatermarkOf(rows));
    var due := Due(rows, listed, budget);
    && t.attempted == |due|
    && t.summarised == Succeeded(due, world.attempts, NotRetry(rows), |due|)
    && t.retried == Succeeded(due, world.attempts, IsRetry(rows), |due|)
    && t.failed == Threw(world.attempts, |due|)
    && t.skipped == |listed| - |Filter(IsFresh(rows), listed)| - |Filter(IsRetry(rows), listed)|
  }

  /** The attempt loop: one catch per recording. */
  method AttemptAll(summaries: Summaries, due: seq<Recording>, attempts: nat -> Attempt)
    returns (summarised: nat, retried: nat, failed: nat)
    modifies summaries
    ensures summaries.rows == Drain(old(summaries.rows), due, attempts)
    ensures summarised == Succeeded(due, attempts, NotRetry(old(summaries.rows)), |due|)
    ensures retried == Succeeded(due, attempts, IsRetry(old(summaries.rows)), |due|)
    ensures failed == Threw(attempts, |due|)
    ensures summarised + retried + failed == |due|
  {
    summarised, retried, failed := 0, 0, 0;
    var start := summaries.rows;
    for i := 0 to |due|
      invariant summaries.rows == Drain(start, due[..i], attempts)
      invariant summarised == Succeeded(due, attempts, NotRetry(start), i)
      invariant retried == Succeeded(due, attempts, IsRetry(start), i)
      invariant failed == Threw(attempts, i)
      invariant summarised + retried + failed == i
    {
      var retry := IsRetry(start)(due[i]);
      summaries.Hold(due[i], retry, attempts(i));
      assert due[..i + 1][..i] == due[..i];
      if attempts(i).threw {
        failed := failed + 1;
      } else if retry {
        retried := retried + 1;
      } else {
        summarised := summarised + 1;
      }
    }
    assert due[..|due|] == due;
  }

  /** `None` is a lane that threw, which it can do only before its first attempt. */
  method RunLane(summaries: Summaries, budget: nat, world: LaneWorld) returns (tally: Option<Tally>)
    modifies summaries
    ensures tally.None? <==> world.threw
    ensures world.threw || !world.resolves ==> summaries.rows == old(summaries.rows)
    ensures !world.threw && !world.resolves ==> tally == Some(Tally(0, 0, 0, 0, 0))
    ensures !world.threw && world.resolves ==>
              && Reports(tally.value, old(summaries.rows), world, budget)
              && var listed := world.listing(WatermarkOf(old(summaries.rows)));
                 summaries.rows == Drain(old(summaries.rows), Due(old(summaries.rows), listed, budget), world.attempts)
    ensures tally.Some? ==>
              tally.value.summarised + tally.value.retried + tally.value.failed == tally.value.attempted <= budget
  {
    if world.threw { return None; }
    if !world.resolves { return Some(Tally(0, 0, 0, 0, 0)); }

    var watermark := summaries.LatestStartedAt();
    WatermarkIsUnique(summaries.rows, watermark, WatermarkOf(summaries.rows));
    var listed := world.listing(watermark);
    var unread := Filter(IsFresh(summaries.rows), listed);
    var retries := Filter(IsRetry(summaries.rows), listed);
    var skipped := |listed| - |unread| - |retries|;
    var due := Take(OldestFirst(unread) + OldestFirst(retries), budget);
    var summarised, retried, failed := AttemptAll(summaries, due, world.attempts);
    return Some(Tally(summarised, retried, skipped, failed, |due|));
  }

  /** A listed recording is fresh, worth a retry, or skipped: the skip count is never
      negative, because a retry already holds a row. */
  lemma {:induction false} SkippedIsCount(rows: Rows, listed: seq<Recording>)
    ensures |listed| - |Filter(IsFresh(rows), listed)| - |Filter(IsRetry(rows), listed)|
            == |Filter((r: Recording) => r.id in rows && !rows[r.id].pullFailed, listed)|
  {
    if listed != [] {
      SkippedIsCount(rows, listed[..|listed| - 1]);
    }
  }

  /** What a lane came to, from `before` to `after`: one that threw or has no source changed
      nothing and reports nothing; any other attempted exactly what was due to it. */
  ghost predicate LaneDid(world: LaneWorld, before: Rows, after: Rows, t: Tally, budget: nat) {
    if world.threw || !world.resolves then after == before && t == Tally(0, 0, 0, 0, 0)
    else
      && Reports(t, before, world, budget)
      && after == Drain(before, Due(before, world.listing(WatermarkOf(before)), budget), world.attempts)
  }

  /** The tick's catch around a lane: one that threw has spent nothing. */
  method CatchLane(summaries: Summaries, budget: nat, world: LaneWorld) returns (t: Tally)
    modifies summaries
    ensures t.summarised + t.retried + t.failed == t.attempted <= budget
    ensures LaneDid(world, old(summaries.rows), summaries.rows, t, budget)
  {
    var tally := RunLane(summaries, budget, world);
    t := if tally.Some? then tally.value else Tally(0, 0, 0, 0, 0);
  }

  datatype LaneInput = LaneInput(summaries: Summaries, world: LaneWorld)

  function Add(a: Tally, b: Tally): Tally {
    Tally(a.summarised + b.summarised, a.retried + b.retried, a.skipped + b.skipped, a.failed + b.failed,
          a.attempted + b.attempted)
  }

  /** What the lanes of a tick did between them. */
  function Total(tallies: seq<Tally>): Tally {
    if tallies == [] then Tally(0, 0, 0, 0, 0) else Add(Total(tallies[..|tallies| - 1]), tallies[|tallies| - 1])
  }

  function SumOf(figure: Tally -> int, tallies: seq<Tally>): int {
    if tallies == [] then 0 else SumOf(figure, tallies[..|tallies| - 1]) + figure(tallies[|tallies| - 1])
  }

  /** Each figure of the total is the sum of that figure over the lanes. */
  lemma {:induction false} TotalsAre(tallies: seq<Tally>)
    ensures var total := Total(tallies);
            && total.summarised == SumOf((t: Tally) => t.summarised, tallies)
            && total.retried == SumOf((t: Tally) => t.retried, tallies)
            && total.skipped == SumOf((t: Tally) => t.skipped, tallies)
            && total.failed == SumOf((t: Tally) => t.failed, tallies)
            && total.attempted == SumOf((t: Tally) => t.attempted, tallies)
  {
    if tallies != [] { TotalsAre(tallies[..|tallies| - 1]); }
  }

  lemma TotalNext(tallies: seq<Tally>, t: Tally)
    ensures Total(tallies + [t]) == Add(Total(tallies), t)
  {
    assert (tallies + [t])[..|tallies|] == tallies;
  }

  /** What is left for a lane once those before it are counted. */
  function BudgetAfter(tallies: seq<Tally>, perProjectCap: nat, perTickCap: nat): nat {
    var spent := Total(tallies).attempted;
    if spent <= perTickCap then Min(perProjectCap, perTickCap - spent) else 0
  }

  /** Lane `i` did its work on its own rows within what the lanes before it left. */
  ghost predicate DidAt(lanes: seq<LaneInput>, before: seq<Rows>, after: seq<Rows>, tallies: seq<Tally>,
                        perProjectCap: nat, perTickCap: nat, i: nat) {
    && i < |tallies| && i < |lanes| && i < |before| && i < |after|
    && LaneDid(lanes[i].world, before[i], after[i], tallies[i], BudgetAfter(tallies[..i], perProjectCap, perTickCap))
  }

  ghost predicate AllDid(lanes: seq<LaneInput>, before: seq<Rows>, after: seq<Rows>, tallies: seq<Tally>,
                         perProjectCap: nat, perTickCap: nat) {
    forall i: nat | i < |tallies| :: DidAt(lanes, before, after, tallies, perProjectCap, perTickCap, i)
  }

  lemma DidNext(lanes: seq<LaneInput>, before: seq<Rows>, after: seq<Rows>, tallies: seq<Tally>,
                perProjectCap: nat, perTickCap: nat, rows: Rows, t: Tally)
    requires AllDid(lanes, before, after, tallies, perProjectCap, perTickCap)
    requires |tallies| == |after| < |lanes| == |before|
    requires LaneDid(lanes[|tallies|].world, before[|tallies|], rows, t, BudgetAfter(tallies, perProjectCap, perTickCap))
    ensures AllDid(lanes, before, after + [rows], tallies + [t], perProjectCap, perTickCap)
  {
    var after', tallies' := after + [rows], tallies + [t];
    forall i: nat | i < |tallies'| ensures DidAt(lanes, before, after', tallies', perProjectCap, perTickCap, i) {
      assert tallies'[..i] == tallies[..i];
      if i < |tallies| {
        assert DidAt(lanes, before, after, tallies, perProjectCap, perTickCap, i);
      } else {
        assert tallies[..i] == tallies;
      }
    }
  }

  /** Each lane has rows of its own. */
  predicate OwnRows(lanes: seq<LaneInput>, tables: set<Summaries>) {
    && (forall i | 0 <= i < |lanes| :: lanes[i].summaries in tables)
    && (forall i, j | 0 <= i < j < |lanes| :: lanes[i].summaries != lanes[j].summaries)
  }

  /** The lanes up to `|after|` stand at `after`, the rest at `before`. */
  ghost predicate Standing(lanes: seq<LaneInput>, tables: set<Summaries>, before: seq<Rows>, after: seq<Rows>)
    requires OwnRows(lanes, tables)
    reads tables
  {
    && |after| <= |lanes| == |before|
    && (forall i | 0 <= i < |after| :: lanes[i].summaries.rows == after[i])
    && (forall i | |after| <= i < |lanes| :: lanes[i].summaries.rows == before[i])
  }

  ghost function RowsOf(lanes: seq<LaneInput>, tables: set<Summaries>): (rows: seq<Rows>)
    requires OwnRows(lanes, tables)
    reads tables
    ensures |rows| == |lanes| && forall i | 0 <= i < |lanes| :: rows[i] == lanes[i].summaries.rows
    ensures Standing(lanes, tables, rows, [])
  {
    seq(|lanes|, i requires 0 <= i < |lanes| && lanes[i].summaries in tables reads tables => lanes[i].summaries.rows)
  }

  /** The next lane's turn. */
  method TakeLane(lanes: seq<LaneInput>, i: nat, perProjectCap: nat, perTickCap: nat, budget: nat, ghost tables: set<Summaries>,
                  ghost before: seq<Rows>, ghost after: seq<Rows>, ghost tallies: seq<Tally>)
    returns (t: Tally, ghost rows: Rows)
    requires OwnRows(lanes, tables) && Standing(lanes, tables, before, after)
    requires i == |tallies| == |after| < |lanes| && AllDid(lanes, before, after, tallies, perProjectCap, perTickCap)
    requires Total(tallies).attempted + budget == perTickCap
    modifies lanes[i].summaries
    ensures t.summarised + t.retried + t.failed == t.attempted <= budget
    ensures Standing(lanes, tables, before, after + [rows])
    ensures AllDid(lanes, before, after + [rows], tallies + [t], perProjectCap, perTickCap)
    ensures Total(tallies + [t]) == Add(Total(tallies), t)
  {
    var lane := lanes[i];
    assert BudgetAfter(tallies, perProjectCap, perTickCap) == Min(perProjectCap, budget);
    t := CatchLane(lane.summaries, Min(perProjectCap, budget), lane.world);
    rows := lane.summaries.rows;
    DidNext(lanes, before, after, tallies, perProjectCap, perTickCap, rows, t);
    TotalNext(tallies, t);
  }

  /** The tick reports the sum of its lanes: each lane it reads attempts exactly what was due to
      it within what the lanes before it left of `perTickCap`, and the rest are untouched. It
      never attempts more than the ceiling, whichever lanes throw, every attempt ends in
      exactly one counter, and a lane goes unread only once the ceiling is reached. */
  method RunReplayNarrationTick(lanes: seq<LaneInput>, perProjectCap: nat, perTickCap: nat, ghost tables: set<Summaries>)
    returns (lanesRead: nat, total: Tally, ghost tallies: seq<Tally>)
    requires OwnRows(lanes, tables)
    modifies tables
    ensures |tallies| == lanesRead <= |lanes| && total == Total(tallies)
    ensures AllDid(lanes, old(RowsOf(lanes, tables)), RowsOf(lanes, tables), tallies, perProjectCap, perTickCap)
    ensures forall i | lanesRead <= i < |lanes| :: lanes[i].summaries.rows == old(lanes[i].summaries.rows)
    ensures total.summarised + total.retried + total.failed == total.attempted <= perTickCap
    ensures lanesRead < |lanes| ==> total.attempted == perTickCap
  {
    lanesRead, total, tallies := 0, Tally(0, 0, 0, 0, 0), [];
    var budget := perTickCap;
    ghost var before, after, rows := RowsOf(lanes, tables), [], map[];
    while lanesRead < |lanes| && budget > 0
      invariant lanesRead == |tallies| == |after| <= |lanes| && total == Total(tallies)
      invariant 0 <= budget == perTickCap - total.attempted
      invariant total.summarised + total.retried + total.failed == total.attempted
      invariant AllDid(lanes, before, after, tallies, perProjectCap, perTickCap) && Standing(lanes, tables, before, after)
    {
      var t;
      t, rows := TakeLane(lanes, lanesRead, perProjectCap, perTickCap, budget, tables, before, after, tallies);
      budget, total, tallies, after := budget - t.attempted, Add(total, t), tallies + [t], after + [rows];
      lanesRead := lanesRead + 1;
    }
    DidEnds(lanes, before, after, RowsOf(lanes, tables), tallies, perProjectCap, perTickCap);
  }

  lemma DidEnds(lanes: seq<LaneInput>, before: seq<Rows>, after: seq<Rows>, ended: seq<Rows>, tallies: seq<Tally>,
                perProjectCap: nat, perTickCap: nat)
    requires AllDid(lanes, before, after, tallies, perProjectCap, perTickCap)
    requires |tallies| == |after| <= |ended| && forall i | 0 <= i < |after| :: ended[i] == after[i]
    ensures AllDid(lanes, before, ended, tallies, perProjectCap, perTickCap)
  {
    forall i: nat | i < |tallies| ensures DidAt(lanes, before, ended, tallies, perProjectCap, perTickCap, i) {
      assert DidAt(lanes, before, after, tallies, perProjectCap, perTickCap, i);
    }
  }
}
