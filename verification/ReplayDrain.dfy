/** The narration lane's watermark: which recordings a listing drops, what one tick holds,
    and when no recording is ever passed over. */
module ReplayDrain {
  import opened Common
  import opened Sequences
  import opened Sorting

  datatype Recording = Recording(id: string, startedAt: Option<int>)

  /** A row already summarised; `pullFailed` makes it worth reading again. */
  datatype Held = Held(startedAt: Option<int>, pullFailed: bool)

  type Rows = map<string, Held>

  /** The two recording sources read the watermark differently. */
  datatype Provider = PostHog | Rrweb

  /** One narration attempt: whether its row was stored, whether it threw, and how its pull
      ended. An attempt may throw after its row was stored. */
  datatype Attempt = Attempt(landed: bool, threw: bool, pullFailed: bool)

  /** What a listing since `watermark` leaves out. PostHog lists the instant itself again. */
  predicate Dropped(startedAt: Option<int>, watermark: Option<int>, provider: Provider) {
    && startedAt.Some? && watermark.Some?
    && if provider.PostHog? then startedAt.value < watermark.value else startedAt.value <= watermark.value
  }

  /** The newest known start instant among held rows; rows with no start never count. */
  ghost predicate IsWatermark(rows: Rows, w: Option<int>) {
    match w
    case None => forall id | id in rows :: rows[id].startedAt.None?
    case Some(t) =>
      && (exists id | id in rows :: rows[id].startedAt == Some(t))
      && (forall id | id in rows && rows[id].startedAt.Some? :: rows[id].startedAt.value <= t)
  }

  function StartKey(r: Recording): int {
    if r.startedAt.Some? then r.startedAt.value else 0
  }

  function OlderFirst(): (Recording, Recording) -> bool {
    (a, b) => StartKey(a) <= StartKey(b)
  }

  function OldestFirst(recordings: seq<Recording>): (r: seq<Recording>)
    ensures |r| == |recordings|
  {
    Sort(OlderFirst(), recordings)
  }

  function IsFresh(rows: Rows): Recording -> bool {
    (r: Recording) => r.id !in rows
  }

  function IsRetry(rows: Rows): Recording -> bool {
    (r: Recording) => r.id in rows && rows[r.id].pullFailed
  }

  /** Recordings with no row yet, oldest first, then the failed pulls, cut at the budget. */
  function Due(rows: Rows, listed: seq<Recording>, budget: nat): seq<Recording> {
    Take(Queue(rows, listed) + OldestFirst(Filter(IsRetry(rows), listed)), budget)
  }

  function Queue(rows: Rows, listed: seq<Recording>): seq<Recording> {
    OldestFirst(Filter(IsFresh(rows), listed))
  }

  /** A first attempt inserts its row unless one is there; a retry rewrites the row's pull. */
  function HoldOne(rows: Rows, r: Recording, retry: bool, a: Attempt): Rows {
    if !a.landed then rows
    else if retry then (if r.id in rows then rows[r.id := Held(rows[r.id].startedAt, a.pullFailed)] else rows)
    else if r.id in rows then rows
    else rows[r.id := Held(r.startedAt, a.pullFailed)]
  }

  /** The rows after the first `|due|` attempts of a tick that began at `start`. */
  function Drain(start: Rows, due: seq<Recording>, attempts: nat -> Attempt): Rows {
    if due == [] then start
    else
      var n := |due| - 1;
      HoldOne(Drain(start, due[..n], attempts), due[n], IsRetry(start)(due[n]), attempts(n))
  }

  // ------------------------------------------------------------------ pulls

  predicate DistinctIds(due: seq<Recording>) {
    forall i, j | 0 <= i < j < |due| :: due[i].id != due[j].id
  }

  /** A recording a lane takes up: with no row, or with one whose last pull failed. */
  predicate TakenUp(rows: Rows, r: Recording) {
    r.id in rows ==> rows[r.id].pullFailed
  }

  /** What the attempts of a due list leave: each landed one's row says how its own pull ended,
      and every other row, as it was. */
  lemma {:induction false} DrainLeavesPulls(start: Rows, due: seq<Recording>, attempts: nat -> Attempt)
    requires DistinctIds(due) && forall i | 0 <= i < |due| :: TakenUp(start, due[i])
    ensures forall i | 0 <= i < |due| && attempts(i).landed ::
              due[i].id in Drain(start, due, attempts)
              && Drain(start, due, attempts)[due[i].id].pullFailed == attempts(i).pullFailed
    ensures forall i | 0 <= i < |due| && !attempts(i).landed ::
              (due[i].id in Drain(start, due, attempts) <==> due[i].id in start)
              && (due[i].id in start ==> Drain(start, due, attempts)[due[i].id] == start[due[i].id])
    ensures forall id | (forall i | 0 <= i < |due| :: due[i].id != id) ::
              (id in Drain(start, due, attempts) <==> id in start)
              && (id in start ==> Drain(start, due, attempts)[id] == start[id])
  {
    if due != [] {
      var n := |due| - 1;
      DrainLeavesPulls(start, due[..n], attempts);
      var before, after := Drain(start, due[..n], attempts), Drain(start, due, attempts);
      assert forall i | 0 <= i < n :: due[..n][i] == due[i] && due[i].id != due[n].id;
      assert due[n].id in before <==> due[n].id in start;
      assert due[n].id in start ==> before[due[n].id] == start[due[n].id];
      assert forall id | id != due[n].id :: (id in after <==> id in before) && (id in before ==> after[id] == before[id]);
    }
  }

  lemma {:induction false} FilterKeepsIds(keep: Recording -> bool, s: seq<Recording>)
    requires DistinctIds(s)
    ensures DistinctIds(Filter(keep, s))
  {
    if s != [] {
      var front, last := s[..|s| - 1], s[|s| - 1];
      FilterKeepsIds(keep, front);
      var kept := Filter(keep, front);
      forall i | 0 <= i < |kept| ensures kept[i].id != last.id {
        FilterKeeps(keep, front, kept[i]);
        var k :| 0 <= k < |front| && front[k] == kept[i];
        assert s[k] == kept[i];
      }
    }
  }

  lemma SortKeepsIds(s: seq<Recording>)
    requires DistinctIds(s)
    ensures DistinctIds(OldestFirst(s))
  {
    var sorted := OldestFirst(s);
    assert NoDuplicates(s);
    SortKeepsDistinct(OlderFirst(), s);
    forall i, j | 0 <= i < j < |sorted| ensures sorted[i].id != sorted[j].id {
      InSorted(OlderFirst(), s, sorted[i]);
      InSorted(OlderFirst(), s, sorted[j]);
    }
  }

  /** Every due recording was listed, is taken up, and comes once. */
  lemma DueIsTakenUp(rows: Rows, listed: seq<Recording>, budget: nat)
    requires DistinctIds(listed)
    ensures DistinctIds(Due(rows, listed, budget))
    ensures forall i | 0 <= i < |Due(rows, listed, budget)| ::
              Due(rows, listed, budget)[i] in listed && TakenUp(rows, Due(rows, listed, budget)[i])
    ensures |Due(rows, listed, budget)| <= budget
  {
    var queue, retries := Queue(rows, listed), OldestFirst(Filter(IsRetry(rows), listed));
    var due := Due(rows, listed, budget);
    FilterKeepsIds(IsFresh(rows), listed);
    FilterKeepsIds(IsRetry(rows), listed);
    SortKeepsIds(Filter(IsFresh(rows), listed));
    SortKeepsIds(Filter(IsRetry(rows), listed));
    forall r ensures r in queue ==> r in listed && r.id !in rows
             ensures r in retries ==> r in listed && r.id in rows && rows[r.id].pullFailed
    {
      QueueMembers(rows, listed, r);
      if r in retries { RetriesAreRetries(rows, listed, r); }
    }
    forall i, j | 0 <= i < |queue| && 0 <= j < |retries| ensures queue[i].id != retries[j].id {
      assert queue[i] in queue && retries[j] in retries;
    }
    assert DistinctIds(queue + retries);
    forall i | 0 <= i < |due| ensures due[i] == (queue + retries)[i] {
      assert due + (queue + retries)[|due|..] == queue + retries;
    }
  }

  /** With slots for all, what is due is exactly what is listed and has no row, or a row whose
      last pull failed; a recording whose last pull was good is due at no budget. */
  lemma DueIff(rows: Rows, listed: seq<Recording>, budget: nat, r: Recording)
    requires DistinctIds(listed)
    ensures r in Due(rows, listed, budget) ==> r in listed && TakenUp(rows, r)
    ensures |Filter(IsFresh(rows), listed)| + |Filter(IsRetry(rows), listed)| <= budget && r in listed && TakenUp(rows, r) ==>
              r in Due(rows, listed, budget)
  {
    var queue, unread, retries := Queue(rows, listed), Filter(IsFresh(rows), listed), Filter(IsRetry(rows), listed);
    DueIsTakenUp(rows, listed, budget);
    if |unread| + |retries| <= budget && r in listed && TakenUp(rows, r) {
      assert Due(rows, listed, budget) == queue + OldestFirst(retries);
      QueueMembers(rows, listed, r);
      FilterKeeps(IsRetry(rows), listed, r);
      InSorted(OlderFirst(), retries, r);
    }
  }

  /** The two-tick law. A recording whose attempt landed is due to a later tick that lists it
      again exactly when its pull failed, given the slots; one whose pull was good is due to
      none. */
  lemma RetriedIff(rows: Rows, listed: seq<Recording>, budget: nat, attempts: nat -> Attempt,
                   listed': seq<Recording>, budget': nat, i: nat)
    requires DistinctIds(listed) && DistinctIds(listed')
    requires i < |Due(rows, listed, budget)| && attempts(i).landed && Due(rows, listed, budget)[i] in listed'
    ensures var r := Due(rows, listed, budget)[i];
            var rows' := Drain(rows, Due(rows, listed, budget), attempts);
            && (!attempts(i).pullFailed ==> r !in Due(rows', listed', budget'))
            && (attempts(i).pullFailed && |Filter(IsFresh(rows'), listed')| + |Filter(IsRetry(rows'), listed')| <= budget' ==>
                r in Due(rows', listed', budget'))
  {
    var due := Due(rows, listed, budget);
    var rows' := Drain(rows, due, attempts);
    DueIsTakenUp(rows, listed, budget);
    DrainLeavesPulls(rows, due, attempts);
    DueIff(rows', listed', budget', due[i]);
  }

  // ------------------------------------------------------------- one tick

  /** A complete listing: exactly the recordings not dropped, each once. */
  ghost predicate CompleteListing(listed: seq<Recording>, source: set<Recording>, w: Option<int>, provider: Provider) {
    && NoDuplicates(listed)
    && (forall r :: r in listed <==> r in source && !Dropped(r.startedAt, w, provider))
  }

  /** A listing as the adapters return it, cut at their page cap or not: some of the recordings
      not dropped, each once. */
  ghost predicate SoundListing(listed: seq<Recording>, source: set<Recording>, w: Option<int>, provider: Provider) {
    && NoDuplicates(listed)
    && (forall r | r in listed :: r in source && !Dropped(r.startedAt, w, provider))
  }

  /** Ids name recordings, and held rows carry the recording's own start. */
  ghost predicate Consistent(source: set<Recording>, rows: Rows) {
    && (forall a, b | a in source && b in source && a.id == b.id :: a == b)
    && (forall r | r in source && r.id in rows :: rows[r.id].startedAt == r.startedAt)
  }

  /** Everything a listing would leave out is already held. */
  ghost predicate Safe(source: set<Recording>, rows: Rows, w: Option<int>, provider: Provider) {
    forall r | r in source && Dropped(r.startedAt, w, provider) :: r.id in rows
  }

  /** Fresh recording `i` of the queue was attempted and its row stored. */
  predicate Landed(budget: nat, attempts: nat -> Attempt, i: nat) {
    i < budget && attempts(i).landed
  }

  /** Some recording left unheld would be dropped by the start of one that landed. */
  ghost predicate Overtaken(queue: seq<Recording>, budget: nat, attempts: nat -> Attempt, provider: Provider) {
    exists i, j | 0 <= i < |queue| && 0 <= j < |queue| ::
      !Landed(budget, attempts, i) && Landed(budget, attempts, j)
      && Dropped(queue[i].startedAt, queue[j].startedAt, provider)
  }

  lemma OlderFirstIsPreorder()
    ensures TotalPreorder(OlderFirst())
  {
  }

  lemma QueueMembers(rows: Rows, listed: seq<Recording>, r: Recording)
    ensures r in Queue(rows, listed) <==> r in listed && r.id !in rows
  {
    InSorted(OlderFirst(), Filter(IsFresh(rows), listed), r);
    FilterKeeps(IsFresh(rows), listed, r);
  }

  lemma {:induction false} FilterKeepsDistinct(keep: Recording -> bool, s: seq<Recording>)
    requires NoDuplicates(s)
    ensures NoDuplicates(Filter(keep, s))
  {
    if s != [] {
      var front := s[..|s| - 1];
      FilterKeepsDistinct(keep, front);
      FilterKeeps(keep, front, s[|s| - 1]);
    }
  }

  lemma QueueIsDistinct(rows: Rows, listed: seq<Recording>)
    requires NoDuplicates(listed)
    ensures NoDuplicates(Queue(rows, listed))
  {
    FilterKeepsDistinct(IsFresh(rows), listed);
    SortKeepsDistinct(OlderFirst(), Filter(IsFresh(rows), listed));
  }

  lemma QueueIsSorted(rows: Rows, listed: seq<Recording>)
    ensures forall i, j | 0 <= i < j < |Queue(rows, listed)| ::
              StartKey(Queue(rows, listed)[i]) <= StartKey(Queue(rows, listed)[j])
  {
    OlderFirstIsPreorder();
    SortSorts(OlderFirst(), Filter(IsFresh(rows), listed));
    forall i, j | 0 <= i < j < |Queue(rows, listed)|
      ensures StartKey(Queue(rows, listed)[i]) <= StartKey(Queue(rows, listed)[j])
    {
      assert OlderFirst()(Queue(rows, listed)[i], Queue(rows, listed)[j]);
    }
  }

  /** A recording whose start is not known counts as the oldest there can be. */
  lemma OldestFirstMeans(rows: Rows, listed: seq<Recording>, i: nat, j: nat)
    requires i < j < |Queue(rows, listed)|
    ensures var a, b := Queue(rows, listed)[i].startedAt, Queue(rows, listed)[j].startedAt;
            (match a case None => 0 case Some(t) => t) <= (match b case None => 0 case Some(t) => t)
  {
    QueueIsSorted(rows, listed);
  }

  /** No row is lost or restamped by attempts; a new row is a landed first attempt's. */
  lemma {:induction false} DrainHolds(start: Rows, due: seq<Recording>, attempts: nat -> Attempt)
    ensures forall id | id in start ::
              id in Drain(start, due, attempts) && Drain(start, due, attempts)[id].startedAt == start[id].startedAt
    ensures forall i | 0 <= i < |due| && attempts(i).landed :: due[i].id in Drain(start, due, attempts)
    ensures forall id | id in Drain(start, due, attempts) && id !in start ::
              exists i | 0 <= i < |due| :: attempts(i).landed && due[i].id == id
                                           && Drain(start, due, attempts)[id].startedAt == due[i].startedAt
  {
    if due != [] {
      var n := |due| - 1;
      DrainHolds(start, due[..n], attempts);
      var before := Drain(start, due[..n], attempts);
      var after := Drain(start, due, attempts);
      forall i | 0 <= i < |due| && attempts(i).landed ensures due[i].id in after {
        if i < n { assert due[..n][i] == due[i]; }
      }
      forall id | id in after && id !in start
        ensures exists i | 0 <= i < |due| :: attempts(i).landed && due[i].id == id && after[id].startedAt == due[i].startedAt
      {
        if id in before {
          var i :| 0 <= i < n && attempts(i).landed && due[..n][i].id == id && before[id].startedAt == due[..n][i].startedAt;
          assert due[i].id == id && after[id].startedAt == due[i].startedAt;
        } else {
          assert due[n].id == id && after[id].startedAt == due[n].startedAt;
        }
      }
    }
  }

  /** The due order: the queue first, then recordings that already have a row. */
  lemma DueAt(rows: Rows, listed: seq<Recording>, budget: nat, i: nat)
    requires i < |Due(rows, listed, budget)|
    ensures var due, queue := Due(rows, listed, budget), Queue(rows, listed);
            && due[i] in listed && i < budget
            && (if i < |queue| then due[i] == queue[i] else due[i].id in rows)
  {
    var due, queue := Due(rows, listed, budget), Queue(rows, listed);
    var retries := OldestFirst(Filter(IsRetry(rows), listed));
    assert due[i] == (queue + retries)[i] by { assert due + (queue + retries)[|due|..] == queue + retries; }
    if i < |queue| {
      QueueMembers(rows, listed, due[i]);
    } else {
      InSorted(OlderFirst(), Filter(IsRetry(rows), listed), due[i]);
      FilterKeeps(IsRetry(rows), listed, due[i]);
    }
  }

  lemma RetriesAreRetries(rows: Rows, listed: seq<Recording>, r: Recording)
    requires r in OldestFirst(Filter(IsRetry(rows), listed))
    ensures r in listed && IsRetry(rows)(r)
  {
    InSorted(OlderFirst(), Filter(IsRetry(rows), listed), r);
    FilterKeeps(IsRetry(rows), listed, r);
  }

  /** A row that a tick adds is that of a landed recording of the queue. */
  lemma NewRow(rows: Rows, listed: seq<Recording>, budget: nat, attempts: nat -> Attempt, id: string) returns (i: nat)
    requires id in Drain(rows, Due(rows, listed, budget), attempts) && id !in rows
    ensures i < |Queue(rows, listed)| && Landed(budget, attempts, i) && Queue(rows, listed)[i].id == id
    ensures Drain(rows, Due(rows, listed, budget), attempts)[id].startedAt == Queue(rows, listed)[i].startedAt
  {
    var due := Due(rows, listed, budget);
    var rows' := Drain(rows, due, attempts);
    DrainHolds(rows, due, attempts);
    i :| 0 <= i < |due| && attempts(i).landed && due[i].id == id && rows'[id].startedAt == due[i].startedAt;
    DueAt(rows, listed, budget, i);
  }

  /** A recording of the queue is held after the tick exactly if it landed. */
  lemma HeldIff(source: set<Recording>, rows: Rows, listed: seq<Recording>, budget: nat, attempts: nat -> Attempt, i: nat)
    requires Consistent(source, rows) && NoDuplicates(listed) && (forall r | r in listed :: r in source)
    requires i < |Queue(rows, listed)|
    ensures Queue(rows, listed)[i].id in Drain(rows, Due(rows, listed, budget), attempts) <==> Landed(budget, attempts, i)
  {
    var queue, due := Queue(rows, listed), Due(rows, listed, budget);
    QueueMembers(rows, listed, queue[i]);
    if queue[i].id in Drain(rows, due, attempts) {
      var k := NewRow(rows, listed, budget, attempts, queue[i].id);
      QueueMembers(rows, listed, queue[k]);
      QueueIsDistinct(rows, listed);
      assert queue[k] == queue[i];
    }
    if Landed(budget, attempts, i) {
      DrainHolds(rows, due, attempts);
      DueAt(rows, listed, budget, i);
    }
  }

  /** After a tick the rows hold exactly what they held and the queue's landed recordings. */
  lemma TickHolds(source: set<Recording>, rows: Rows, listed: seq<Recording>, budget: nat, attempts: nat -> Attempt)
    requires Consistent(source, rows) && NoDuplicates(listed)
    requires forall r | r in listed :: r in source
    ensures var rows' := Drain(rows, Due(rows, listed, budget), attempts);
            var queue := Queue(rows, listed);
            && Consistent(source, rows')
            && (forall id | id in rows :: id in rows' && rows'[id].startedAt == rows[id].startedAt)
            && (forall i | 0 <= i < |queue| :: queue[i].id in rows' <==> Landed(budget, attempts, i))
            && (forall id | id in rows' && id !in rows ::
                  exists i | 0 <= i < |queue| :: Landed(budget, attempts, i) && queue[i].id == id
                                                 && rows'[id].startedAt == queue[i].startedAt)
  {
    var due, queue := Due(rows, listed, budget), Queue(rows, listed);
    var rows' := Drain(rows, due, attempts);
    DrainHolds(rows, due, attempts);
    forall id | id in rows' && id !in rows
      ensures exists i | 0 <= i < |queue| :: Landed(budget, attempts, i) && queue[i].id == id
                                             && rows'[id].startedAt == queue[i].startedAt
    {
      var i := NewRow(rows, listed, budget, attempts, id);
    }
    forall i | 0 <= i < |queue| ensures queue[i].id in rows' <==> Landed(budget, attempts, i) {
      HeldIff(source, rows, listed, budget, attempts, i);
    }
    forall r | r in source && r.id in rows' ensures rows'[r.id].startedAt == r.startedAt {
      if r.id !in rows {
        var i := NewRow(rows, listed, budget, attempts, r.id);
        QueueMembers(rows, listed, queue[i]);
      }
    }
  }

  /** Recording `r` was unheld and did not land, listed or not. */
  ghost predicate LeftUnread(source: set<Recording>, rows: Rows, queue: seq<Recording>, budget: nat, attempts: nat -> Attempt, r: Recording) {
    r in source && r.id !in rows && forall i | 0 <= i < |queue| && queue[i] == r :: !Landed(budget, attempts, i)
  }

  /** A landed recording has a start that drops `startedAt`. */
  ghost predicate DropsIt(queue: seq<Recording>, budget: nat, attempts: nat -> Attempt, provider: Provider, startedAt: Option<int>) {
    exists j | 0 <= j < |queue| :: Landed(budget, attempts, j) && Dropped(startedAt, queue[j].startedAt, provider)
  }

  /** Some recording left unread, listed or not, would be dropped by one that landed. */
  ghost predicate Undercut(source: set<Recording>, rows: Rows, queue: seq<Recording>, budget: nat, attempts: nat -> Attempt, provider: Provider) {
    exists r :: LeftUnread(source, rows, queue, budget, attempts, r) && DropsIt(queue, budget, attempts, provider, r.startedAt)
  }

  lemma LeftUnreadIff(source: set<Recording>, rows: Rows, listed: seq<Recording>, budget: nat, attempts: nat -> Attempt, r: Recording)
    requires Consistent(source, rows) && NoDuplicates(listed) && (forall q | q in listed :: q in source) && r in source
    ensures LeftUnread(source, rows, Queue(rows, listed), budget, attempts, r)
            <==> r.id !in Drain(rows, Due(rows, listed, budget), attempts)
  {
    var queue, rows' := Queue(rows, listed), Drain(rows, Due(rows, listed, budget), attempts);
    DrainHolds(rows, Due(rows, listed, budget), attempts);
    if r.id !in rows && r.id in rows' {
      var i := NewRow(rows, listed, budget, attempts, r.id);
      QueueMembers(rows, listed, queue[i]);
      assert queue[i] == r;
    }
    if i :| 0 <= i < |queue| && queue[i] == r && Landed(budget, attempts, i) {
      HeldIff(source, rows, listed, budget, attempts, i);
    }
  }

  /** The start of a landed recording stands on a row after the tick. */
  lemma LandedShows(source: set<Recording>, rows: Rows, listed: seq<Recording>, budget: nat, attempts: nat -> Attempt, j: nat)
    requires Consistent(source, rows) && NoDuplicates(listed) && forall r | r in listed :: r in source
    requires j < |Queue(rows, listed)| && Landed(budget, attempts, j)
    ensures var q, rows' := Queue(rows, listed)[j], Drain(rows, Due(rows, listed, budget), attempts);
            q.id in rows' && rows'[q.id].startedAt == q.startedAt
  {
    TickHolds(source, rows, listed, budget, attempts);
    QueueMembers(rows, listed, Queue(rows, listed)[j]);
  }

  /** From a safe start the new watermark drops an unread recording exactly when a landed one
      does. */
  lemma NewlyDroppedIff(source: set<Recording>, rows: Rows, listed: seq<Recording>, budget: nat, attempts: nat -> Attempt,
                        provider: Provider, w: Option<int>, w': Option<int>, r: Recording)
    requires Consistent(source, rows) && IsWatermark(rows, w) && Safe(source, rows, w, provider)
    requires SoundListing(listed, source, w, provider)
    requires IsWatermark(Drain(rows, Due(rows, listed, budget), attempts), w')
    requires r in source && r.id !in rows
    ensures Dropped(r.startedAt, w', provider) <==> DropsIt(Queue(rows, listed), budget, attempts, provider, r.startedAt)
  {
    var queue, rows' := Queue(rows, listed), Drain(rows, Due(rows, listed, budget), attempts);
    if j :| 0 <= j < |queue| && Landed(budget, attempts, j) && Dropped(r.startedAt, queue[j].startedAt, provider) {
      LandedShows(source, rows, listed, budget, attempts, j);
    }
    if Dropped(r.startedAt, w', provider) {
      var newest :| newest in rows' && rows'[newest].startedAt == w';
      DrainHolds(rows, Due(rows, listed, budget), attempts);
      assert newest !in rows;
      var j := NewRow(rows, listed, budget, attempts, newest);
    }
  }

  /** From a safe start, a tick over any listing, cut short or not, leaves the watermark safe
      exactly when no recording it left unread, listed or not, would be dropped by one it
      landed. */
  lemma TickSafeIff(source: set<Recording>, rows: Rows, listed: seq<Recording>, budget: nat, attempts: nat -> Attempt,
                    provider: Provider, w: Option<int>, w': Option<int>)
    requires Consistent(source, rows) && IsWatermark(rows, w) && Safe(source, rows, w, provider)
    requires SoundListing(listed, source, w, provider)
    requires IsWatermark(Drain(rows, Due(rows, listed, budget), attempts), w')
    ensures Safe(source, Drain(rows, Due(rows, listed, budget), attempts), w', provider)
            <==> !Undercut(source, rows, Queue(rows, listed), budget, attempts, provider)
  {
    forall r | r in source
      ensures r.id !in Drain(rows, Due(rows, listed, budget), attempts)
              <==> LeftUnread(source, rows, Queue(rows, listed), budget, attempts, r)
      ensures r.id !in rows ==>
                (Dropped(r.startedAt, w', provider) <==> DropsIt(Queue(rows, listed), budget, attempts, provider, r.startedAt))
    {
      LeftUnreadIff(source, rows, listed, budget, attempts, r);
      if r.id !in rows { NewlyDroppedIff(source, rows, listed, budget, attempts, provider, w, w', r); }
    }
  }

  /** Over a complete listing every unread recording stands in the queue. */
  lemma UndercutIffOvertaken(source: set<Recording>, rows: Rows, listed: seq<Recording>, budget: nat, attempts: nat -> Attempt,
                             provider: Provider, w: Option<int>)
    requires Consistent(source, rows) && Safe(source, rows, w, provider) && CompleteListing(listed, source, w, provider)
    ensures var queue := Queue(rows, listed);
            Undercut(source, rows, queue, budget, attempts, provider) <==> Overtaken(queue, budget, attempts, provider)
  {
    var queue := Queue(rows, listed);
    if r :| LeftUnread(source, rows, queue, budget, attempts, r) && DropsIt(queue, budget, attempts, provider, r.startedAt) {
      QueueMembers(rows, listed, r);
      var i :| 0 <= i < |queue| && queue[i] == r;
      assert !Landed(budget, attempts, i);
    }
    if i, j :| 0 <= i < |queue| && 0 <= j < |queue| && !Landed(budget, attempts, i) && Landed(budget, attempts, j)
               && Dropped(queue[i].startedAt, queue[j].startedAt, provider) {
      QueueMembers(rows, listed, queue[i]);
      QueueIsDistinct(rows, listed);
      assert LeftUnread(source, rows, queue, budget, attempts, queue[i]);
      assert DropsIt(queue, budget, attempts, provider, queue[i].startedAt);
    }
  }

  /** So over a complete listing the tick is safe exactly when nothing is overtaken. */
  lemma CompleteTickSafeIff(source: set<Recording>, rows: Rows, listed: seq<Recording>, budget: nat, attempts: nat -> Attempt,
                            provider: Provider, w: Option<int>, w': Option<int>)
    requires Consistent(source, rows) && IsWatermark(rows, w) && Safe(source, rows, w, provider)
    requires CompleteListing(listed, source, w, provider)
    requires IsWatermark(Drain(rows, Due(rows, listed, budget), attempts), w')
    ensures Safe(source, Drain(rows, Due(rows, listed, budget), attempts), w', provider)
            <==> !Overtaken(Queue(rows, listed), budget, attempts, provider)
  {
    TickSafeIff(source, rows, listed, budget, attempts, provider, w, w');
    UndercutIffOvertaken(source, rows, listed, budget, attempts, provider, w);
  }

  /** What being overtaken means in the order the tick works: under PostHog's listing, a
      failed attempt followed by a landed one that started strictly later. */
  lemma OvertakenOnPostHogIff(rows: Rows, listed: seq<Recording>, budget: nat, attempts: nat -> Attempt)
    ensures var queue := Queue(rows, listed);
            Overtaken(queue, budget, attempts, PostHog) <==>
            exists i, j | 0 <= i < j < |queue| :: j < budget && !attempts(i).landed && attempts(j).landed
                                                  && queue[i].startedAt.Some? && queue[j].startedAt.Some?
                                                  && queue[i].startedAt.value < queue[j].startedAt.value
  {
    QueueIsSorted(rows, listed);
    var queue := Queue(rows, listed);
    if Overtaken(queue, budget, attempts, PostHog) {
      var i, j :| 0 <= i < |queue| && 0 <= j < |queue| && !Landed(budget, attempts, i) && Landed(budget, attempts, j)
                  && Dropped(queue[i].startedAt, queue[j].startedAt, PostHog);
      assert i < j;
    }
    if i, j :| 0 <= i < j < |queue| && j < budget && !attempts(i).landed && attempts(j).landed
               && queue[i].startedAt.Some? && queue[j].startedAt.Some?
               && queue[i].startedAt.value < queue[j].startedAt.value {
      assert !Landed(budget, attempts, i) && Landed(budget, attempts, j);
    }
  }

  /** The fresh recordings that land are the first of the queue. */
  ghost predicate FailuresAreLast(queue: seq<Recording>, budget: nat, attempts: nat -> Attempt) {
    forall i, j | 0 <= i < j < |queue| && Landed(budget, attempts, j) :: Landed(budget, attempts, i)
  }

  ghost predicate DistinctStarts(source: set<Recording>) {
    forall a, b | a in source && b in source && a != b && a.startedAt.Some? :: a.startedAt != b.startedAt
  }

  /** Failures at the end of the due order are harmless: always for PostHog, and for rrweb
      when no two recordings start at the same instant. */
  lemma LateFailuresAreSafe(source: set<Recording>, rows: Rows, listed: seq<Recording>, budget: nat,
                            attempts: nat -> Attempt, provider: Provider)
    requires forall r | r in listed :: r in source
    requires NoDuplicates(listed)
    requires FailuresAreLast(Queue(rows, listed), budget, attempts)
    requires provider.PostHog? || DistinctStarts(source)
    ensures !Overtaken(Queue(rows, listed), budget, attempts, provider)
  {
    QueueIsSorted(rows, listed);
    QueueIsDistinct(rows, listed);
    var queue := Queue(rows, listed);
    if Overtaken(queue, budget, attempts, provider) {
      var i, j :| 0 <= i < |queue| && 0 <= j < |queue| && !Landed(budget, attempts, i) && Landed(budget, attempts, j)
                  && Dropped(queue[i].startedAt, queue[j].startedAt, provider);
      QueueMembers(rows, listed, queue[i]);
      QueueMembers(rows, listed, queue[j]);
      assert false;
    }
  }

  // ------------------------------------------------------------- whole runs

  ghost function WatermarkOf(rows: Rows): (w: Option<int>)
    ensures IsWatermark(rows, w)
    decreases |rows|
  {
    if rows == map[] then None
    else
      var id :| id in rows;
      var rest := rows - {id};
      var w := WatermarkOf(rest);
      assert forall k | k in rows && k != id :: k in rest && rest[k] == rows[k];
      assert forall k | k in rest :: k in rows;
      if rows[id].startedAt.None? then w
      else if w.None? || w.value <= rows[id].startedAt.value then rows[id].startedAt
      else w
  }

  lemma WatermarkIsUnique(rows: Rows, a: Option<int>, b: Option<int>)
    requires IsWatermark(rows, a) && IsWatermark(rows, b)
    ensures a == b
  {
  }

  datatype World = World(source: set<Recording>, rows: Rows)

  /** A recording appears at the source, or the lane ticks. */
  datatype Event =
    | Arrive(recording: Recording)
    | Tick(listed: seq<Recording>, budget: nat, attempts: nat -> Attempt)

  /** Arrivals are new and not already below the watermark; a tick lists completely and its
      failed first attempts come last. */
  ghost predicate Admissible(s: World, e: Event, provider: Provider) {
    match e
    case Arrive(r) =>
      && (forall q | q in s.source :: q.id != r.id) && r.id !in s.rows
      && !Dropped(r.startedAt, WatermarkOf(s.rows), provider)
      && (provider.Rrweb? ==> DistinctStarts(s.source + {r}))
    case Tick(listed, budget, attempts) =>
      && CompleteListing(listed, s.source, WatermarkOf(s.rows), provider)
      && FailuresAreLast(Queue(s.rows, listed), budget, attempts)
  }

  ghost function Next(s: World, e: Event): World {
    match e
    case Arrive(r) => s.(source := s.source + {r})
    case Tick(listed, budget, attempts) => s.(rows := Drain(s.rows, Due(s.rows, listed, budget), attempts))
  }

  ghost predicate AdmittedAt(states: seq<World>, events: seq<Event>, provider: Provider, i: nat) {
    i < |events| && i + 1 < |states| && Admissible(states[i], events[i], provider) && states[i + 1] == Next(states[i], events[i])
  }

  ghost predicate Run(states: seq<World>, events: seq<Event>, provider: Provider) {
    && |states| == |events| + 1
    && states[0] == World({}, map[])
    && (forall i: nat | i < |events| :: AdmittedAt(states, events, provider, i))
  }

  ghost predicate Good(s: World, provider: Provider) {
    && Consistent(s.source, s.rows)
    && Safe(s.source, s.rows, WatermarkOf(s.rows), provider)
    && (provider.Rrweb? ==> DistinctStarts(s.source))
  }

  lemma TickKeepsGood(s: World, e: Event, provider: Provider)
    requires Good(s, provider) && e.Tick? && Admissible(s, e, provider)
    ensures Good(Next(s, e), provider)
  {
    var w := WatermarkOf(s.rows);
    var s' := Next(s, e);
    TickHolds(s.source, s.rows, e.listed, e.budget, e.attempts);
    LateFailuresAreSafe(s.source, s.rows, e.listed, e.budget, e.attempts, provider);
    CompleteTickSafeIff(s.source, s.rows, e.listed, e.budget, e.attempts, provider, w, WatermarkOf(s'.rows));
  }

  /** In every reachable state, everything the next listing would leave out is held. */
  lemma {:induction false} WatermarkSafety(states: seq<World>, events: seq<Event>, provider: Provider, n: nat)
    requires Run(states, events, provider) && n <= |events|
    ensures Good(states[n], provider)
  {
    if n > 0 {
      WatermarkSafety(states, events, provider, n - 1);
      assert AdmittedAt(states, events, provider, n - 1);
      if events[n - 1].Tick? {
        TickKeepsGood(states[n - 1], events[n - 1], provider);
      }
    }
  }

  // ------------------------------------------------------ passed over for good

  /** Unheld, and left out by the next listing. */
  ghost predicate Stranded(s: World, r: Recording, provider: Provider) {
    r in s.source && r.id !in s.rows && Dropped(r.startedAt, WatermarkOf(s.rows), provider)
  }

  /** Anything that can happen: a recording arrives, however old, or the lane ticks over a
      listing, cut short or not, with whatever attempts. */
  ghost predicate CanHappen(s: World, e: Event, provider: Provider) {
    match e
    case Arrive(r) => (forall q | q in s.source :: q.id != r.id) && r.id !in s.rows
    case Tick(listed, _, _) => SoundListing(listed, s.source, WatermarkOf(s.rows), provider)
  }

  ghost predicate HappensAt(states: seq<World>, events: seq<Event>, provider: Provider, i: nat) {
    i < |events| && i + 1 < |states| && CanHappen(states[i], events[i], provider) && states[i + 1] == Next(states[i], events[i])
  }

  /** From any consistent state on. */
  ghost predicate AnyRun(states: seq<World>, events: seq<Event>, provider: Provider) {
    && |states| == |events| + 1
    && Consistent(states[0].source, states[0].rows)
    && (forall i: nat | i < |events| :: HappensAt(states, events, provider, i))
  }

  /** Recording `r` was left unread by a tick that landed one whose start drops it. */
  ghost predicate PassedOver(s: World, e: Event, provider: Provider, r: Recording)
    requires e.Tick?
  {
    var queue := Queue(s.rows, e.listed);
    LeftUnread(s.source, s.rows, queue, e.budget, e.attempts, r) && DropsIt(queue, e.budget, e.attempts, provider, r.startedAt)
  }

  /** What one held start drops, the watermark drops. */
  lemma DroppedByHeld(rows: Rows, id: string, startedAt: Option<int>, provider: Provider)
    requires id in rows && Dropped(startedAt, rows[id].startedAt, provider)
    ensures Dropped(startedAt, WatermarkOf(rows), provider)
  {
  }

  lemma TickStrands(s: World, e: Event, provider: Provider, r: Recording)
    requires Consistent(s.source, s.rows) && e.Tick? && CanHappen(s, e, provider) && PassedOver(s, e, provider, r)
    ensures Stranded(Next(s, e), r, provider)
  {
    var queue, rows' := Queue(s.rows, e.listed), Next(s, e).rows;
    LeftUnreadIff(s.source, s.rows, e.listed, e.budget, e.attempts, r);
    var j :| 0 <= j < |queue| && Landed(e.budget, e.attempts, j) && Dropped(r.startedAt, queue[j].startedAt, provider);
    LandedShows(s.source, s.rows, e.listed, e.budget, e.attempts, j);
    DroppedByHeld(rows', queue[j].id, r.startedAt, provider);
  }

  /** From a safe state, a tick strands exactly the recordings it passes over, over any listing. */
  lemma StrandedIff(s: World, e: Event, provider: Provider, r: Recording)
    requires Good(s, provider) && e.Tick? && CanHappen(s, e, provider)
    ensures Stranded(Next(s, e), r, provider) <==> PassedOver(s, e, provider, r)
  {
    if r in s.source {
      LeftUnreadIff(s.source, s.rows, e.listed, e.budget, e.attempts, r);
      if r.id !in s.rows {
        NewlyDroppedIff(s.source, s.rows, e.listed, e.budget, e.attempts, provider, WatermarkOf(s.rows),
                        WatermarkOf(Next(s, e).rows), r);
      }
    }
  }

  /** Rows only grow and keep their starts, so what was below the watermark stays below it. */
  lemma DroppedStays(rows: Rows, rows': Rows, startedAt: Option<int>, provider: Provider)
    requires forall id | id in rows :: id in rows' && rows'[id].startedAt == rows[id].startedAt
    requires Dropped(startedAt, WatermarkOf(rows), provider)
    ensures Dropped(startedAt, WatermarkOf(rows'), provider)
  {
    var newest :| newest in rows && rows[newest].startedAt == WatermarkOf(rows);
    assert rows'[newest].startedAt == WatermarkOf(rows);
  }

  lemma StrandedStays(s: World, e: Event, provider: Provider, r: Recording)
    requires Consistent(s.source, s.rows) && CanHappen(s, e, provider) && Stranded(s, r, provider)
    ensures Consistent(Next(s, e).source, Next(s, e).rows) && Stranded(Next(s, e), r, provider)
  {
    if e.Tick? {
      var rows' := Next(s, e).rows;
      TickHolds(s.source, s.rows, e.listed, e.budget, e.attempts);
      DroppedStays(s.rows, rows', r.startedAt, provider);
      if r.id in rows' {
        var i := NewRow(s.rows, e.listed, e.budget, e.attempts, r.id);
        QueueMembers(s.rows, e.listed, Queue(s.rows, e.listed)[i]);
        assert false;
      }
    }
  }

  lemma {:induction false} AnyRunConsistent(states: seq<World>, events: seq<Event>, provider: Provider, n: nat)
    requires AnyRun(states, events, provider) && n <= |events|
    ensures Consistent(states[n].source, states[n].rows)
  {
    if n > 0 {
      AnyRunConsistent(states, events, provider, n - 1);
      assert HappensAt(states, events, provider, n - 1);
      var s, e := states[n - 1], events[n - 1];
      if e.Tick? { TickHolds(s.source, s.rows, e.listed, e.budget, e.attempts); }
    }
  }

  lemma AnyRunStep(states: seq<World>, events: seq<Event>, provider: Provider, n: nat)
    requires AnyRun(states, events, provider) && n < |events|
    ensures CanHappen(states[n], events[n], provider) && states[n + 1] == Next(states[n], events[n])
    ensures Consistent(states[n].source, states[n].rows)
  {
    AnyRunConsistent(states, events, provider, n);
    assert HappensAt(states, events, provider, n);
  }

  lemma StrandedNotListed(s: World, e: Event, provider: Provider, r: Recording)
    requires Stranded(s, r, provider) && CanHappen(s, e, provider) && e.Tick?
    ensures r !in e.listed
  {
  }

  lemma {:induction false} StrandedStaysFor(states: seq<World>, events: seq<Event>, provider: Provider, from: nat, n: nat, r: Recording)
    requires AnyRun(states, events, provider) && from <= n <= |events| && Stranded(states[from], r, provider)
    ensures Stranded(states[n], r, provider)
  {
    if n > from {
      StrandedStaysFor(states, events, provider, from, n - 1, r);
      AnyRunStep(states, events, provider, n - 1);
      StrandedStays(states[n - 1], events[n - 1], provider, r);
    }
  }

  /** A stranded recording is stranded for good: whatever arrives and whatever the lane does
      afterwards, it is never held and no listing names it again. */
  lemma StrandedForGood(states: seq<World>, events: seq<Event>, provider: Provider, from: nat, n: nat, r: Recording)
    requires AnyRun(states, events, provider) && from <= n <= |events| && Stranded(states[from], r, provider)
    ensures Stranded(states[n], r, provider)
    ensures n < |events| && events[n].Tick? ==> r !in events[n].listed
  {
    StrandedStaysFor(states, events, provider, from, n, r);
    if n < |events| && events[n].Tick? {
      AnyRunStep(states, events, provider, n);
      StrandedNotListed(states[n], events[n], provider, r);
    }
  }

  ghost predicate PassedOverBy(s: World, e: Event, provider: Provider, r: Recording) {
    e.Tick? && PassedOver(s, e, provider, r)
  }

  lemma PassedOverStrands(states: seq<World>, events: seq<Event>, provider: Provider, tick: nat, r: Recording)
    requires AnyRun(states, events, provider) && tick < |events| && PassedOverBy(states[tick], events[tick], provider, r)
    ensures Stranded(states[tick + 1], r, provider)
  {
    AnyRunStep(states, events, provider, tick);
    TickStrands(states[tick], events[tick], provider, r);
  }

  /** So a narration that fails while one whose start drops it lands is never read, under
      either source, in any run. */
  lemma PassedOverForGood(states: seq<World>, events: seq<Event>, provider: Provider, tick: nat, n: nat, r: Recording)
    requires AnyRun(states, events, provider) && tick < n <= |events| && PassedOverBy(states[tick], events[tick], provider, r)
    ensures Stranded(states[n], r, provider)
    ensures n < |events| && events[n].Tick? ==> r !in events[n].listed
  {
    PassedOverStrands(states, events, provider, tick, r);
    StrandedForGood(states, events, provider, tick + 1, n, r);
  }

  /** It happens to the older of any two recordings of a first tick, under either source. */
  lemma EarlyFailureStrands(a: Recording, b: Recording, attempts: nat -> Attempt, provider: Provider)
    requires a.id != b.id && a.startedAt.Some? && b.startedAt.Some? && a.startedAt.value < b.startedAt.value
    requires !attempts(0).landed && attempts(1).landed
    ensures var s, tick := World({a, b}, map[]), Tick([a, b], 2, attempts);
            && Good(s, provider) && CanHappen(s, tick, provider) && Stranded(Next(s, tick), a, provider)
  {
    var s, tick := World({a, b}, map[]), Tick([a, b], 2, attempts);
    var queue := Queue(map[], [a, b]);
    TwoInOrder(a, b);
    assert queue == [a, b] && !Landed(2, attempts, 0) && Landed(2, attempts, 1);
    assert WatermarkOf(map[]) == None;
    assert DropsIt(queue, 2, attempts, provider, a.startedAt);
    TickStrands(s, tick, provider, a);
  }

  /** It happens to the older of two recordings when the listing is cut before it, even if every
      attempt lands. */
  lemma CutListingStrands(a: Recording, b: Recording, attempts: nat -> Attempt, provider: Provider)
    requires a.id != b.id && a.startedAt.Some? && b.startedAt.Some? && a.startedAt.value < b.startedAt.value
    requires attempts(0).landed
    ensures var s, tick := World({a, b}, map[]), Tick([b], 1, attempts);
            && Good(s, provider) && CanHappen(s, tick, provider) && Stranded(Next(s, tick), a, provider)
  {
    var s, tick := World({a, b}, map[]), Tick([b], 1, attempts);
    assert Filter(IsFresh(map[]), [b]) == [b] by { assert [b][..0] == []; }
    assert Queue(map[], [b]) == [b] by { assert [b][..0] == []; }
    assert WatermarkOf(map[]) == None && Landed(1, attempts, 0);
    assert DropsIt([b], 1, attempts, provider, a.startedAt);
    TickStrands(s, tick, provider, a);
  }

  lemma TieUnder(a: Recording, b: Recording, attempts: nat -> Attempt, provider: Provider)
    requires a.id != b.id && a.startedAt.Some? && a.startedAt == b.startedAt && attempts(0).landed
    ensures var rows := Drain(map[], Due(map[], [a, b], 1), attempts);
            Safe({a, b}, rows, WatermarkOf(rows), provider) <==> provider.PostHog?
  {
    var rows := Drain(map[], Due(map[], [a, b], 1), attempts);
    var queue := Queue(map[], [a, b]);
    TwoInOrder(a, b);
    assert Landed(1, attempts, 0) && !Landed(1, attempts, 1);
    assert Dropped(queue[1].startedAt, queue[0].startedAt, Rrweb);
    CompleteTickSafeIff({a, b}, map[], [a, b], 1, attempts, provider, None, WatermarkOf(rows));
  }

  /** Two recordings of one instant with the budget cut between them: a listing that drops the
      instant itself strands the second, one that lists it again does not. */
  lemma TieAtTheCut(a: Recording, b: Recording, attempts: nat -> Attempt)
    requires a.id != b.id && a.startedAt.Some? && a.startedAt == b.startedAt && attempts(0).landed
    ensures var rows := Drain(map[], Due(map[], [a, b], 1), attempts);
            && !Safe({a, b}, rows, WatermarkOf(rows), Rrweb)
            && Safe({a, b}, rows, WatermarkOf(rows), PostHog)
  {
    TieUnder(a, b, attempts, Rrweb);
    TieUnder(a, b, attempts, PostHog);
  }

  lemma TwoInOrder(a: Recording, b: Recording)
    requires a != b && StartKey(a) <= StartKey(b)
    ensures Queue(map[], [a, b]) == [a, b]
  {
    FreshTwo(a, b);
    SortTwo(a, b);
  }

  lemma FreshTwo(a: Recording, b: Recording)
    ensures Filter(IsFresh(map[]), [a, b]) == [a, b]
  {
    assert [a, b][..1] == [a] && [a][..0] == [];
    assert Filter(IsFresh(map[]), [a]) == [a];
  }

  lemma SortTwo(a: Recording, b: Recording)
    requires StartKey(a) <= StartKey(b)
    ensures Sort(OlderFirst(), [a, b]) == [a, b]
  {
    assert [a, b][..1] == [a] && [a][..0] == [];
    assert Sort(OlderFirst(), [a]) == [a];
  }

  // -------------------------------------------------------------- progress

  ghost function Unheld(source: set<Recording>, rows: Rows): set<Recording> {
    set r | r in source && r.id !in rows
  }

  function Min(a: nat, b: nat): nat {
    if a < b then a else b
  }

  lemma {:induction false} DistinctSize(s: seq<Recording>)
    requires NoDuplicates(s)
    ensures |set r | r in s| == |s|
  {
    if s != [] {
      var front := s[..|s| - 1];
      DistinctSize(front);
      assert (set r | r in s) == (set r | r in front) + {s[|s| - 1]};
    }
  }

  /** Every unheld recording is waiting in the queue, once. */
  lemma QueueIsTheBacklog(source: set<Recording>, rows: Rows, listed: seq<Recording>, provider: Provider, w: Option<int>)
    requires Safe(source, rows, w, provider) && CompleteListing(listed, source, w, provider)
    ensures |Queue(rows, listed)| == |Unheld(source, rows)|
  {
    var queue := Queue(rows, listed);
    QueueIsDistinct(rows, listed);
    DistinctSize(queue);
    forall r ensures r in queue <==> r in Unheld(source, rows) {
      QueueMembers(rows, listed, r);
    }
    assert (set r | r in queue) == Unheld(source, rows);
  }

  /** What stays unheld after a tick whose attempts all land is the end of the queue. */
  lemma LeftUnheld(source: set<Recording>, rows: Rows, listed: seq<Recording>, budget: nat, attempts: nat -> Attempt,
                   provider: Provider, w: Option<int>, r: Recording)
    requires Consistent(source, rows) && Safe(source, rows, w, provider)
    requires CompleteListing(listed, source, w, provider)
    requires forall i | 0 <= i < budget :: attempts(i).landed
    ensures r in Unheld(source, Drain(rows, Due(rows, listed, budget), attempts))
            <==> r in Queue(rows, listed)[Min(budget, |Queue(rows, listed)|)..]
  {
    var rows' := Drain(rows, Due(rows, listed, budget), attempts);
    var queue := Queue(rows, listed);
    TickHolds(source, rows, listed, budget, attempts);
    QueueMembers(rows, listed, r);
    QueueIsDistinct(rows, listed);
    Suffix(queue, Min(budget, |queue|), r);
    if r in queue {
      var k :| 0 <= k < |queue| && queue[k] == r;
      assert r.id in rows' <==> Landed(budget, attempts, k);
    } else {
      assert r.id in rows ==> r.id in rows';
    }
  }

  lemma Suffix(s: seq<Recording>, n: nat, r: Recording)
    requires n <= |s|
    ensures r in s[n..] <==> exists k | n <= k < |s| :: s[k] == r
  {
    if k :| n <= k < |s| && s[k] == r { assert s[n..][k - n] == r; }
  }

  /** A tick whose attempts all land holds exactly as many new recordings as the budget or
      the backlog allows. */
  lemma TickProgress(source: set<Recording>, rows: Rows, listed: seq<Recording>, budget: nat, attempts: nat -> Attempt,
                     provider: Provider, w: Option<int>)
    requires Consistent(source, rows) && Safe(source, rows, w, provider)
    requires CompleteListing(listed, source, w, provider)
    requires forall i | 0 <= i < budget :: attempts(i).landed
    ensures |Unheld(source, Drain(rows, Due(rows, listed, budget), attempts))|
            == |Unheld(source, rows)| - Min(budget, |Unheld(source, rows)|)
  {
    var queue := Queue(rows, listed);
    var left := queue[Min(budget, |queue|)..];
    QueueIsTheBacklog(source, rows, listed, provider, w);
    QueueIsDistinct(rows, listed);
    DistinctSize(left);
    forall r ensures r in Unheld(source, Drain(rows, Due(rows, listed, budget), attempts)) <==> r in left {
      LeftUnheld(source, rows, listed, budget, attempts, provider, w, r);
    }
    assert (set r | r in left) == Unheld(source, Drain(rows, Due(rows, listed, budget), attempts));
  }

  /** Retries get only the slots the backlog leaves over: a due recording already has a row
      exactly when it stands past the whole backlog. */
  lemma RetriesGoLast(source: set<Recording>, rows: Rows, listed: seq<Recording>, budget: nat,
                      provider: Provider, w: Option<int>, i: nat)
    requires Safe(source, rows, w, provider) && CompleteListing(listed, source, w, provider)
    requires i < |Due(rows, listed, budget)|
    ensures Due(rows, listed, budget)[i].id in rows <==> i >= |Unheld(source, rows)|
  {
    QueueIsTheBacklog(source, rows, listed, provider, w);
    DueAt(rows, listed, budget, i);
    if i < |Queue(rows, listed)| { QueueMembers(rows, listed, Due(rows, listed, budget)[i]); }
  }

  lemma MinAdds(done: nat, more: nat, backlog: nat)
    ensures backlog - Min(done, backlog) - Min(more, backlog - Min(done, backlog)) == backlog - Min(done + more, backlog)
  {
  }

  /** With no arrivals and no failures, `k` ticks of budget `b` hold the whole backlog exactly
      when `k * b` reaches its size. */
  lemma {:induction false} DrainsInCeil(states: seq<World>, events: seq<Event>, provider: Provider, from: nat, k: nat, b: nat)
    requires Run(states, events, provider) && from + k <= |events|
    requires forall i | from <= i < from + k ::
               events[i].Tick? && events[i].budget == b && forall a | 0 <= a < b :: events[i].attempts(a).landed
    ensures var backlog := |Unheld(states[from].source, states[from].rows)|;
            && states[from + k].source == states[from].source
            && |Unheld(states[from + k].source, states[from + k].rows)| == backlog - Min(k * b, backlog)
            && (Unheld(states[from + k].source, states[from + k].rows) == {} <==> k * b >= backlog)
  {
    if k > 0 {
      DrainsInCeil(states, events, provider, from, k - 1, b);
      assert AdmittedAt(states, events, provider, from + k - 1);
      WatermarkSafety(states, events, provider, from + k - 1);
      var s := states[from + k - 1];
      var e := events[from + k - 1];
      TickProgress(s.source, s.rows, e.listed, b, e.attempts, provider, WatermarkOf(s.rows));
      MinAdds((k - 1) * b, b, |Unheld(states[from].source, states[from].rows)|);
      assert (k - 1) * b + b == k * b;
    }
  }
}
