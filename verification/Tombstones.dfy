/** The audience list: live rows from the server merged with the tombstones of rows a person
    has dropped, so that a drop survives the server's next read. */
module Tombstones {
  import opened Sequences

  datatype View = View(factKind: string, claim: string)

  /** `idOf`: the kind and the claim name a statement. */
  function IdOf(v: View): string {
    v.factKind + ":" + v.claim
  }

  datatype Tomb = Tomb(view: View, id: string, seat: nat)

  datatype Key = LiveKey(factKind: string, at: nat) | DroppedKey(id: string)

  datatype Entry = Live(key: Key, view: View) | Dropped(key: Key, tomb: Tomb)

  function EntryOf(t: Tomb): Entry {
    Dropped(DroppedKey(t.id), t)
  }

  ghost predicate DistinctViews(views: seq<View>) {
    forall i, j | 0 <= i < j < |views| :: IdOf(views[i]) != IdOf(views[j])
  }

  ghost predicate DistinctTombs(tombs: seq<Tomb>) {
    forall i, j | 0 <= i < j < |tombs| :: tombs[i].id != tombs[j].id
  }

  /** A map built in order, so a repeated id keeps the last tombstone. */
  function ById(tombs: seq<Tomb>): map<string, Tomb> {
    if tombs == [] then map[] else ById(tombs[..|tombs| - 1])[tombs[|tombs| - 1].id := tombs[|tombs| - 1]]
  }

  /** The row at `at`: its tombstone if it has one. */
  function Seated(v: View, at: nat, byId: map<string, Tomb>): Entry {
    if IdOf(v) in byId then EntryOf(byId[IdOf(v)]) else Live(LiveKey(v.factKind, at), v)
  }

  function Base(views: seq<View>, byId: map<string, Tomb>): (r: seq<Entry>)
    ensures |r| == |views|
    ensures forall i | 0 <= i < |views| :: r[i] == Seated(views[i], i, byId)
  {
    seq(|views|, i requires 0 <= i < |views| => Seated(views[i], i, byId))
  }

  /** Ids of tombstones whose row the server still sends. */
  function Placed(views: seq<View>, byId: map<string, Tomb>): set<string> {
    set v | v in views && IdOf(v) in byId :: byId[IdOf(v)].id
  }

  function IsUnplaced(placed: set<string>): Tomb -> bool {
    (t: Tomb) => t.id !in placed
  }

  function Unplaced(views: seq<View>, tombs: seq<Tomb>): seq<Tomb> {
    Filter(IsUnplaced(Placed(views, ById(tombs))), tombs)
  }

  /** `splice(min(seat, length), 0, entry)`. */
  function Splice(entries: seq<Entry>, t: Tomb): (r: seq<Entry>)
    ensures |r| == |entries| + 1
  {
    var at := if t.seat < |entries| then t.seat else |entries|;
    entries[..at] + [EntryOf(t)] + entries[at..]
  }

  function SpliceAll(entries: seq<Entry>, tombs: seq<Tomb>): (r: seq<Entry>)
    ensures |r| == |entries| + |tombs|
  {
    if tombs == [] then entries else Splice(SpliceAll(entries, tombs[..|tombs| - 1]), tombs[|tombs| - 1])
  }

  function Merge(views: seq<View>, tombs: seq<Tomb>): seq<Entry> {
    SpliceAll(Base(views, ById(tombs)), Unplaced(views, tombs))
  }

  /** The render pass, as it builds the list in place. */
  method Merged(views: seq<View>, tombs: seq<Tomb>) returns (entries: seq<Entry>)
    ensures entries == Merge(views, tombs)
  {
    var byId: map<string, Tomb> := map[];
    for i := 0 to |tombs|
      invariant byId == ById(tombs[..i])
    {
      assert tombs[..i + 1][..i] == tombs[..i];
      byId := byId[tombs[i].id := tombs[i]];
    }
    assert tombs[..|tombs|] == tombs;

    var placed: set<string> := {};
    entries := [];
    for at := 0 to |views|
      invariant entries == Base(views, byId)[..at]
      invariant placed == Placed(views[..at], byId)
    {
      assert views[..at + 1] == views[..at] + [views[at]];
      if IdOf(views[at]) in byId {
        var tomb := byId[IdOf(views[at])];
        placed := placed + {tomb.id};
        entries := entries + [EntryOf(tomb)];
      } else {
        entries := entries + [Live(LiveKey(views[at].factKind, at), views[at])];
      }
    }
    assert views[..|views|] == views && entries == Base(views, byId);

    var left := Filter(IsUnplaced(placed), tombs);
    ghost var base := entries;
    for i := 0 to |left|
      invariant entries == SpliceAll(base, left[..i])
    {
      assert left[..i + 1][..i] == left[..i];
      var at := if left[i].seat < |entries| then left[i].seat else |entries|;
      entries := entries[..at] + [EntryOf(left[i])] + entries[at..];
    }
    assert left[..|left|] == left;
  }

  // ------------------------------------------------------------ the reducers

  /** A second drop of the same row changes nothing. */
  function Drop(tombs: seq<Tomb>, view: View, seat: nat): seq<Tomb> {
    if exists i | 0 <= i < |tombs| :: tombs[i].id == IdOf(view) then tombs
    else tombs + [Tomb(view, IdOf(view), seat)]
  }

  function HasOtherId(id: string): Tomb -> bool {
    (t: Tomb) => t.id != id
  }

  function Forget(tombs: seq<Tomb>, id: string): seq<Tomb> {
    Filter(HasOtherId(id), tombs)
  }

  /** Every reachable tombstone list has distinct ids, each naming its own view. */
  ghost predicate Reachable(tombs: seq<Tomb>) {
    DistinctTombs(tombs) && forall i | 0 <= i < |tombs| :: tombs[i].id == IdOf(tombs[i].view)
  }

  lemma {:induction false} FilterKeepsReachable(keep: Tomb -> bool, tombs: seq<Tomb>)
    requires Reachable(tombs)
    ensures Reachable(Filter(keep, tombs))
  {
    if tombs != [] {
      var front, last := tombs[..|tombs| - 1], tombs[|tombs| - 1];
      FilterKeepsReachable(keep, front);
      var r := Filter(keep, front);
      forall i | 0 <= i < |r| ensures r[i].id != last.id {
        FilterKeeps(keep, front, r[i]);
        var k :| 0 <= k < |front| && front[k] == r[i];
        assert tombs[k] == front[k];
      }
    }
  }

  /** Distinct ids are kept by every drop and every forget. */
  lemma ReducersKeepReachable(tombs: seq<Tomb>, view: View, seat: nat, id: string)
    requires Reachable(tombs)
    ensures Reachable(Drop(tombs, view, seat)) && Reachable(Forget(tombs, id))
  {
    FilterKeepsReachable(HasOtherId(id), tombs);
  }

  lemma ForgetRemovesOne(tombs: seq<Tomb>, id: string, t: Tomb)
    ensures t in Forget(tombs, id) <==> t in tombs && t.id != id
  {
    FilterKeeps(HasOtherId(id), tombs, t);
  }

  /** An undo right after a first drop restores the list. */
  lemma ForgetUndoesDrop(tombs: seq<Tomb>, view: View, seat: nat)
    requires forall i | 0 <= i < |tombs| :: tombs[i].id != IdOf(view)
    ensures Forget(Drop(tombs, view, seat), IdOf(view)) == tombs
  {
    FilterAppend(HasOtherId(IdOf(view)), tombs, [Tomb(view, IdOf(view), seat)]);
    FilterNothing(HasOtherId(IdOf(view)), [Tomb(view, IdOf(view), seat)]);
    FilterEverything(HasOtherId(IdOf(view)), tombs);
  }

  lemma {:induction false} FilterEverything(keep: Tomb -> bool, tombs: seq<Tomb>)
    requires forall i | 0 <= i < |tombs| :: keep(tombs[i])
    ensures Filter(keep, tombs) == tombs
  {
    if tombs != [] {
      FilterEverything(keep, tombs[..|tombs| - 1]);
      assert tombs == tombs[..|tombs| - 1] + [tombs[|tombs| - 1]];
    }
  }

  // ------------------------------------------------------------ conservation

  /** The live views of a list, in order. */
  function LiveViews(entries: seq<Entry>): seq<View> {
    if entries == [] then []
    else LiveViews(entries[..|entries| - 1])
         + (if entries[|entries| - 1].Live? then [entries[|entries| - 1].view] else [])
  }

  /** How often a tombstone is shown. */
  function Times(t: Tomb, entries: seq<Entry>): nat {
    if entries == [] then 0
    else Times(t, entries[..|entries| - 1]) + (if entries[|entries| - 1] == EntryOf(t) then 1 else 0)
  }

  function HasNoTomb(byId: map<string, Tomb>): View -> bool {
    (v: View) => IdOf(v) !in byId
  }

  lemma {:induction false} LiveViewsAppend(a: seq<Entry>, b: seq<Entry>)
    ensures LiveViews(a + b) == LiveViews(a) + LiveViews(b)
  {
    if b == [] {
      assert a + b == a;
    } else {
      LiveViewsAppend(a, b[..|b| - 1]);
      assert (a + b)[..|a + b| - 1] == a + b[..|b| - 1];
    }
  }

  lemma {:induction false} TimesAppend(t: Tomb, a: seq<Entry>, b: seq<Entry>)
    ensures Times(t, a + b) == Times(t, a) + Times(t, b)
  {
    if b == [] {
      assert a + b == a;
    } else {
      TimesAppend(t, a, b[..|b| - 1]);
      assert (a + b)[..|a + b| - 1] == a + b[..|b| - 1];
    }
  }

  lemma SpliceKeepsLives(entries: seq<Entry>, t: Tomb)
    ensures LiveViews(Splice(entries, t)) == LiveViews(entries)
  {
    var at := if t.seat < |entries| then t.seat else |entries|;
    var a, b := entries[..at], entries[at..];
    LiveViewsAppend(a + [EntryOf(t)], b);
    LiveViewsAppend(a, b);
    assert (a + [EntryOf(t)])[..|a|] == a && a + b == entries;
  }

  lemma SpliceAddsTomb(t: Tomb, entries: seq<Entry>, u: Tomb)
    ensures Times(t, Splice(entries, u)) == Times(t, entries) + (if t == u then 1 else 0)
  {
    var at := if u.seat < |entries| then u.seat else |entries|;
    var a, b := entries[..at], entries[at..];
    TimesAppend(t, a + [EntryOf(u)], b);
    TimesAppend(t, a, [EntryOf(u)]);
    TimesAppend(t, a, b);
    assert a + b == entries && [EntryOf(u)][..0] == [];
  }

  lemma {:induction false} SpliceAllKeepsLives(entries: seq<Entry>, tombs: seq<Tomb>)
    ensures LiveViews(SpliceAll(entries, tombs)) == LiveViews(entries)
  {
    if tombs != [] {
      var front := tombs[..|tombs| - 1];
      SpliceAllKeepsLives(entries, front);
      SpliceKeepsLives(SpliceAll(entries, front), tombs[|tombs| - 1]);
    }
  }

  lemma {:induction false} SpliceAllAddsTombs(t: Tomb, entries: seq<Entry>, tombs: seq<Tomb>)
    requires DistinctTombs(tombs)
    ensures Times(t, SpliceAll(entries, tombs)) == Times(t, entries) + (if t in tombs then 1 else 0)
  {
    if tombs != [] {
      var front, last := tombs[..|tombs| - 1], tombs[|tombs| - 1];
      SpliceAllAddsTombs(t, entries, front);
      SpliceAddsTomb(t, SpliceAll(entries, front), last);
      assert tombs == front + [last];
    }
  }

  lemma {:induction false} BaseLives(views: seq<View>, byId: map<string, Tomb>)
    ensures LiveViews(Base(views, byId)) == Filter(HasNoTomb(byId), views)
  {
    if views != [] {
      BaseLives(views[..|views| - 1], byId);
      assert Base(views, byId)[..|views| - 1] == Base(views[..|views| - 1], byId);
    }
  }

  /** Live order is the server's order: the live rows are exactly the server's rows without a
      tombstone, once each and in order. */
  lemma LiveOrderIsServerOrder(views: seq<View>, tombs: seq<Tomb>)
    ensures LiveViews(Merge(views, tombs)) == Filter(HasNoTomb(ById(tombs)), views)
  {
    SpliceAllKeepsLives(Base(views, ById(tombs)), Unplaced(views, tombs));
    BaseLives(views, ById(tombs));
  }

  lemma {:induction false} ByIdFinds(tombs: seq<Tomb>, id: string)
    requires DistinctTombs(tombs)
    ensures id in ById(tombs) <==> exists i | 0 <= i < |tombs| :: tombs[i].id == id
    ensures id in ById(tombs) ==> ById(tombs)[id] in tombs && ById(tombs)[id].id == id
    ensures forall t | t in tombs && t.id == id :: id in ById(tombs) && ById(tombs)[id] == t
  {
    if tombs != [] {
      ByIdFinds(tombs[..|tombs| - 1], id);
      assert tombs == tombs[..|tombs| - 1] + [tombs[|tombs| - 1]];
    }
  }

  /** The tombstones whose row the server still sends. */
  function Shown(views: seq<View>, byId: map<string, Tomb>): set<Tomb> {
    set v | v in views && IdOf(v) in byId :: byId[IdOf(v)]
  }

  lemma ShownNext(front: seq<View>, last: View, byId: map<string, Tomb>)
    ensures Shown(front + [last], byId) == Shown(front, byId) + (if IdOf(last) in byId then {byId[IdOf(last)]} else {})
  {
    var views := front + [last];
    assert forall v :: v in views <==> v in front || v == last;
  }

  /** Two rows never show the same tombstone. */
  lemma NotShownTwice(front: seq<View>, last: View, tombs: seq<Tomb>)
    requires DistinctViews(front + [last]) && DistinctTombs(tombs) && IdOf(last) in ById(tombs)
    ensures ById(tombs)[IdOf(last)] !in Shown(front, ById(tombs))
  {
    ByIdFinds(tombs, IdOf(last));
    forall v | v in front && IdOf(v) in ById(tombs) ensures ById(tombs)[IdOf(v)] != ById(tombs)[IdOf(last)] {
      ByIdFinds(tombs, IdOf(v));
      var k :| 0 <= k < |front| && front[k] == v;
      assert (front + [last])[k] == v;
      assert (front + [last])[|front|] == last;
    }
  }

  /** What one more row shows. */
  lemma RowShows(t: Tomb, front: seq<View>, last: View, byId: map<string, Tomb>)
    ensures Times(t, Base(front + [last], byId)) ==
            Times(t, Base(front, byId)) + if IdOf(last) in byId && byId[IdOf(last)] == t then 1 else 0
  {
    var longer := Base(front + [last], byId);
    assert longer[..|front|] == Base(front, byId);
    assert longer[|front|] == Seated(last, |front|, byId);
  }

  lemma {:induction false} BaseTombs(t: Tomb, views: seq<View>, tombs: seq<Tomb>)
    requires DistinctViews(views) && DistinctTombs(tombs)
    ensures Times(t, Base(views, ById(tombs))) == if t in Shown(views, ById(tombs)) then 1 else 0
  {
    var byId := ById(tombs);
    if views != [] {
      var front, last := views[..|views| - 1], views[|views| - 1];
      assert views == front + [last];
      BaseTombs(t, front, tombs);
      RowShows(t, front, last, byId);
      ShownNext(front, last, byId);
      if IdOf(last) in byId { NotShownTwice(front, last, tombs); }
    }
  }

  /** A tombstone is shown on its row or left to be spliced, never both. */
  lemma ShownOrLeft(views: seq<View>, tombs: seq<Tomb>, t: Tomb)
    requires DistinctTombs(tombs)
    ensures t in tombs <==> t in Shown(views, ById(tombs)) || t in Unplaced(views, tombs)
    ensures !(t in Shown(views, ById(tombs)) && t in Unplaced(views, tombs))
  {
    var byId := ById(tombs);
    ByIdFinds(tombs, t.id);
    FilterKeeps(IsUnplaced(Placed(views, byId)), tombs, t);
    if t in Shown(views, byId) {
      var v :| v in views && IdOf(v) in byId && byId[IdOf(v)] == t;
      ByIdFinds(tombs, IdOf(v));
      assert t.id in Placed(views, byId);
    }
    if t in tombs && t.id in Placed(views, byId) {
      var v :| v in views && IdOf(v) in byId && byId[IdOf(v)].id == t.id;
      ByIdFinds(tombs, IdOf(v));
      assert byId[IdOf(v)] == t;
    }
  }

  /** No tombstone is lost, none is shown twice and none is made up. */
  lemma EveryTombOnce(views: seq<View>, tombs: seq<Tomb>, t: Tomb)
    requires DistinctViews(views) && Reachable(tombs)
    ensures Times(t, Merge(views, tombs)) == if t in tombs then 1 else 0
  {
    FilterKeepsReachable(IsUnplaced(Placed(views, ById(tombs))), tombs);
    SpliceAllAddsTombs(t, Base(views, ById(tombs)), Unplaced(views, tombs));
    BaseTombs(t, views, tombs);
    ShownOrLeft(views, tombs, t);
  }

  // ------------------------------------------------------------------- seats

  ghost predicate StrictSeats(tombs: seq<Tomb>) {
    forall i, j | 0 <= i < j < |tombs| :: tombs[i].seat < tombs[j].seat
  }

  /** Where the `k`-th unplaced tombstone ends, when seats strictly increase. */
  function FinalSeat(base: nat, tombs: seq<Tomb>, k: nat): nat
    requires k < |tombs|
  {
    if tombs[k].seat < base + k then tombs[k].seat else base + k
  }

  /** With strictly increasing seats the `k`-th unplaced tombstone ends at its own seat or, if
      that seat lies past everything placed before it, right after all of it; later splices
      never move it. */
  lemma {:induction false} SeatsHold(entries: seq<Entry>, tombs: seq<Tomb>, k: nat)
    requires StrictSeats(tombs) && k < |tombs|
    ensures SpliceAll(entries, tombs)[FinalSeat(|entries|, tombs, k)] == EntryOf(tombs[k])
    decreases |tombs|
  {
    var front, last := tombs[..|tombs| - 1], tombs[|tombs| - 1];
    if k < |front| {
      SeatsHold(entries, front, k);
      assert front[k] == tombs[k] && tombs[k].seat < last.seat;
    }
  }

  /** A tombstone in two places is there twice. */
  lemma TimesAtTwo(t: Tomb, entries: seq<Entry>, i: nat, j: nat)
    requires i < j < |entries| && entries[i] == entries[j] == EntryOf(t)
    ensures Times(t, entries) >= 2
  {
    var a, b := entries[..j], entries[j..];
    TimesAtOne(t, a, i);
    TimesAtOne(t, b, 0);
    TimesAppend(t, a, b);
    assert a + b == entries;
  }

  lemma TimesAtOne(t: Tomb, entries: seq<Entry>, i: nat)
    requires i < |entries| && entries[i] == EntryOf(t)
    ensures Times(t, entries) >= 1
  {
    var a, b := entries[..i + 1], entries[i + 1..];
    assert Times(t, a) >= 1;
    TimesAppend(t, a, b);
    assert a + b == entries;
  }

  /** Where the `k`-th unplaced tombstone ends in the finished list. */
  lemma SeatInMerge(views: seq<View>, tombs: seq<Tomb>, k: nat)
    requires StrictSeats(Unplaced(views, tombs)) && k < |Unplaced(views, tombs)|
    ensures |Merge(views, tombs)| == |views| + |Unplaced(views, tombs)|
    ensures Merge(views, tombs)[FinalSeat(|views|, Unplaced(views, tombs), k)] == EntryOf(Unplaced(views, tombs)[k])
  {
    SeatsHold(Base(views, ById(tombs)), Unplaced(views, tombs), k);
  }

  /** A tombstone the server no longer sends is at its own seat exactly when that seat is at
      most the number of rows and unplaced tombstones ahead of it. */
  lemma OwnSeatIff(views: seq<View>, tombs: seq<Tomb>, k: nat)
    requires DistinctViews(views) && Reachable(tombs)
    requires StrictSeats(Unplaced(views, tombs)) && k < |Unplaced(views, tombs)|
    ensures var t, list := Unplaced(views, tombs)[k], Merge(views, tombs);
            t.seat < |list| && list[t.seat] == EntryOf(t) <==> t.seat <= |views| + k
  {
    var t, list := Unplaced(views, tombs)[k], Merge(views, tombs);
    SeatInMerge(views, tombs, k);
    if t.seat > |views| + k && t.seat < |list| && list[t.seat] == EntryOf(t) {
      TimesAtTwo(t, list, |views| + k, t.seat);
      EveryTombOnce(views, tombs, t);
      assert false;
    }
  }

  /** "Within the finished list" is not enough: two tombstones on one row, with seats 2 and 3
      of a finished list of three, leave the first one a seat early. */
  lemma SeatInsideListMayMove()
    ensures var t := [Tomb(View("a", "x"), "a:x", 2), Tomb(View("b", "y"), "b:y", 3)];
            var list := SpliceAll([Live(LiveKey("c", 0), View("c", "z"))], t);
            StrictSeats(t) && |list| == 3 && t[0].seat < |list| && list[1] == EntryOf(t[0]) && list[2] == EntryOf(t[1])
  {
    var t := [Tomb(View("a", "x"), "a:x", 2), Tomb(View("b", "y"), "b:y", 3)];
    SeatsHold([Live(LiveKey("c", 0), View("c", "z"))], t, 0);
    SeatsHold([Live(LiveKey("c", 0), View("c", "z"))], t, 1);
  }

  // ---------------------------------------------------------- drop stability

  function Without<T>(s: seq<T>, p: nat): seq<T>
    requires p < |s|
  {
    s[..p] + s[p + 1..]
  }

  /** The seat number in a live key, which moves with the server's list, is left out. */
  function Unkeyed(entries: seq<Entry>): (r: seq<Entry>)
    ensures |r| == |entries|
  {
    seq(|entries|, i requires 0 <= i < |entries| =>
      if entries[i].Live? then Live(LiveKey(entries[i].view.factKind, 0), entries[i].view) else entries[i])
  }

  lemma {:induction false} UnkeyedSplices(entries: seq<Entry>, tombs: seq<Tomb>)
    ensures Unkeyed(SpliceAll(entries, tombs)) == SpliceAll(Unkeyed(entries), tombs)
  {
    if tombs != [] {
      UnkeyedSplices(entries, tombs[..|tombs| - 1]);
    }
  }

  /** Where the entry at `p` of a list of `n` stands after the splices. */
  function Carried(p: nat, n: nat, tombs: seq<Tomb>): (r: nat)
    requires p < n
    ensures p <= r < n + |tombs|
  {
    if tombs == [] then p
    else
      var r := Carried(p, n, tombs[..|tombs| - 1]);
      if tombs[|tombs| - 1].seat <= r then r + 1 else r
  }

  /** No spliced tombstone stands behind index `i`. */
  ghost predicate NoneBehind(list: seq<Entry>, i: nat, tombs: seq<Tomb>) {
    forall j | i < j < |list| :: list[j].Dropped? ==> list[j].tomb !in tombs
  }

  lemma {:induction false} CarriedHolds(entries: seq<Entry>, p: nat, tombs: seq<Tomb>)
    requires p < |entries|
    ensures SpliceAll(entries, tombs)[Carried(p, |entries|, tombs)] == entries[p]
  {
    if tombs != [] {
      CarriedHolds(entries, p, tombs[..|tombs| - 1]);
    }
  }

  /** Every live slot of the finished list was carried there from the server's list. */
  lemma {:induction false} LiveComesFrom(entries: seq<Entry>, tombs: seq<Tomb>, i: nat) returns (p: nat)
    requires i < |entries| + |tombs| && SpliceAll(entries, tombs)[i].Live?
    ensures p < |entries| && Carried(p, |entries|, tombs) == i && entries[p] == SpliceAll(entries, tombs)[i]
  {
    if tombs == [] {
      p := i;
    } else {
      var front, t := tombs[..|tombs| - 1], tombs[|tombs| - 1];
      var before := SpliceAll(entries, front);
      var at := if t.seat < |before| then t.seat else |before|;
      p := LiveComesFrom(entries, front, if i < at then i else i - 1);
    }
  }

  lemma TakeOutSplice(before: seq<Entry>, r: nat, t: Tomb)
    requires r < |before| && t.seat <= r
    ensures Splice(Without(before, r), t) == Without(Splice(before, t), r + 1)
  {
    var a, b, c := before[..t.seat], before[t.seat..r], before[r + 1..];
    assert Without(before, r)[..t.seat] == a && Without(before, r)[t.seat..] == b + c;
    assert Splice(before, t)[..r + 1] == a + [EntryOf(t)] + b && Splice(before, t)[r + 2..] == c;
  }

  /** The last splice landed ahead of the entry, and the earlier ones had too. */
  lemma NoneBehindBefore(before: seq<Entry>, r: nat, front: seq<Tomb>, t: Tomb)
    requires r < |before| && before[r].Live?
    requires NoneBehind(Splice(before, t), if t.seat <= r then r + 1 else r, front + [t])
    ensures t.seat <= r && NoneBehind(before, r, front)
  {
    var list := Splice(before, t);
    var at := if t.seat < |before| then t.seat else |before|;
    assert list[at] == EntryOf(t) && t in front + [t];
    forall j | r < j < |before| && before[j].Dropped? ensures before[j].tomb !in front {
      assert list[j + 1] == before[j];
    }
  }

  /** With every splice landing ahead of it, an entry can be taken out before the splices or
      after them. */
  lemma {:induction false} TakeOutCommutes(entries: seq<Entry>, p: nat, tombs: seq<Tomb>)
    requires p < |entries| && entries[p].Live?
    requires NoneBehind(SpliceAll(entries, tombs), Carried(p, |entries|, tombs), tombs)
    ensures SpliceAll(Without(entries, p), tombs) == Without(SpliceAll(entries, tombs), Carried(p, |entries|, tombs))
  {
    if tombs != [] {
      var front, t := tombs[..|tombs| - 1], tombs[|tombs| - 1];
      var before, r := SpliceAll(entries, front), Carried(p, |entries|, front);
      CarriedHolds(entries, p, front);
      assert tombs == front + [t];
      NoneBehindBefore(before, r, front, t);
      TakeOutCommutes(entries, p, front);
      TakeOutSplice(before, r, t);
    }
  }

  /** What the drop does to the ids, the rows and the unplaced tombstones. */
  lemma DropFacts(views: seq<View>, tombs: seq<Tomb>, p: nat, seat: nat)
    requires DistinctViews(views) && Reachable(tombs) && p < |views| && IdOf(views[p]) !in ById(tombs)
    ensures var dropped := Tomb(views[p], IdOf(views[p]), seat);
            && Drop(tombs, views[p], seat) == tombs + [dropped]
            && ById(tombs + [dropped]) == ById(tombs)[IdOf(views[p]) := dropped]
            && Unplaced(views, tombs + [dropped]) == Unplaced(views, tombs)
            && Unplaced(Without(views, p), tombs + [dropped]) == Unplaced(views, tombs) + [dropped]
  {
    var v := views[p];
    var dropped := Tomb(v, IdOf(v), seat);
    var after := tombs + [dropped];
    ByIdFinds(tombs, IdOf(v));
    assert after[..|tombs|] == tombs;
    forall id | id in ById(tombs) ensures ById(tombs)[id].id == id { ByIdFinds(tombs, id); }
    PlacedAfterDrop(views, ById(tombs), p, dropped);
    var kept, kept' := IsUnplaced(Placed(views, ById(tombs))), IsUnplaced(Placed(views, ById(after)));
    FilterAgrees(kept, kept', tombs);
    FilterAppend(kept', tombs, [dropped]);
    FilterNothing(kept', [dropped]);
    FilterAppend(kept, tombs, [dropped]);
    FilterEverything(kept, [dropped]);
  }

  ghost predicate Sent(views: seq<View>, id: string) {
    exists k | 0 <= k < |views| :: IdOf(views[k]) == id
  }

  ghost predicate Keyed(byId: map<string, Tomb>) {
    forall id | id in byId :: byId[id].id == id
  }

  lemma PlacedMeans(views: seq<View>, byId: map<string, Tomb>, id: string)
    requires Keyed(byId)
    ensures id in Placed(views, byId) <==> id in byId && Sent(views, id)
  {
    if id in byId && Sent(views, id) {
      var k :| 0 <= k < |views| && IdOf(views[k]) == id;
      assert views[k] in views;
    }
  }

  lemma SentWithout(views: seq<View>, p: nat, id: string)
    requires DistinctViews(views) && p < |views|
    ensures Sent(Without(views, p), id) <==> Sent(views, id) && id != IdOf(views[p])
  {
    if Sent(views, id) && id != IdOf(views[p]) {
      var k :| 0 <= k < |views| && IdOf(views[k]) == id;
      assert Without(views, p)[if k < p then k else k - 1] == views[k];
    }
    if Sent(Without(views, p), id) {
      var k :| 0 <= k < |views| - 1 && IdOf(Without(views, p)[k]) == id;
      assert Without(views, p)[k] == views[if k < p then k else k + 1];
    }
  }

  /** While the server still sends the row its tombstone is placed; afterwards it is not. */
  lemma PlacedAfterDrop(views: seq<View>, byId: map<string, Tomb>, p: nat, dropped: Tomb)
    requires DistinctViews(views) && Keyed(byId) && p < |views| && IdOf(views[p]) !in byId
    requires dropped.id == IdOf(views[p])
    ensures var byId' := byId[IdOf(views[p]) := dropped];
            && Placed(views, byId') == Placed(views, byId) + {dropped.id}
            && Placed(Without(views, p), byId') == Placed(views, byId)
            && dropped.id !in Placed(views, byId)
  {
    var byId' := byId[IdOf(views[p]) := dropped];
    assert Sent(views, dropped.id);
    forall id
      ensures id in Placed(views, byId') <==> id in Placed(views, byId) || id == dropped.id
      ensures id in Placed(Without(views, p), byId') <==> id in Placed(views, byId)
      ensures id in Placed(views, byId) ==> id in byId
    {
      PlacedMeans(views, byId, id);
      PlacedMeans(views, byId', id);
      PlacedMeans(Without(views, p), byId', id);
      SentWithout(views, p, id);
    }
  }

  lemma {:induction false} FilterAgrees(keep: Tomb -> bool, keep': Tomb -> bool, tombs: seq<Tomb>)
    requires forall i | 0 <= i < |tombs| :: keep(tombs[i]) == keep'(tombs[i])
    ensures Filter(keep, tombs) == Filter(keep', tombs)
  {
    if tombs != [] {
      FilterAgrees(keep, keep', tombs[..|tombs| - 1]);
    }
  }

  /** The row at index `i` of the merged list is live: where it sits in the server's list. */
  lemma LiveSlot(views: seq<View>, tombs: seq<Tomb>, i: nat) returns (p: nat)
    requires i < |Merge(views, tombs)| && Merge(views, tombs)[i].Live?
    ensures p < |views| && IdOf(views[p]) !in ById(tombs)
    ensures Merge(views, tombs)[i] == Live(LiveKey(views[p].factKind, p), views[p])
    ensures Carried(p, |views|, Unplaced(views, tombs)) == i
  {
    p := LiveComesFrom(Base(views, ById(tombs)), Unplaced(views, tombs), i);
  }

  lemma {:induction false} ReplaceCommutes(entries: seq<Entry>, p: nat, e: Entry, tombs: seq<Tomb>)
    requires p < |entries|
    ensures SpliceAll(entries[p := e], tombs) == SpliceAll(entries, tombs)[Carried(p, |entries|, tombs) := e]
  {
    if tombs != [] {
      ReplaceCommutes(entries, p, e, tombs[..|tombs| - 1]);
    }
  }

  /** Row `p` of the server's list is shown live at index `i`. */
  predicate ShownLiveAt(views: seq<View>, tombs: seq<Tomb>, p: nat, i: nat) {
    && p < |views| && i < |Merge(views, tombs)|
    && Merge(views, tombs)[i] == Live(LiveKey(views[p].factKind, p), views[p])
  }

  /** While the row is sent, dropping it changes its own slot of the server's rows alone. */
  lemma BaseAfterDrop(views: seq<View>, byId: map<string, Tomb>, p: nat, dropped: Tomb)
    requires DistinctViews(views) && p < |views|
    ensures Base(views, byId[IdOf(views[p]) := dropped]) == Base(views, byId)[p := EntryOf(dropped)]
  {
    var byId' := byId[IdOf(views[p]) := dropped];
    forall j | 0 <= j < |views| ensures Base(views, byId')[j] == Base(views, byId)[p := EntryOf(dropped)][j] {
      assert j != p ==> IdOf(views[j]) != IdOf(views[p]);
    }
  }

  /** Dropping a row puts its tombstone in the row's own slot and touches nothing else, for as
      long as the server still sends the row. */
  lemma DropIsInPlace(views: seq<View>, tombs: seq<Tomb>, p: nat, i: nat)
    requires DistinctViews(views) && Reachable(tombs) && ShownLiveAt(views, tombs, p, i)
    ensures Merge(views, Drop(tombs, views[p], i)) ==
            Merge(views, tombs)[i := EntryOf(Tomb(views[p], IdOf(views[p]), i))]
  {
    var q := LiveSlot(views, tombs, i);
    var dropped := Tomb(views[p], IdOf(views[p]), i);
    DropFacts(views, tombs, p, i);
    BaseAfterDrop(views, ById(tombs), p, dropped);
    ReplaceCommutes(Base(views, ById(tombs)), p, EntryOf(dropped), Unplaced(views, tombs));
  }

  /** The server's rows after it stops sending the dropped one. */
  lemma RowsAfterDrop(views: seq<View>, tombs: seq<Tomb>, p: nat, dropped: Tomb)
    requires DistinctViews(views) && p < |views| && dropped.id == IdOf(views[p])
    requires ById(tombs + [dropped]) == ById(tombs)[IdOf(views[p]) := dropped]
    ensures var base, base' := Base(views, ById(tombs)), Base(Without(views, p), ById(tombs + [dropped]));
            Unkeyed(base') == Without(Unkeyed(base), p)
  {
    forall j | 0 <= j < |views| - 1 ensures IdOf(Without(views, p)[j]) != IdOf(views[p]) {
      assert Without(views, p)[j] == views[if j < p then j else j + 1];
    }
  }

  /** The earlier tombstones splice into the shorter list as they did into the longer one. */
  lemma ShorterList(base: seq<Entry>, base': seq<Entry>, p: nat, left: seq<Tomb>)
    requires p < |base| && base[p].Live? && Unkeyed(base') == Without(Unkeyed(base), p)
    requires NoneBehind(SpliceAll(base, left), Carried(p, |base|, left), left)
    ensures Unkeyed(SpliceAll(base', left)) == Without(Unkeyed(SpliceAll(base, left)), Carried(p, |base|, left))
  {
    UnkeyedSplices(base, left);
    UnkeyedSplices(base', left);
    assert NoneBehind(SpliceAll(Unkeyed(base), left), Carried(p, |base|, left), left);
    TakeOutCommutes(Unkeyed(base), p, left);
  }

  /** Drop stability: when every unplaced tombstone stands ahead of the dropped row, the list
      shown after the server stops sending the row is the list shown while it still did, and
      the tombstone stays at its index. Only the seat numbers inside live keys may differ. */
  lemma DropSurvivesRefresh(views: seq<View>, tombs: seq<Tomb>, p: nat, i: nat)
    requires DistinctViews(views) && Reachable(tombs) && ShownLiveAt(views, tombs, p, i)
    requires NoneBehind(Merge(views, tombs), i, Unplaced(views, tombs))
    ensures var after := Drop(tombs, views[p], i);
            && Unkeyed(Merge(Without(views, p), after)) == Unkeyed(Merge(views, after))
            && i < |Merge(Without(views, p), after)|
            && Merge(Without(views, p), after)[i] == EntryOf(Tomb(views[p], IdOf(views[p]), i))
  {
    var q := LiveSlot(views, tombs, i);
    var dropped := Tomb(views[p], IdOf(views[p]), i);
    var left := Unplaced(views, tombs);
    var base, base' := Base(views, ById(tombs)), Base(Without(views, p), ById(tombs + [dropped]));
    DropFacts(views, tombs, p, i);
    DropIsInPlace(views, tombs, p, i);
    RowsAfterDrop(views, tombs, p, dropped);
    ShorterList(base, base', p, left);
    PutBack(Merge(views, tombs), SpliceAll(base', left), i, dropped);
    assert (left + [dropped])[..|left|] == left;
  }

  /** Splicing the new tombstone into the shorter list fills the slot its row left. */
  lemma PutBack(list: seq<Entry>, shorter: seq<Entry>, i: nat, dropped: Tomb)
    requires i < |list| && dropped.seat == i && Unkeyed(shorter) == Without(Unkeyed(list), i)
    ensures Unkeyed(Splice(shorter, dropped)) == Unkeyed(list[i := EntryOf(dropped)])
    ensures Splice(shorter, dropped)[i] == EntryOf(dropped)
  {
    UnkeyedSplices(shorter, [dropped]);
    assert [dropped][..0] == [];
    PutBackExact(Unkeyed(list), i, dropped);
    assert Unkeyed(list[i := EntryOf(dropped)]) == Unkeyed(list)[i := EntryOf(dropped)];
  }

  lemma {:induction false} InSplices(entries: seq<Entry>, tombs: seq<Tomb>, e: Entry)
    requires e.Live?
    ensures e in SpliceAll(entries, tombs) <==> e in entries
  {
    if tombs != [] {
      var front, t := tombs[..|tombs| - 1], tombs[|tombs| - 1];
      InSplices(entries, front, e);
      var before := SpliceAll(entries, front);
      var at := if t.seat < |before| then t.seat else |before|;
      assert before == before[..at] + before[at..];
    }
  }

  /** Every row behind the dropped one already wears a tombstone. */
  ghost predicate NoLiveBehind(views: seq<View>, tombs: seq<Tomb>, p: nat) {
    forall j | p < j < |views| :: IdOf(views[j]) in ById(tombs)
  }

  /** With the keys included the two lists agree exactly when no live row stands behind the
      dropped one in the server's list, because a live key carries the row's seat there. */
  lemma KeysHoldIff(views: seq<View>, tombs: seq<Tomb>, p: nat, i: nat)
    requires DistinctViews(views) && Reachable(tombs) && ShownLiveAt(views, tombs, p, i)
    requires NoneBehind(Merge(views, tombs), i, Unplaced(views, tombs))
    ensures var after := Drop(tombs, views[p], i);
            Merge(Without(views, p), after) == Merge(views, after) <==> NoLiveBehind(views, tombs, p)
  {
    var q := LiveSlot(views, tombs, i);
    var dropped := Tomb(views[p], IdOf(views[p]), i);
    DropFacts(views, tombs, p, i);
    if NoLiveBehind(views, tombs, p) {
      KeysHold(views, tombs, p, i);
    } else {
      var j :| p < j < |views| && IdOf(views[j]) !in ById(tombs);
      KeyMoves(views, tombs, p, dropped, j);
    }
  }

  lemma KeysHold(views: seq<View>, tombs: seq<Tomb>, p: nat, i: nat)
    requires DistinctViews(views) && Reachable(tombs) && ShownLiveAt(views, tombs, p, i)
    requires NoneBehind(Merge(views, tombs), i, Unplaced(views, tombs))
    requires NoLiveBehind(views, tombs, p)
    ensures Merge(Without(views, p), Drop(tombs, views[p], i)) == Merge(views, Drop(tombs, views[p], i))
  {
    var q := LiveSlot(views, tombs, i);
    var dropped := Tomb(views[p], IdOf(views[p]), i);
    var left := Unplaced(views, tombs);
    DropFacts(views, tombs, p, i);
    DropIsInPlace(views, tombs, p, i);
    SameRowsAfterDrop(views, tombs, p, dropped);
    TakeOutCommutes(Base(views, ById(tombs)), p, left);
    PutBackExact(Merge(views, tombs), i, dropped);
    assert (left + [dropped])[..|left|] == left;
  }

  lemma PutBackExact(list: seq<Entry>, i: nat, dropped: Tomb)
    requires i < |list| && dropped.seat == i
    ensures Splice(Without(list, i), dropped) == list[i := EntryOf(dropped)]
  {
  }

  lemma SameRowsAfterDrop(views: seq<View>, tombs: seq<Tomb>, p: nat, dropped: Tomb)
    requires DistinctViews(views) && p < |views| && dropped.id == IdOf(views[p])
    requires ById(tombs + [dropped]) == ById(tombs)[IdOf(views[p]) := dropped]
    requires NoLiveBehind(views, tombs, p)
    ensures Base(Without(views, p), ById(tombs + [dropped])) == Without(Base(views, ById(tombs)), p)
  {
    forall j | 0 <= j < |views| - 1 ensures IdOf(Without(views, p)[j]) != IdOf(views[p]) {
      assert Without(views, p)[j] == views[if j < p then j else j + 1];
    }
  }

  /** A live row behind the dropped one is shown under another key afterwards. */
  lemma KeyMoves(views: seq<View>, tombs: seq<Tomb>, p: nat, dropped: Tomb, j: nat)
    requires DistinctViews(views) && Reachable(tombs) && p < j < |views|
    requires IdOf(views[p]) !in ById(tombs) && IdOf(views[j]) !in ById(tombs)
    requires dropped.id == IdOf(views[p])
    requires ById(tombs + [dropped]) == ById(tombs)[IdOf(views[p]) := dropped]
    ensures Merge(Without(views, p), tombs + [dropped]) != Merge(views, tombs + [dropped])
  {
    var byId := ById(tombs + [dropped]);
    var e := Live(LiveKey(views[j].factKind, j), views[j]);
    assert Base(views, byId)[j] == e;
    InSplices(Base(views, byId), Unplaced(views, tombs + [dropped]), e);
    InSplices(Base(Without(views, p), byId), Unplaced(Without(views, p), tombs + [dropped]), e);
    forall k | 0 <= k < |views| - 1 ensures Base(Without(views, p), byId)[k] != e {
      assert Without(views, p)[k] == views[if k < p then k else k + 1];
    }
    assert e !in Base(Without(views, p), byId);
  }

  /** The premise is needed: an unplaced tombstone behind the dropped row slides past a live
      row when the list shrinks, and the order on screen changes. */
  lemma TombBehindSlides(v: View, w: View, t: Tomb)
    requires IdOf(v) != IdOf(w) && IdOf(v) != t.id && IdOf(w) != t.id && t.seat == 1
    ensures var after := Drop([t], v, 0);
            var d := Tomb(v, IdOf(v), 0);
            && ShownLiveAt([v, w], [t], 0, 0)
            && Merge([v, w], after) == [EntryOf(d), EntryOf(t), Live(LiveKey(w.factKind, 1), w)]
            && Merge([w], after) == [EntryOf(d), Live(LiveKey(w.factKind, 0), w), EntryOf(t)]
  {
    var d := Tomb(v, IdOf(v), 0);
    TwoById(t, d);
    DropSecond(t, v, 0);
    BeforeSlide(v, w, t);
    WhileSent(v, w, t, d);
    AfterSlide(w, t, d);
  }

  lemma TwoById(t: Tomb, d: Tomb)
    ensures ById([t]) == map[t.id := t] && ById([t, d]) == ById([t])[d.id := d]
  {
    assert [t][..0] == [] && [t, d][..1] == [t];
  }

  lemma DropSecond(t: Tomb, v: View, seat: nat)
    requires t.id != IdOf(v)
    ensures Drop([t], v, seat) == [t, Tomb(v, IdOf(v), seat)]
  {
  }

  lemma BeforeSlide(v: View, w: View, t: Tomb)
    requires IdOf(v) != t.id && IdOf(w) != t.id && t.seat == 1 && ById([t]) == map[t.id := t]
    ensures ShownLiveAt([v, w], [t], 0, 0)
  {
    var base := Base([v, w], ById([t]));
    FilterOne(IsUnplaced(Placed([v, w], ById([t]))), t);
    CarriedHolds(base, 0, [t]);
    assert [t][..0] == [];
  }

  lemma WhileSent(v: View, w: View, t: Tomb, d: Tomb)
    requires IdOf(v) != IdOf(w) && IdOf(v) != t.id && IdOf(w) != t.id && d.id == IdOf(v) && t.seat == 1
    requires ById([t, d]) == map[t.id := t, d.id := d]
    ensures Merge([v, w], [t, d]) == [EntryOf(d), EntryOf(t), Live(LiveKey(w.factKind, 1), w)]
  {
    var byId := ById([t, d]);
    assert v in [v, w] && byId[IdOf(v)] == d;
    assert d.id in Placed([v, w], byId) && t.id !in Placed([v, w], byId);
    FilterOne(IsUnplaced(Placed([v, w], byId)), t);
    assert [t, d][..1] == [t];
    SpliceOne([EntryOf(d), Live(LiveKey(w.factKind, 1), w)], t);
    assert Base([v, w], byId) == [EntryOf(d), Live(LiveKey(w.factKind, 1), w)];
  }

  lemma AfterSlide(w: View, t: Tomb, d: Tomb)
    requires IdOf(w) != t.id && IdOf(w) != d.id && t.id != d.id && t.seat == 1 && d.seat == 0
    requires ById([t, d]) == map[t.id := t, d.id := d]
    ensures Merge([w], [t, d]) == [EntryOf(d), Live(LiveKey(w.factKind, 0), w), EntryOf(t)]
  {
    var byId := ById([t, d]);
    FilterOne(IsUnplaced(Placed([w], byId)), t);
    assert [t, d][..1] == [t];
    assert Unplaced([w], [t, d]) == [t, d];
    SpliceOne([Live(LiveKey(w.factKind, 0), w)], t);
    assert Base([w], byId) == [Live(LiveKey(w.factKind, 0), w)];
  }

  lemma FilterOne(keep: Tomb -> bool, t: Tomb)
    ensures Filter(keep, [t]) == if keep(t) then [t] else []
  {
    assert [t][..0] == [];
  }

  lemma SpliceOne(entries: seq<Entry>, t: Tomb)
    ensures SpliceAll(entries, [t]) == Splice(entries, t)
  {
    assert [t][..0] == [];
  }
}
