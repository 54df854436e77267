/** The event-vocabulary probe: a histogram of event names, a judgement whether the sample
    could have carried browser events, and one verdict a row. */
module Vocabulary {
  import opened Common
  import opened Sequences
  import opened Sorting

  datatype ObservedEvent = ObservedEvent(name: Utf16, lib: Option<Utf16>, occurredAt: Option<int>)

  datatype NameCount = NameCount(name: Utf16, count: nat)

  datatype Window = Window(earliest: int, latest: int)

  datatype Histogram = Histogram(denominator: nat, counts: seq<NameCount>, window: Option<Window>)

  // ---------------------------------------------------------- code-unit order

  /** `<` on strings: by code unit, a proper prefix first. */
  predicate Below(a: Utf16, b: Utf16) {
    if b == [] then false
    else if a == [] then true
    else if a[0] != b[0] then a[0] < b[0]
    else Below(a[1..], b[1..])
  }

  lemma {:induction false} BelowIsTotal(a: Utf16, b: Utf16)
    ensures a == b || Below(a, b) || Below(b, a)
    ensures !(Below(a, b) && Below(b, a)) && (a == b ==> !Below(a, b))
  {
    if a != [] && b != [] && a[0] == b[0] {
      BelowIsTotal(a[1..], b[1..]);
      assert a == [a[0]] + a[1..] && b == [b[0]] + b[1..];
    }
  }

  /** The two agree up to some place, where the first ends or has the smaller code unit. */
  ghost predicate PartsAt(a: Utf16, b: Utf16, k: nat) {
    k <= |a| && k < |b| && a[..k] == b[..k] && (k < |a| ==> a[k] < b[k])
  }

  lemma {:induction false} BelowIff(a: Utf16, b: Utf16)
    ensures Below(a, b) <==> exists k: nat :: PartsAt(a, b, k)
  {
    if b != [] && (a == [] || a[0] != b[0]) {
      assert PartsAt(a, b, 0) <==> Below(a, b);
    } else if b != [] {
      BelowIff(a[1..], b[1..]);
      assert a == [a[0]] + a[1..] && b == [b[0]] + b[1..];
      if k: nat :| PartsAt(a[1..], b[1..], k) {
        assert a[..k + 1] == [a[0]] + a[1..][..k] && b[..k + 1] == [b[0]] + b[1..][..k];
        assert PartsAt(a, b, k + 1);
      }
      if k: nat :| PartsAt(a, b, k) {
        assert a[1..][..k - 1] == a[..k][1..] && b[1..][..k - 1] == b[..k][1..];
        assert PartsAt(a[1..], b[1..], k - 1);
      }
    }
  }

  lemma {:induction false} BelowIsTransitive(a: Utf16, b: Utf16, c: Utf16)
    requires Below(a, b) && Below(b, c)
    ensures Below(a, c)
  {
    if a != [] && a[0] == b[0] == c[0] {
      BelowIsTransitive(a[1..], b[1..], c[1..]);
    }
  }

  /** `byCodeUnit(left, right) <= 0`. */
  function ByCodeUnit(): (Utf16, Utf16) -> bool {
    (a: Utf16, b: Utf16) => !Below(b, a)
  }

  /** Count descending, then name ascending. */
  function ByCountThenName(): (NameCount, NameCount) -> bool {
    (a: NameCount, b: NameCount) => a.count > b.count || (a.count == b.count && !Below(b.name, a.name))
  }

  lemma OrdersAreTotal()
    ensures TotalPreorder(ByCodeUnit()) && TotalPreorder(ByCountThenName())
    ensures forall x, y :: ByCodeUnit()(x, y) && ByCodeUnit()(y, x) ==> x == y
    ensures forall x, y :: ByCountThenName()(x, y) && ByCountThenName()(y, x) ==> x == y
  {
    forall a: Utf16, b: Utf16 ensures a == b || Below(a, b) || Below(b, a) ensures !(Below(a, b) && Below(b, a)) {
      BelowIsTotal(a, b);
    }
    forall a: Utf16, b: Utf16, c: Utf16 | !Below(b, a) && !Below(c, b) ensures !Below(c, a) {
      if Below(c, a) {
        if a == b || b == c {
        } else {
          BelowIsTransitive(c, a, b);
        }
      }
    }
  }

  // ---------------------------------------------------------------- histogram

  function Occurrences(sample: seq<ObservedEvent>, name: Utf16): nat {
    if sample == [] then 0
    else Occurrences(sample[..|sample| - 1], name) + if sample[|sample| - 1].name == name then 1 else 0
  }

  function Total(counts: seq<NameCount>): nat {
    if counts == [] then 0 else Total(counts[..|counts| - 1]) + counts[|counts| - 1].count
  }

  /** Names strictly ordered by count descending, then by name ascending. */
  ghost predicate StrictlyOrdered(counts: seq<NameCount>) {
    forall i, j | 0 <= i < j < |counts| ::
      counts[i].count > counts[j].count || (counts[i].count == counts[j].count && Below(counts[i].name, counts[j].name))
  }

  ghost predicate CountsNames(sample: seq<ObservedEvent>, counts: seq<NameCount>) {
    forall c :: c in counts <==> c.count > 0 && c.count == Occurrences(sample, c.name)
  }

  /** The window runs from the least to the greatest known time of the sample. */
  ghost predicate Spans(sample: seq<ObservedEvent>, window: Option<Window>) {
    match window
    case None => forall e | e in sample :: e.occurredAt.None?
    case Some(w) =>
      && (exists e | e in sample :: e.occurredAt == Some(w.earliest))
      && (exists e | e in sample :: e.occurredAt == Some(w.latest))
      && forall e | e in sample && e.occurredAt.Some? :: w.earliest <= e.occurredAt.value <= w.latest
  }

  ghost predicate IsHistogram(sample: seq<ObservedEvent>, h: Histogram) {
    && h.denominator == |sample| == Total(h.counts)
    && CountsNames(sample, h.counts) && StrictlyOrdered(h.counts)
    && Spans(sample, h.window)
  }

  /** A tally in insertion order, as a map iterates. */
  ghost predicate Tallies(sample: seq<ObservedEvent>, tally: seq<NameCount>) {
    && CountsNames(sample, tally) && Total(tally) == |sample|
    && forall i, j | 0 <= i < j < |tally| :: tally[i].name != tally[j].name
  }

  /** `tally.set(name, (tally.get(name) ?? 0) + 1)`. */
  method AddToTally(tally: seq<NameCount>, name: Utf16, ghost sample: seq<ObservedEvent>, ghost e: ObservedEvent)
    returns (next: seq<NameCount>)
    requires Tallies(sample, tally) && e.name == name
    ensures Tallies(sample + [e], next)
  {
    assert (sample + [e])[..|sample|] == sample;
    for i := 0 to |tally|
      invariant forall j | 0 <= j < i :: tally[j].name != name
    {
      if tally[i].name == name {
        next := tally[i := NameCount(name, tally[i].count + 1)];
        Bumped(sample, e, tally, i);
        return;
      }
    }
    next := tally + [NameCount(name, 1)];
    Appended(sample, e, tally);
  }

  lemma Appended(sample: seq<ObservedEvent>, e: ObservedEvent, tally: seq<NameCount>)
    requires Tallies(sample, tally) && forall j | 0 <= j < |tally| :: tally[j].name != e.name
    ensures Tallies(sample + [e], tally + [NameCount(e.name, 1)])
  {
    var next, longer := tally + [NameCount(e.name, 1)], sample + [e];
    assert longer[..|sample|] == sample && next[..|tally|] == tally;
    assert NameCount(e.name, Occurrences(sample, e.name)) !in tally;
    forall c ensures c in next <==> c.count > 0 && c.count == Occurrences(longer, c.name) {
      assert c in next <==> c in tally || c == NameCount(e.name, 1);
    }
  }

  lemma {:induction false} TotalBump(tally: seq<NameCount>, i: nat, c: NameCount)
    requires i < |tally|
    ensures Total(tally[i := c]) == Total(tally) - tally[i].count + c.count
  {
    var n := |tally| - 1;
    if i < n {
      TotalBump(tally[..n], i, c);
      assert tally[i := c][..n] == tally[..n][i := c];
    } else {
      assert tally[i := c][..n] == tally[..n];
    }
  }

  lemma Bumped(sample: seq<ObservedEvent>, e: ObservedEvent, tally: seq<NameCount>, i: nat)
    requires Tallies(sample, tally) && i < |tally| && tally[i].name == e.name
    ensures Tallies(sample + [e], tally[i := NameCount(e.name, tally[i].count + 1)])
  {
    var bumped, longer := NameCount(e.name, tally[i].count + 1), sample + [e];
    var next := tally[i := bumped];
    assert longer[..|sample|] == sample;
    TotalBump(tally, i, bumped);
    assert tally[i] in tally;
    forall c ensures c in next <==> c.count > 0 && c.count == Occurrences(longer, c.name) {
      if c in next && c != bumped {
        var k :| 0 <= k < |next| && next[k] == c;
        assert c == tally[k] && c in tally;
      }
      if c.name != e.name && c in tally {
        var k :| 0 <= k < |tally| && tally[k] == c;
        assert next[k] == c;
      }
      assert next[i] == bumped;
    }
  }

  lemma TotalNext(s: seq<NameCount>, c: NameCount)
    ensures Total(s + [c]) == Total(s) + c.count
  {
    assert (s + [c])[..|s|] == s;
  }

  lemma {:induction false} TotalInsert(s: seq<NameCount>, c: NameCount)
    ensures Total(Insert(ByCountThenName(), s, c)) == Total(s) + c.count
  {
    if s == [] {
      TotalNext([], c);
      assert [] + [c] == [c];
    } else if ByCountThenName()(s[|s| - 1], c) {
      TotalNext(s, c);
    } else {
      TotalInsert(s[..|s| - 1], c);
      TotalNext(Insert(ByCountThenName(), s[..|s| - 1], c), s[|s| - 1]);
    }
  }

  lemma {:induction false} TotalSort(s: seq<NameCount>)
    ensures Total(Sort(ByCountThenName(), s)) == Total(s)
  {
    if s != [] {
      TotalSort(s[..|s| - 1]);
      TotalInsert(Sort(ByCountThenName(), s[..|s| - 1]), s[|s| - 1]);
    }
  }

  /** Sorting a tally gives the histogram's counts. */
  lemma SortedTally(sample: seq<ObservedEvent>, tally: seq<NameCount>)
    requires Tallies(sample, tally)
    ensures var counts := Sort(ByCountThenName(), tally);
            CountsNames(sample, counts) && StrictlyOrdered(counts) && Total(counts) == |sample|
  {
    var leq := ByCountThenName();
    var counts := Sort(leq, tally);
    OrdersAreTotal();
    SortSorts(leq, tally);
    SortKeepsDistinct(leq, tally);
    TotalSort(tally);
    forall c ensures c in counts <==> c in tally { InSorted(leq, tally, c); }
    forall i, j | 0 <= i < j < |counts|
      ensures counts[i].count > counts[j].count
           || (counts[i].count == counts[j].count && Below(counts[i].name, counts[j].name))
    {
      assert leq(counts[i], counts[j]) && counts[i] != counts[j];
      BelowIsTotal(counts[i].name, counts[j].name);
    }
  }

  function Earlier(earliest: Option<int>, at: int): Option<int> {
    if earliest.None? || at < earliest.value then Some(at) else earliest
  }

  function Later(latest: Option<int>, at: int): Option<int> {
    if latest.None? || at > latest.value then Some(at) else latest
  }

  ghost predicate SpansEnds(sample: seq<ObservedEvent>, earliest: Option<int>, latest: Option<int>) {
    && (earliest.None? <==> latest.None?)
    && Spans(sample, if earliest.Some? && latest.Some? then Some(Window(earliest.value, latest.value)) else None)
  }

  lemma SpansNext(sample: seq<ObservedEvent>, e: ObservedEvent, earliest: Option<int>, latest: Option<int>)
    requires SpansEnds(sample, earliest, latest)
    ensures if e.occurredAt.None? then SpansEnds(sample + [e], earliest, latest)
            else SpansEnds(sample + [e], Earlier(earliest, e.occurredAt.value), Later(latest, e.occurredAt.value))
  {
    forall o ensures o in sample + [e] <==> o in sample || o == e { }
  }

  /** `buildEventNameHistogram`. */
  method BuildEventNameHistogram(sample: seq<ObservedEvent>) returns (h: Histogram)
    ensures IsHistogram(sample, h)
  {
    var tally: seq<NameCount> := [];
    var earliest: Option<int>, latest: Option<int> := None, None;
    for i := 0 to |sample|
      invariant Tallies(sample[..i], tally) && SpansEnds(sample[..i], earliest, latest)
    {
      assert sample[..i + 1] == sample[..i] + [sample[i]];
      tally := AddToTally(tally, sample[i].name, sample[..i], sample[i]);
      SpansNext(sample[..i], sample[i], earliest, latest);
      if sample[i].occurredAt.Some? {
        earliest := Earlier(earliest, sample[i].occurredAt.value);
        latest := Later(latest, sample[i].occurredAt.value);
      }
    }
    assert sample[..|sample|] == sample;
    SortedTally(sample, tally);
    h := Histogram(|sample|, Sort(ByCountThenName(), tally),
                   if earliest.Some? && latest.Some? then Some(Window(earliest.value, latest.value)) else None);
  }

  lemma {:induction false} OccurrencesAppend(a: seq<ObservedEvent>, b: seq<ObservedEvent>, name: Utf16)
    ensures Occurrences(a + b, name) == Occurrences(a, name) + Occurrences(b, name)
  {
    if b == [] {
      assert a + b == a;
    } else {
      OccurrencesAppend(a, b[..|b| - 1], name);
      assert (a + b)[..|a + b| - 1] == a + b[..|b| - 1];
    }
  }

  lemma SameRest(front: seq<ObservedEvent>, last: ObservedEvent, b: seq<ObservedEvent>, k: nat)
    requires multiset(front + [last]) == multiset(b) && k < |b| && b[k] == last
    ensures multiset(front) == multiset(b[..k] + b[k + 1..])
  {
    assert b == b[..k] + [last] + b[k + 1..];
    assert multiset(front) == multiset(b) - multiset{last};
  }

  lemma OccurrencesTakeOut(b: seq<ObservedEvent>, k: nat, name: Utf16)
    requires k < |b|
    ensures Occurrences(b, name) ==
            Occurrences(b[..k] + b[k + 1..], name) + if b[k].name == name then 1 else 0
  {
    var upTo := b[..k] + [b[k]];
    assert upTo[..k] == b[..k] && b == upTo + b[k + 1..];
    OccurrencesAppend(upTo, b[k + 1..], name);
    OccurrencesAppend(b[..k], b[k + 1..], name);
  }

  /** How often a name occurs does not depend on the order of the sample. */
  lemma {:induction false} OccurrencesPermute(a: seq<ObservedEvent>, b: seq<ObservedEvent>, name: Utf16)
    requires multiset(a) == multiset(b)
    ensures Occurrences(a, name) == Occurrences(b, name)
  {
    if a == [] {
      assert |b| == |multiset(b)| == |multiset(a)|;
    } else {
      var front, last := a[..|a| - 1], a[|a| - 1];
      assert a == front + [last];
      assert last in multiset(b);
      var k :| 0 <= k < |b| && b[k] == last;
      SameRest(front, last, b, k);
      OccurrencesPermute(front, b[..k] + b[k + 1..], name);
      OccurrencesTakeOut(b, k, name);
    }
  }

  /** The sample settles its histogram, and the order of its events plays no part. */
  lemma HistogramIsDetermined(a: seq<ObservedEvent>, b: seq<ObservedEvent>, g: Histogram, h: Histogram)
    requires multiset(a) == multiset(b) && IsHistogram(a, g) && IsHistogram(b, h)
    ensures g == h
  {
    var leq := ByCountThenName();
    OrdersAreTotal();
    forall c ensures c in g.counts <==> c in h.counts { OccurrencesPermute(a, b, c.name); }
    OrderedIsSorted(g.counts);
    OrderedIsSorted(h.counts);
    SortedIsUnique(leq, g.counts, h.counts);
    assert forall e :: e in a <==> e in b by {
      assert forall e :: (e in a <==> e in multiset(a)) && (e in b <==> e in multiset(b));
    }
    assert |a| == |multiset(a)| == |multiset(b)| == |b|;
  }

  lemma OrderedIsSorted(counts: seq<NameCount>)
    requires StrictlyOrdered(counts)
    ensures SortedBy(ByCountThenName(), counts) && NoDuplicates(counts)
  {
    forall i, j | 0 <= i < j < |counts| ensures ByCountThenName()(counts[i], counts[j]) && counts[i] != counts[j] {
      BelowIsTotal(counts[i].name, counts[j].name);
    }
  }

  // -------------------------------------------------------- representativeness

  datatype Rules = Rules(version: nat, browserOriginLibs: seq<Utf16>, minimumBrowserOriginatedEvents: nat)

  const ABSENT_LIB_LABEL: Utf16 := Units("(absent)")

  datatype Basis = Basis(totalEvents: nat, browserOriginatedEvents: nat, observedLibs: seq<Utf16>, minimum: nat)

  datatype Reason = NoBrowserOriginatedEvents | BelowMinimumBrowserDenominator

  datatype Representativeness = Representative(basis: Basis) | NotRepresentative(reason: Reason, basis: Basis)

  /** `isBrowserOriginated`. */
  function IsBrowserOriginated(rules: Rules): ObservedEvent -> bool {
    (e: ObservedEvent) => e.lib.Some? && e.lib.value in rules.browserOriginLibs
  }

  function LibOf(e: ObservedEvent): Utf16 {
    if e.lib.Some? then e.lib.value else ABSENT_LIB_LABEL
  }

  function Browsers(sample: seq<ObservedEvent>, rules: Rules): nat {
    |Filter(IsBrowserOriginated(rules), sample)|
  }

  /** The libraries of a sample, each once, in code-unit order. */
  ghost predicate ListsLibs(sample: seq<ObservedEvent>, libs: seq<Utf16>) {
    && (forall l :: l in libs <==> exists e | e in sample :: LibOf(e) == l)
    && forall i, j | 0 <= i < j < |libs| :: Below(libs[i], libs[j])
  }

  /** What the judgement has to be: representative exactly when browser events were seen and
      they reach the minimum; the reason tells the two failures apart. */
  ghost predicate Judges(sample: seq<ObservedEvent>, rules: Rules, r: Representativeness) {
    && r.basis.totalEvents == |sample| && r.basis.browserOriginatedEvents == Browsers(sample, rules)
    && r.basis.minimum == rules.minimumBrowserOriginatedEvents && ListsLibs(sample, r.basis.observedLibs)
    && (r.Representative? <==>
        (exists e | e in sample :: IsBrowserOriginated(rules)(e))
        && Browsers(sample, rules) >= rules.minimumBrowserOriginatedEvents)
    && (r.NotRepresentative? ==>
        (r.reason.NoBrowserOriginatedEvents? <==> forall e | e in sample :: !IsBrowserOriginated(rules)(e)))
  }

  lemma SomeBrowser(sample: seq<ObservedEvent>, rules: Rules)
    ensures Browsers(sample, rules) > 0 <==> exists e | e in sample :: IsBrowserOriginated(rules)(e)
  {
    var kept := Filter(IsBrowserOriginated(rules), sample);
    if kept != [] { FilterKeeps(IsBrowserOriginated(rules), sample, kept[0]); }
    if e :| e in sample && IsBrowserOriginated(rules)(e) { FilterKeeps(IsBrowserOriginated(rules), sample, e); }
  }

  predicate FromBrowser(libs: seq<Utf16>, e: ObservedEvent) {
    match e.lib
    case None => false
    case Some(lib) => lib in libs
  }

  lemma BrowsersNext(sample: seq<ObservedEvent>, e: ObservedEvent, rules: Rules)
    ensures Browsers([], rules) == 0
    ensures Browsers(sample + [e], rules) ==
            Browsers(sample, rules) + if FromBrowser(rules.browserOriginLibs, e) then 1 else 0
  {
    FilterCount(IsBrowserOriginated(rules), sample, e);
  }

  /** What a judgement tells its reader, in the sample's own terms. */
  lemma JudgementSays(sample: seq<ObservedEvent>, rules: Rules, r: Representativeness)
    requires Judges(sample, rules, r)
    ensures r.Representative? <==>
            (exists e | e in sample :: FromBrowser(rules.browserOriginLibs, e))
            && r.basis.browserOriginatedEvents >= rules.minimumBrowserOriginatedEvents
    ensures r.NotRepresentative? && r.reason == NoBrowserOriginatedEvents <==>
            forall e | e in sample :: !FromBrowser(rules.browserOriginLibs, e)
    ensures forall l :: l in r.basis.observedLibs <==>
            exists e | e in sample :: e.lib == Some(l) || (e.lib == None && l == Units("(absent)"))
  {
    forall e ensures IsBrowserOriginated(rules)(e) <==> FromBrowser(rules.browserOriginLibs, e) { }
    forall l, e ensures LibOf(e) == l <==> e.lib == Some(l) || (e.lib == None && l == Units("(absent)")) { }
  }

  /** A set of libraries kept in insertion order. */
  ghost predicate Collects(sample: seq<ObservedEvent>, libs: seq<Utf16>) {
    && NoDuplicates(libs)
    && forall l :: l in libs <==> exists e | e in sample :: LibOf(e) == l
  }

  lemma CollectsNext(sample: seq<ObservedEvent>, e: ObservedEvent, libs: seq<Utf16>)
    requires Collects(sample, libs)
    ensures Collects(sample + [e], if LibOf(e) in libs then libs else libs + [LibOf(e)])
  {
    forall o ensures o in sample + [e] <==> o in sample || o == e { }
    assert e in sample + [e];
  }

  /** `judgeRepresentativeness`. */
  method JudgeRepresentativeness(sample: seq<ObservedEvent>, rules: Rules) returns (r: Representativeness)
    ensures Judges(sample, rules, r)
  {
    var browsers := 0;
    var libs: seq<Utf16> := [];
    for i := 0 to |sample|
      invariant browsers == Browsers(sample[..i], rules) && Collects(sample[..i], libs)
    {
      FilterNext(IsBrowserOriginated(rules), sample, i);
      CollectsNext(sample[..i], sample[i], libs);
      assert sample[..i + 1] == sample[..i] + [sample[i]];
      if IsBrowserOriginated(rules)(sample[i]) { browsers := browsers + 1; }
      if LibOf(sample[i]) !in libs { libs := libs + [LibOf(sample[i])]; }
    }
    assert sample[..|sample|] == sample;
    SortedLibs(sample, libs);
    SomeBrowser(sample, rules);
    var basis := Basis(|sample|, browsers, Sort(ByCodeUnit(), libs), rules.minimumBrowserOriginatedEvents);
    if browsers == 0 {
      return NotRepresentative(NoBrowserOriginatedEvents, basis);
    }
    if browsers < rules.minimumBrowserOriginatedEvents {
      return NotRepresentative(BelowMinimumBrowserDenominator, basis);
    }
    return Representative(basis);
  }

  lemma SortedLibs(sample: seq<ObservedEvent>, libs: seq<Utf16>)
    requires Collects(sample, libs)
    ensures ListsLibs(sample, Sort(ByCodeUnit(), libs))
  {
    var leq := ByCodeUnit();
    var r := Sort(leq, libs);
    OrdersAreTotal();
    SortSorts(leq, libs);
    SortKeepsDistinct(leq, libs);
    forall l ensures l in r <==> l in libs { InSorted(leq, libs, l); }
    forall i, j | 0 <= i < j < |r| ensures Below(r[i], r[j]) {
      assert leq(r[i], r[j]);
      BelowIsTotal(r[i], r[j]);
    }
  }

  // ------------------------------------------------------------------ verdicts

  datatype Row = Row(id: string, eventNames: seq<Utf16>)

  datatype Verdict =
    | Present(row: Row, observed: seq<NameCount>, denominator: nat)
    | Absent(row: Row, basis: Representativeness, denominator: nat)
    | FailedToPin(row: Row, basis: Representativeness, denominator: nat)

  /** `counts.find(name)`: the first entry of that name. */
  function FindCount(counts: seq<NameCount>, name: Utf16): Option<NameCount> {
    if counts == [] then None
    else if counts[0].name == name then Some(counts[0])
    else FindCount(counts[1..], name)
  }

  function ObservedOf(names: seq<Utf16>, counts: seq<NameCount>): seq<NameCount> {
    if names == [] then []
    else
      var entry := FindCount(counts, names[|names| - 1]);
      ObservedOf(names[..|names| - 1], counts)
      + if entry.Some? && entry.value.count >= 1 then [entry.value] else []
  }

  /** `verdictForRow`. */
  function VerdictForRow(row: Row, h: Histogram, r: Representativeness): Verdict {
    var observed := ObservedOf(row.eventNames, h.counts);
    if observed != [] then Present(row, observed, h.denominator)
    else if r.Representative? then Absent(row, r, h.denominator)
    else FailedToPin(row, r, h.denominator)
  }

  function Occurs(sample: seq<ObservedEvent>): Utf16 -> bool {
    (name: Utf16) => Occurrences(sample, name) > 0
  }

  lemma {:induction false} FindCountFinds(sample: seq<ObservedEvent>, counts: seq<NameCount>, name: Utf16)
    requires forall c | c in counts :: c.count == Occurrences(sample, c.name) > 0
    ensures FindCount(counts, name) ==
            if exists c | c in counts :: c.name == name then Some(NameCount(name, Occurrences(sample, name))) else None
  {
    if counts != [] {
      assert counts == [counts[0]] + counts[1..];
      FindCountFinds(sample, counts[1..], name);
    }
  }

  function CountOf(sample: seq<ObservedEvent>, names: seq<Utf16>): (r: seq<NameCount>)
    ensures |r| == |names|
    ensures forall i | 0 <= i < |names| :: r[i] == NameCount(names[i], Occurrences(sample, names[i]))
  {
    seq(|names|, i requires 0 <= i < |names| => NameCount(names[i], Occurrences(sample, names[i])))
  }

  /** The row's entries are the row's names that occur, in the row's order, with their counts. */
  lemma {:induction false} ObservedAre(sample: seq<ObservedEvent>, counts: seq<NameCount>, names: seq<Utf16>)
    requires CountsNames(sample, counts)
    ensures ObservedOf(names, counts) == CountOf(sample, Filter(Occurs(sample), names))
  {
    if names != [] {
      var front, name := names[..|names| - 1], names[|names| - 1];
      ObservedAre(sample, counts, front);
      FindCountFinds(sample, counts, name);
      if Occurrences(sample, name) > 0 {
        assert NameCount(name, Occurrences(sample, name)) in counts;
      }
    }
  }

  ghost predicate AnyOccurs(sample: seq<ObservedEvent>, names: seq<Utf16>) {
    exists name | name in names :: Occurrences(sample, name) > 0
  }

  ghost predicate CouldCarry(sample: seq<ObservedEvent>, rules: Rules) {
    Browsers(sample, rules) > 0 && Browsers(sample, rules) >= rules.minimumBrowserOriginatedEvents
  }

  /** What a verdict means: present exactly when one of the row's names occurs, absent exactly
      when none does in a sample that could have carried it, and otherwise no verdict. */
  ghost predicate Settles(sample: seq<ObservedEvent>, rules: Rules, row: Row, v: Verdict) {
    && v.row == row && v.denominator == |sample|
    && (v.Present? <==> AnyOccurs(sample, row.eventNames))
    && (v.Absent? <==> !AnyOccurs(sample, row.eventNames) && CouldCarry(sample, rules))
    && (v.Present? ==> v.observed == CountOf(sample, Filter(Occurs(sample), row.eventNames)))
    && (!v.Present? ==> Judges(sample, rules, v.basis))
  }

  lemma VerdictSettles(sample: seq<ObservedEvent>, rules: Rules, row: Row, h: Histogram, r: Representativeness)
    requires IsHistogram(sample, h) && Judges(sample, rules, r)
    ensures Settles(sample, rules, row, VerdictForRow(row, h, r))
  {
    var kept := Filter(Occurs(sample), row.eventNames);
    ObservedAre(sample, h.counts, row.eventNames);
    SomeBrowser(sample, rules);
    if kept != [] {
      FilterKeeps(Occurs(sample), row.eventNames, kept[0]);
    }
    if name :| name in row.eventNames && Occurrences(sample, name) > 0 {
      FilterKeeps(Occurs(sample), row.eventNames, name);
    }
  }

  datatype Report = Report(
    rulesVersion: nat,
    histogram: Histogram,
    representativeness: Representativeness,
    verdicts: seq<Verdict>)

  /** `buildVocabularyReport`: every row is settled by the sample alone. */
  method BuildVocabularyReport(sample: seq<ObservedEvent>, rows: seq<Row>, rules: Rules) returns (report: Report)
    ensures report.rulesVersion == rules.version
    ensures IsHistogram(sample, report.histogram) && Judges(sample, rules, report.representativeness)
    ensures |report.verdicts| == |rows|
    ensures forall i | 0 <= i < |rows| :: Settles(sample, rules, rows[i], report.verdicts[i])
  {
    var h := BuildEventNameHistogram(sample);
    var r := JudgeRepresentativeness(sample, rules);
    var verdicts := seq(|rows|, i requires 0 <= i < |rows| => VerdictForRow(rows[i], h, r));
    forall i | 0 <= i < |rows| ensures Settles(sample, rules, rows[i], verdicts[i]) {
      VerdictSettles(sample, rules, rows[i], h, r);
    }
    report := Report(rules.version, h, r, verdicts);
  }

  /** One sighting settles a row for good, and an absence is only ever overturned by one. */
  lemma MoreEventsOnlyReveal(a: seq<ObservedEvent>, b: seq<ObservedEvent>, rules: Rules, row: Row, v: Verdict, w: Verdict)
    requires Settles(a, rules, row, v) && Settles(a + b, rules, row, w)
    ensures v.Present? ==> w.Present?
    ensures v.Absent? ==> w.Absent? || (w.Present? && AnyOccurs(b, row.eventNames))
  {
    FilterAppend(IsBrowserOriginated(rules), a, b);
    forall name ensures Occurrences(a + b, name) == Occurrences(a, name) + Occurrences(b, name) {
      OccurrencesAppend(a, b, name);
    }
  }
}
