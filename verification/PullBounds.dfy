/** The pull probe: nearest-rank percentiles of a run, the byte and per-tick bounds derived
    from them, in exact arithmetic. */
module PullBounds {
  import opened Common
  import opened Sequences
  import opened Sorting

  // --------------------------------------------------------------- percentiles

  function Ascending(): (real, real) -> bool {
    (a: real, b: real) => a <= b
  }

  /** `ceil(p / 100 * n)`. */
  function RankOf(p: nat, n: nat): nat {
    (p * n + 99) / 100
  }

  /** `percentile`: the nearest-rank element, with the index clamped into the list. */
  function Percentile(sorted: seq<real>, p: nat): real
    requires |sorted| > 0
  {
    var index := RankOf(p, |sorted|) - 1;
    var floored := if index < 0 then 0 else index;
    sorted[if floored < |sorted| - 1 then floored else |sorted| - 1]
  }

  datatype Distribution = Distribution(n: nat, p50: real, p90: real, max: real)

  /** `distributionOf`. */
  function DistributionOf(values: seq<real>): Option<Distribution> {
    if values == [] then None
    else
      var sorted := Sort(Ascending(), values);
      Some(Distribution(|sorted|, Percentile(sorted, 50), Percentile(sorted, 90), sorted[|sorted| - 1]))
  }

  function AtMost(bound: real): real -> bool {
    (x: real) => x <= bound
  }

  /** How many values are no larger than a bound. */
  function CountAtMost(values: seq<real>, bound: real): nat {
    |Filter(AtMost(bound), values)|
  }

  lemma {:induction false} CountInsert(s: seq<real>, x: real, bound: real)
    ensures CountAtMost(Insert(Ascending(), s, x), bound) == CountAtMost(s, bound) + if x <= bound then 1 else 0
  {
    if s == [] {
      assert [x][..0] == [];
    } else if s[|s| - 1] <= x {
      assert (s + [x])[..|s|] == s;
    } else {
      CountInsert(s[..|s| - 1], x, bound);
      var r := Insert(Ascending(), s[..|s| - 1], x);
      assert (r + [s[|s| - 1]])[..|r|] == r;
    }
  }

  lemma {:induction false} CountSort(s: seq<real>, bound: real)
    ensures CountAtMost(Sort(Ascending(), s), bound) == CountAtMost(s, bound)
  {
    if s != [] {
      CountSort(s[..|s| - 1], bound);
      CountInsert(Sort(Ascending(), s[..|s| - 1]), s[|s| - 1], bound);
    }
  }

  /** In a sorted list more than `k` values are within a bound exactly when the one at `k` is. */
  lemma {:induction false} CountSorted(s: seq<real>, k: nat, bound: real)
    requires SortedBy(Ascending(), s) && k < |s|
    ensures CountAtMost(s, bound) > k <==> s[k] <= bound
  {
    var n := |s| - 1;
    if k < n {
      CountSorted(s[..n], k, bound);
      assert Ascending()(s[k], s[n]);
    } else if s[n] <= bound {
      AllCount(s, bound);
    }
  }

  lemma {:induction false} AllCount(s: seq<real>, bound: real)
    requires SortedBy(Ascending(), s) && |s| > 0 && s[|s| - 1] <= bound
    ensures CountAtMost(s, bound) == |s|
  {
    if |s| > 1 {
      assert Ascending()(s[|s| - 2], s[|s| - 1]);
      AllCount(s[..|s| - 1], bound);
    }
  }

  lemma PercentileAt(sorted: seq<real>, p: nat) returns (i: nat)
    requires |sorted| > 0 && 1 <= p <= 100
    ensures i == RankOf(p, |sorted|) - 1 && i < |sorted| && Percentile(sorted, p) == sorted[i]
  {
    RankInRange(p, |sorted|);
    i := RankOf(p, |sorted|) - 1;
  }

  lemma PercentileIsValue(values: seq<real>, p: nat)
    requires |values| > 0 && 1 <= p <= 100
    ensures Percentile(Sort(Ascending(), values), p) in values
  {
    var i := PercentileAt(Sort(Ascending(), values), p);
    InSorted(Ascending(), values, Sort(Ascending(), values)[i]);
  }

  /** How many sorted values are within a bound, against the one at a rank. */
  lemma CountsPastRank(values: seq<real>, i: nat, x: real)
    requires i < |values|
    ensures |Sort(Ascending(), values)| == |values|
    ensures CountAtMost(values, x) >= i + 1 <==> Sort(Ascending(), values)[i] <= x
  {
    SortSorts(Ascending(), values);
    CountSort(values, x);
    CountSorted(Sort(Ascending(), values), i, x);
  }

  /** The reference definition: `x` is no smaller than the percentile exactly when at least
      `p` percent of the values are no larger than `x`. */
  lemma PercentileIff(values: seq<real>, p: nat, x: real)
    requires |values| > 0 && 1 <= p <= 100
    ensures Percentile(Sort(Ascending(), values), p) <= x <==> CountAtMost(values, x) * 100 >= p * |values|
    ensures Percentile(Sort(Ascending(), values), p) in values
  {
    var i := PercentileAt(Sort(Ascending(), values), p);
    CountsPastRank(values, i, x);
    RankCounts(p, |values|, CountAtMost(values, x));
    PercentileIsValue(values, p);
  }

  lemma RankInRange(p: nat, n: nat)
    requires 1 <= p <= 100 && n > 0
    ensures 1 <= RankOf(p, n) <= n
  {
    assert n <= p * n <= 100 * n;
  }

  lemma RankCounts(p: nat, n: nat, count: nat)
    ensures count >= RankOf(p, n) <==> count * 100 >= p * n
  {
    var product := p * n;
  }

  lemma RankGrows(p: nat, q: nat, n: nat)
    requires p <= q
    ensures RankOf(p, n) <= RankOf(q, n)
  {
    assert p * n <= q * n;
  }

  lemma AscendingAt(sorted: seq<real>, i: nat, j: nat)
    requires SortedBy(Ascending(), sorted) && i <= j < |sorted|
    ensures sorted[i] <= sorted[j]
  {
    assert i == j || Ascending()(sorted[i], sorted[j]);
  }

  /** The last of the sorted values is the greatest. */
  lemma LastIsGreatest(values: seq<real>, x: real)
    requires x in values
    ensures |Sort(Ascending(), values)| > 0 && x <= Sort(Ascending(), values)[|values| - 1]
  {
    var sorted := Sort(Ascending(), values);
    SortSorts(Ascending(), values);
    InSorted(Ascending(), values, x);
    var k :| 0 <= k < |sorted| && sorted[k] == x;
    AscendingAt(sorted, k, |sorted| - 1);
  }

  /** A higher percentage is a later value. */
  lemma PercentilesAscend(values: seq<real>, p: nat, q: nat)
    requires |values| > 0 && 1 <= p <= q <= 100
    ensures Percentile(Sort(Ascending(), values), p) <= Percentile(Sort(Ascending(), values), q)
    ensures Percentile(Sort(Ascending(), values), q) <= Sort(Ascending(), values)[|values| - 1]
  {
    var sorted := Sort(Ascending(), values);
    SortSorts(Ascending(), values);
    var i := PercentileAt(sorted, p);
    var j := PercentileAt(sorted, q);
    RankGrows(p, q, |sorted|);
    AscendingAt(sorted, i, j);
    AscendingAt(sorted, j, |sorted| - 1);
  }

  /** The three figures of a run are values of the run, in order, and nothing exceeds the last. */
  lemma DistributionIsOrdered(values: seq<real>)
    requires |values| > 0
    ensures var d := DistributionOf(values).value;
            && d.n == |values| && d.p50 <= d.p90 <= d.max
            && d.p50 in values && d.p90 in values && d.max in values
            && forall x | x in values :: x <= d.max
  {
    var d := DistributionOf(values).value;
    PercentileIff(values, 50, d.p50);
    PercentileIff(values, 90, d.p90);
    PercentilesAscend(values, 50, 90);
    InSorted(Ascending(), values, d.max);
    forall x | x in values ensures x <= d.max {
      LastIsGreatest(values, x);
    }
  }

  // ------------------------------------------------------------ derived bounds

  function Pow2(e: nat): (r: nat)
    ensures r >= 1
  {
    if e == 0 then 1 else 2 * Pow2(e - 1)
  }

  /** `nextPowerOfTwo`: a power of two that covers the value whenever 2^52 does, and then the
      least such. */
  method NextPowerOfTwo(value: real) returns (power: nat)
    ensures exists e: nat | e <= 52 :: power == Pow2(e)
    ensures power as real >= value <==> value <= Pow2(52) as real
    ensures 1.0 < value <= Pow2(52) as real ==> power as real < 2.0 * value
    ensures value <= 1.0 ==> power == 1
    ensures value > Pow2(52) as real ==> power == Pow2(52)
  {
    assert Pow2(0) == 1;
    if value <= 1.0 {
      PowGrows(0, 52);
      return 1;
    }
    power := 1;
    for exponent := 0 to 52
      invariant power == Pow2(exponent)
      invariant exponent > 0 ==> Pow2(exponent - 1) as real < value
    {
      if power as real >= value {
        PowGrows(exponent, 52);
        return;
      }
      power := power * 2;
    }
  }

  lemma {:induction false} PowGrows(e: nat, f: nat)
    requires e <= f
    ensures Pow2(e) <= Pow2(f)
    decreases f - e
  {
    if e < f { PowGrows(e, f - 1); }
  }

  const CURRENT_RECORDINGS_NARRATED_PER_TICK: nat := 25
  const TICK_INTERVAL_MS := 600000.0
  const TICK_DUTY_CYCLE := 0.5

  datatype DerivedConstants = DerivedConstants(maxPullBytes: nat, measuredP90PullMs: real, recordingsNarratedPerTick: int)

  function PerTick(p90Ms: real): int {
    if p90Ms <= 0.0 then CURRENT_RECORDINGS_NARRATED_PER_TICK
    else
      var fits := (TICK_DUTY_CYCLE * TICK_INTERVAL_MS / p90Ms).Floor;
      if fits < CURRENT_RECORDINGS_NARRATED_PER_TICK then fits else CURRENT_RECORDINGS_NARRATED_PER_TICK
  }

  /** `deriveConstants`. */
  method DeriveConstants(p90Bytes: real, p90Ms: real) returns (c: DerivedConstants)
    ensures c.measuredP90PullMs == p90Ms && c.recordingsNarratedPerTick == PerTick(p90Ms)
    ensures exists e: nat | e <= 52 :: c.maxPullBytes == Pow2(e)
    ensures c.maxPullBytes as real >= p90Bytes <==> p90Bytes <= Pow2(52) as real
    ensures 1.0 < p90Bytes <= Pow2(52) as real ==> c.maxPullBytes as real < 2.0 * p90Bytes
  {
    var bytes := NextPowerOfTwo(p90Bytes);
    c := DerivedConstants(bytes, p90Ms, PerTick(p90Ms));
  }

  lemma DivideBack(a: real, b: real, k: int)
    requires b > 0.0
    ensures k as real <= a / b <==> k as real * b <= a
  {
    assert a / b * b == a;
    if k as real <= a / b {
      assert (a / b - k as real) * b >= 0.0;
    } else {
      assert (k as real - a / b) * b > 0.0;
    }
  }

  /** The per-tick figure is the largest that is at most 25 and fits half the tick interval. */
  lemma PerTickFits(p90Ms: real, k: int)
    requires p90Ms > 0.0
    ensures k <= PerTick(p90Ms) <==> k <= 25 && k as real * p90Ms <= 300000.0
  {
    var budget := TICK_DUTY_CYCLE * TICK_INTERVAL_MS;
    DivideBack(budget, p90Ms, k);
    assert k <= (budget / p90Ms).Floor <==> k as real <= budget / p90Ms;
  }

  /** The figure is never negative, and it is zero, so that no recording would ever be
      narrated, exactly when one pull at the 90th percentile takes more than half the interval. */
  lemma PerTickIsZeroIff(p90Ms: real)
    ensures 0 <= PerTick(p90Ms) <= 25 && (p90Ms <= 0.0 ==> PerTick(p90Ms) == 25)
    ensures PerTick(p90Ms) == 0 <==> p90Ms > 300000.0
  {
    if p90Ms > 0.0 {
      PerTickFits(p90Ms, 0);
      PerTickFits(p90Ms, 1);
    }
  }

  // --------------------------------------------------------------- the summary

  datatype PullOutcome = Pulled | Partial | TimedOut | Errored

  datatype PullRecord = PullRecord(outcome: PullOutcome, bytes: real, largestResponseBytes: real, wallClockMs: real)

  datatype ProbeSummary = ProbeSummary(
    n: nat, nPulled: nat, nPartial: nat, nTimedOut: nat, nErrored: nat,
    bytes: Distribution, wallClock: Distribution,
    totalBytes: real, largestResponseBytes: real)

  function BytesOf(records: seq<PullRecord>): (r: seq<real>)
    ensures |r| == |records| && forall i | 0 <= i < |r| :: r[i] == records[i].bytes
  {
    seq(|records|, i requires 0 <= i < |records| => records[i].bytes)
  }

  function ClocksOf(records: seq<PullRecord>): (r: seq<real>)
    ensures |r| == |records| && forall i | 0 <= i < |r| :: r[i] == records[i].wallClockMs
  {
    seq(|records|, i requires 0 <= i < |records| => records[i].wallClockMs)
  }

  function HasOutcome(outcome: PullOutcome): PullRecord -> bool {
    (r: PullRecord) => r.outcome == outcome
  }

  function Count(records: seq<PullRecord>, outcome: PullOutcome): nat {
    |Filter(HasOutcome(outcome), records)|
  }

  function SumOf(values: seq<real>): real {
    if values == [] then 0.0 else SumOf(values[..|values| - 1]) + values[|values| - 1]
  }

  function LargestOf(records: seq<PullRecord>): real {
    if records == [] then 0.0
    else
      var before, last := LargestOf(records[..|records| - 1]), records[|records| - 1].largestResponseBytes;
      if before < last then last else before
  }

  /** `summarise`. */
  function Summarise(records: seq<PullRecord>): Option<ProbeSummary> {
    var bytes, wallClock := DistributionOf(BytesOf(records)), DistributionOf(ClocksOf(records));
    if bytes.None? || wallClock.None? then None
    else
      Some(ProbeSummary(|records|, Count(records, Pulled), Count(records, Partial), Count(records, TimedOut),
                        Count(records, Errored), bytes.value, wallClock.value, SumOf(BytesOf(records)),
                        LargestOf(records)))
  }

  lemma {:induction false} OutcomesPartition(records: seq<PullRecord>)
    ensures Count(records, Pulled) + Count(records, Partial) + Count(records, TimedOut) + Count(records, Errored)
            == |records|
  {
    if records != [] {
      OutcomesPartition(records[..|records| - 1]);
    }
  }

  lemma {:induction false} SumCovers(values: seq<real>, i: nat)
    requires i < |values| && forall j | 0 <= j < |values| :: values[j] >= 0.0
    ensures values[i] <= SumOf(values)
  {
    var n := |values| - 1;
    if i < n { SumCovers(values[..n], i); } else { SumIsPositive(values[..n]); }
  }

  lemma {:induction false} SumIsPositive(values: seq<real>)
    requires forall j | 0 <= j < |values| :: values[j] >= 0.0
    ensures SumOf(values) >= 0.0
  {
    if values != [] { SumIsPositive(values[..|values| - 1]); }
  }

  lemma SumNext(values: seq<real>, x: real)
    ensures SumOf([]) == 0.0 && SumOf(values + [x]) == SumOf(values) + x
  {
    assert (values + [x])[..|values|] == values;
  }

  lemma {:induction false} LargestIs(records: seq<PullRecord>)
    ensures LargestOf(records) >= 0.0 && forall r | r in records :: r.largestResponseBytes <= LargestOf(records)
    ensures LargestOf(records) == 0.0 || exists r | r in records :: r.largestResponseBytes == LargestOf(records)
  {
    if records != [] {
      var front, last := records[..|records| - 1], records[|records| - 1];
      LargestIs(front);
      assert records == front + [last];
      assert forall r :: r in records <==> r in front || r == last;
    }
  }

  /** One recording more moves the count of its own outcome and the bytes, and nothing else of
      the sums; the largest answer is the greatest of the run's, and no less than zero. */
  lemma SummaryNext(records: seq<PullRecord>, x: PullRecord)
    requires records != []
    ensures var s, t := Summarise(records), Summarise(records + [x]);
            && s.Some? && t.Some? && t.value.n == s.value.n + 1
            && t.value.nPulled == s.value.nPulled + (if x.outcome.Pulled? then 1 else 0)
            && t.value.nPartial == s.value.nPartial + (if x.outcome.Partial? then 1 else 0)
            && t.value.nTimedOut == s.value.nTimedOut + (if x.outcome.TimedOut? then 1 else 0)
            && t.value.nErrored == s.value.nErrored + (if x.outcome.Errored? then 1 else 0)
            && t.value.totalBytes == s.value.totalBytes + x.bytes
            && (forall r | r in records :: r.largestResponseBytes <= s.value.largestResponseBytes)
            && (s.value.largestResponseBytes == 0.0
                || exists r | r in records :: r.largestResponseBytes == s.value.largestResponseBytes)
  {
    forall o ensures Count(records + [x], o) == Count(records, o) + if x.outcome == o then 1 else 0 {
      FilterCount(HasOutcome(o), records, x);
    }
    SumNext(BytesOf(records), x.bytes);
    assert BytesOf(records + [x]) == BytesOf(records) + [x.bytes];
    LargestIs(records);
  }

  /** A summary exists exactly for a non-empty run, and every recording falls under exactly one
      outcome; the largest recording is no larger than all of them together. */
  lemma SummaryAccounts(records: seq<PullRecord>)
    ensures Summarise(records).Some? <==> records != []
    ensures records != [] ==>
              var s := Summarise(records).value;
              && s.n == s.bytes.n == s.wallClock.n == s.nPulled + s.nPartial + s.nTimedOut + s.nErrored
              && ((forall r | r in records :: r.bytes >= 0.0) ==> s.bytes.max <= s.totalBytes)
  {
    OutcomesPartition(records);
    if records != [] {
      DistributionIsOrdered(BytesOf(records));
      DistributionIsOrdered(ClocksOf(records));
      var s := Summarise(records).value;
      var i :| 0 <= i < |records| && BytesOf(records)[i] == s.bytes.max;
      if forall r | r in records :: r.bytes >= 0.0 { SumCovers(BytesOf(records), i); }
    }
  }

  /** How many recordings of a run a byte bound lets through. */
  function WithinBytes(records: seq<PullRecord>, bound: real): nat {
    CountAtMost(BytesOf(records), bound)
  }

  /** A byte bound lets at least nine recordings in ten of the run through exactly when it
      reaches the run's 90th percentile. */
  lemma BoundCoversIff(records: seq<PullRecord>, bound: real)
    requires records != []
    ensures WithinBytes(records, bound) * 10 >= 9 * |records| <==> Summarise(records).value.bytes.p90 <= bound
  {
    PercentileIff(BytesOf(records), 90, bound);
  }

  /** From a run to its bounds: the derived byte bound lets nine recordings in ten of that run
      through exactly when 2^52 covers the 90th percentile, and it is below twice that
      percentile; nine pulls in ten fit the time the per-tick figure allots to one. */
  method BoundsOfRun(records: seq<PullRecord>) returns (r: Option<DerivedConstants>)
    ensures r.None? <==> records == []
    ensures r.Some? ==>
              var s := Summarise(records).value;
              && (WithinBytes(records, r.value.maxPullBytes as real) * 10 >= 9 * |records| <==>
                  s.bytes.p90 <= Pow2(52) as real)
              && (1.0 < s.bytes.p90 <= Pow2(52) as real ==> r.value.maxPullBytes as real < 2.0 * s.bytes.p90)
              && r.value.recordingsNarratedPerTick == PerTick(s.wallClock.p90)
              && CountAtMost(ClocksOf(records), r.value.measuredP90PullMs) * 10 >= 9 * |records|
  {
    var s := Summarise(records);
    if s.None? { return None; }
    var c := DeriveConstants(s.value.bytes.p90, s.value.wallClock.p90);
    BoundCoversIff(records, c.maxPullBytes as real);
    PercentileIff(ClocksOf(records), 90, c.measuredP90PullMs);
    return Some(c);
  }
}
