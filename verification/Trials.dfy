/** A retrieval trial: capture one marker, then poll the endpoints until every endpoint that
    ever answered has returned the marker, or until the timeout. */
module Trials {
  import opened Common

  datatype Endpoint = Events | Query | Recordings

  const ENDPOINTS: seq<Endpoint> := [Events, Query, Recordings]

  function Rank(e: Endpoint): (r: nat)
    ensures r < 3 && ENDPOINTS[r] == e
  {
    match e
    case Events => 0
    case Query => 1
    case Recordings => 2
  }

  datatype Answer = Answer(matched: bool, http429: bool, parseFailed: bool)

  type Tick = map<Endpoint, Answer>

  /** What the outside world does in one trial: the answers of each polling round and the
      clock read after it, round by round. */
  datatype World = World(captured: bool, attemptAt: int, t0: int, poll: nat -> Tick, clock: nat -> int)
  {
    /** The clock moves on between any two rounds. */
    ghost predicate Advances() {
      forall m: nat, n: nat | m < n :: clock(m) < clock(n)
    }

    predicate MatchedIn(e: Endpoint, n: nat) {
      e in poll(n) && poll(n)[e].matched
    }

    /** The first of rounds `0..n` in which the endpoint returned the marker. */
    function First(e: Endpoint, n: nat): (r: Option<nat>)
      ensures r.Some? ==> r.value < n && MatchedIn(e, r.value)
      ensures forall m: nat | m < (if r.Some? then r.value else n) :: !MatchedIn(e, m)
    {
      if n == 0 then None
      else if First(e, n - 1).Some? then First(e, n - 1)
      else if MatchedIn(e, n - 1) then Some(n - 1) else None
    }

    /** The endpoint answered in one of rounds `0..n`. */
    predicate Seen(e: Endpoint, n: nat) {
      n > 0 && (Seen(e, n - 1) || e in poll(n - 1))
    }

    /** Every endpoint that ever answered has returned the marker, and one did answer. */
    ghost predicate Satisfied(n: nat) {
      (exists e :: Seen(e, n)) && forall e :: Seen(e, n) ==> First(e, n).Some?
    }

    predicate Expired(n: nat, timeoutMs: int) {
      n > 0 && clock(n - 1) - t0 >= timeoutMs
    }

    function Sum429(n: nat): nat {
      if n == 0 then 0 else Sum429(n - 1) + Among(n - 1, 3, true)
    }

    function SumParse(n: nat): nat {
      if n == 0 then 0 else SumParse(n - 1) + Among(n - 1, 3, false)
    }

    /** Rate limits, or parse failures, among the first `k` endpoints of a round. */
    function Among(n: nat, k: nat, rateLimits: bool): nat
      requires k <= 3
    {
      if k == 0 then 0
      else
        var e := ENDPOINTS[k - 1];
        Among(n, k - 1, rateLimits)
        + if e in poll(n) && (if rateLimits then poll(n)[e].http429 else poll(n)[e].parseFailed) then 1 else 0
    }
  }

  function Counted(tick: Tick, e: Endpoint, rateLimits: bool): nat {
    if e in tick && (if rateLimits then tick[e].http429 == true else tick[e].parseFailed == true) then 1 else 0
  }

  /** A round adds to either count one for each endpoint that answered so. */
  lemma RoundCounts(w: World, n: nat)
    ensures w.Sum429(0) == w.SumParse(0) == 0
    ensures w.Sum429(n + 1) == w.Sum429(n) + Counted(w.poll(n), Events, true) + Counted(w.poll(n), Query, true)
                               + Counted(w.poll(n), Recordings, true)
    ensures w.SumParse(n + 1) == w.SumParse(n) + Counted(w.poll(n), Events, false) + Counted(w.poll(n), Query, false)
                                 + Counted(w.poll(n), Recordings, false)
  {
    forall b ensures w.Among(n, 3, b) == Counted(w.poll(n), Events, b) + Counted(w.poll(n), Query, b)
                                         + Counted(w.poll(n), Recordings, b) {
      assert w.Among(n, 1, b) == Counted(w.poll(n), Events, b);
      assert w.Among(n, 2, b) == w.Among(n, 1, b) + Counted(w.poll(n), Query, b);
    }
  }

  datatype Outcome = Retrieved | TimedOut | Errored

  datatype Record = Record(
    captureTimestamp: int,
    firstRetrievable: Option<int>,
    elapsed: map<Endpoint, int>,
    outcome: Outcome,
    satisfying: Option<Endpoint>,
    http429Count: nat,
    parseFailureCount: nat)

  // ------------------------------------------------------- the loop's variables

  datatype Progress = Progress(
    elapsed: map<Endpoint, int>,
    reported: set<Endpoint>,
    satisfying: Option<Endpoint>,
    firstRetrievable: Option<int>,
    http429: nat,
    parseFailures: nat)

  /** How many rounds of an endpoint are in, `k` endpoints into round `n`. */
  function RoundsOf(e: Endpoint, n: nat, k: nat): nat {
    if Rank(e) < k then n + 1 else n
  }

  function FirstOf(w: World, e: Endpoint, n: nat, k: nat): (r: Option<nat>)
    ensures r.Some? ==> r.value < RoundsOf(e, n, k)
  {
    w.First(e, RoundsOf(e, n, k))
  }

  /** `e` returned the marker no later than any other endpoint, and among those of the same
      round it is the first in polling order. */
  ghost predicate Wins(w: World, e: Endpoint, n: nat, k: nat) {
    && FirstOf(w, e, n, k).Some?
    && forall o | FirstOf(w, o, n, k).Some? ::
         var mine, theirs := FirstOf(w, e, n, k).value, FirstOf(w, o, n, k).value;
         mine < theirs || (mine == theirs && Rank(e) <= Rank(o))
  }

  ghost predicate TracksTimes(w: World, n: nat, k: nat, elapsed: map<Endpoint, int>) {
    forall e ::
      && (e in elapsed <==> FirstOf(w, e, n, k).Some?)
      && (e in elapsed ==> elapsed[e] == w.clock(FirstOf(w, e, n, k).value) - w.t0)
  }

  ghost predicate TracksReports(w: World, n: nat, k: nat, reported: set<Endpoint>) {
    forall e :: e in reported <==> w.Seen(e, RoundsOf(e, n, k))
  }

  ghost predicate NobodyYet(w: World, n: nat, k: nat) {
    forall e :: FirstOf(w, e, n, k).None?
  }

  ghost predicate TracksWinner(w: World, n: nat, k: nat, satisfying: Option<Endpoint>, at: Option<int>) {
    match satisfying
    case None => at.None? && NobodyYet(w, n, k)
    case Some(e) => Wins(w, e, n, k) && at == Some(w.clock(FirstOf(w, e, n, k).value))
  }

  ghost predicate Tracks(w: World, n: nat, k: nat, p: Progress)
    requires k <= 3
  {
    && TracksTimes(w, n, k, p.elapsed) && TracksReports(w, n, k, p.reported)
    && TracksWinner(w, n, k, p.satisfying, p.firstRetrievable)
    && p.http429 == w.Sum429(n) + w.Among(n, k, true)
    && p.parseFailures == w.SumParse(n) + w.Among(n, k, false)
  }

  lemma OneEndpointMore(w: World, e: Endpoint, n: nat, k: nat)
    requires k < 3
    ensures FirstOf(w, e, n, k + 1) ==
            if Rank(e) == k && FirstOf(w, e, n, k).None? && w.MatchedIn(e, n) then Some(n) else FirstOf(w, e, n, k)
    ensures w.Seen(e, RoundsOf(e, n, k + 1)) <==> w.Seen(e, RoundsOf(e, n, k)) || (Rank(e) == k && e in w.poll(n))
  {
  }

  lemma TimesStep(w: World, n: nat, k: nat, elapsed: map<Endpoint, int>)
    requires k < 3 && TracksTimes(w, n, k, elapsed)
    ensures var e := ENDPOINTS[k];
            TracksTimes(w, n, k + 1,
              if w.MatchedIn(e, n) && e !in elapsed then elapsed[e := w.clock(n) - w.t0] else elapsed)
  {
    forall e ensures FirstOf(w, e, n, k + 1) ==
                     if Rank(e) == k && FirstOf(w, e, n, k).None? && w.MatchedIn(e, n) then Some(n)
                     else FirstOf(w, e, n, k)
    {
      OneEndpointMore(w, e, n, k);
    }
  }

  lemma ReportsStep(w: World, n: nat, k: nat, reported: set<Endpoint>)
    requires k < 3 && TracksReports(w, n, k, reported)
    ensures var e := ENDPOINTS[k];
            TracksReports(w, n, k + 1, if e in w.poll(n) then reported + {e} else reported)
  {
    forall e ensures w.Seen(e, RoundsOf(e, n, k + 1)) <==>
                     w.Seen(e, RoundsOf(e, n, k)) || (Rank(e) == k && e in w.poll(n))
    {
      OneEndpointMore(w, e, n, k);
    }
  }

  /** An earlier winner stays: the endpoint now read comes in a later round or at a later rank. */
  lemma WinnerStays(w: World, n: nat, k: nat, e: Endpoint)
    requires k < 3 && Wins(w, e, n, k)
    ensures Wins(w, e, n, k + 1) && FirstOf(w, e, n, k + 1) == FirstOf(w, e, n, k)
  {
    OneEndpointMore(w, e, n, k);
    forall o | FirstOf(w, o, n, k + 1).Some?
      ensures var mine, theirs := FirstOf(w, e, n, k + 1).value, FirstOf(w, o, n, k + 1).value;
              mine < theirs || (mine == theirs && Rank(e) <= Rank(o))
    {
      OneEndpointMore(w, o, n, k);
    }
  }

  lemma WinnerAppears(w: World, n: nat, k: nat)
    requires k < 3 && NobodyYet(w, n, k)
    ensures var e := ENDPOINTS[k];
            if w.MatchedIn(e, n) then Wins(w, e, n, k + 1) && FirstOf(w, e, n, k + 1) == Some(n)
            else NobodyYet(w, n, k + 1)
  {
    forall o ensures FirstOf(w, o, n, k + 1) ==
                     if Rank(o) == k && w.MatchedIn(o, n) then Some(n) else None
    {
      OneEndpointMore(w, o, n, k);
    }
  }

  lemma WinnerStep(w: World, n: nat, k: nat, p: Progress)
    requires k < 3 && Tracks(w, n, k, p)
    ensures var e := ENDPOINTS[k];
            if w.MatchedIn(e, n) && e !in p.elapsed && p.satisfying.None?
            then TracksWinner(w, n, k + 1, Some(e), Some(w.clock(n)))
            else TracksWinner(w, n, k + 1, p.satisfying, p.firstRetrievable)
  {
    if p.satisfying.Some? {
      WinnerStays(w, n, k, p.satisfying.value);
    } else {
      WinnerAppears(w, n, k);
      assert FirstOf(w, ENDPOINTS[k], n, k).None?;
    }
  }

  /** One endpoint's answer of one round. */
  method ReadAnswer(w: World, n: nat, k: nat, p: Progress) returns (q: Progress)
    requires k < 3 && Tracks(w, n, k, p)
    ensures Tracks(w, n, k + 1, q)
  {
    TimesStep(w, n, k, p.elapsed);
    ReportsStep(w, n, k, p.reported);
    WinnerStep(w, n, k, p);
    var endpoint := ENDPOINTS[k];
    var tick, tickNow := w.poll(n), w.clock(n);
    var elapsed, reported, satisfying, first := p.elapsed, p.reported, p.satisfying, p.firstRetrievable;
    var http429, parseFailures := p.http429, p.parseFailures;
    if endpoint in tick {
      var answer := tick[endpoint];
      reported := reported + {endpoint};
      if answer.http429 { http429 := http429 + 1; }
      if answer.parseFailed { parseFailures := parseFailures + 1; }
      if answer.matched && endpoint !in elapsed {
        elapsed := elapsed[endpoint := tickNow - w.t0];
        if satisfying.None? {
          satisfying, first := Some(endpoint), Some(tickNow);
        }
      }
    }
    assert http429 == w.Sum429(n) + w.Among(n, k + 1, true);
    assert parseFailures == w.SumParse(n) + w.Among(n, k + 1, false);
    assert TracksWinner(w, n, k + 1, satisfying, first);
    q := Progress(elapsed, reported, satisfying, first, http429, parseFailures);
  }

  /** One polling round. */
  method ReadTick(w: World, n: nat, p: Progress) returns (q: Progress)
    requires Tracks(w, n, 0, p)
    ensures Tracks(w, n + 1, 0, q)
  {
    q := p;
    for k := 0 to 3
      invariant Tracks(w, n, k, q)
    {
      q := ReadAnswer(w, n, k, q);
    }
    RoundDone(w, n, q);
  }

  lemma RoundDone(w: World, n: nat, p: Progress)
    requires Tracks(w, n, 3, p)
    ensures Tracks(w, n + 1, 0, p)
  {
    assert forall e :: FirstOf(w, e, n, 3) == FirstOf(w, e, n + 1, 0);
    assert forall e :: RoundsOf(e, n, 3) == RoundsOf(e, n + 1, 0);
  }

  // ---------------------------------------------------------------- the trial

  /** The round count at which the loop breaks: the first at which every endpoint seen is
      satisfied or the timeout has passed. */
  ghost predicate StopsAt(w: World, timeoutMs: int, n: nat) {
    n > 0 && (w.Satisfied(n) || w.Expired(n, timeoutMs)) && StillOpen(w, timeoutMs, n - 1)
  }

  ghost predicate StillOpen(w: World, timeoutMs: int, n: nat) {
    forall m: nat | 0 < m <= n :: !w.Satisfied(m) && !w.Expired(m, timeoutMs)
  }

  lemma NothingYet(w: World)
    ensures Tracks(w, 0, 0, Progress(map[], {}, None, None, 0, 0))
  {
  }

  /** What one record says of the world, `n` rounds in. */
  ghost predicate Records(w: World, timeoutMs: int, n: nat, r: Record) {
    && r.captureTimestamp == w.t0
    && (forall e :: e in r.elapsed <==> w.Seen(e, n))
    && (forall e | e in r.elapsed ::
          r.elapsed[e] == match w.First(e, n) case Some(m) => w.clock(m) - w.t0 case None => timeoutMs)
    && (r.outcome == if r.satisfying.Some? then Retrieved else TimedOut)
    && (r.satisfying.None? <==> forall e :: w.First(e, n).None?)
    && (r.satisfying.None? ==> r.firstRetrievable.None?)
    && (r.satisfying.Some? ==>
          && Wins(w, r.satisfying.value, n, 0)
          && r.firstRetrievable == Some(w.clock(w.First(r.satisfying.value, n).value)))
    && r.http429Count == w.Sum429(n) && r.parseFailureCount == w.SumParse(n)
  }

  lemma {:induction false} FirstIsSeen(w: World, e: Endpoint, n: nat)
    requires w.First(e, n).Some?
    ensures w.Seen(e, n)
  {
    if w.First(e, n - 1).Some? { FirstIsSeen(w, e, n - 1); }
  }

  lemma SatisfiedMeans(w: World, n: nat, p: Progress)
    requires Tracks(w, n, 0, p)
    ensures w.Satisfied(n) <==> p.reported != {} && p.reported <= p.elapsed.Keys
    ensures p.elapsed.Keys <= p.reported
  {
    forall e
      ensures e in p.reported <==> w.Seen(e, n)
      ensures e in p.elapsed.Keys <==> w.First(e, n).Some?
      ensures w.First(e, n).Some? ==> w.Seen(e, n)
    {
      assert RoundsOf(e, n, 0) == n && FirstOf(w, e, n, 0) == w.First(e, n);
      if w.First(e, n).Some? { FirstIsSeen(w, e, n); }
    }
    if p.reported != {} {
      var e :| e in p.reported;
      assert w.Seen(e, n);
    }
  }

  /** Endpoints that answered without the marker are given the timeout. */
  ghost predicate Filled(reported: set<Endpoint>, before: map<Endpoint, int>, timeoutMs: int, elapsed: map<Endpoint, int>) {
    forall e ::
      && (e in elapsed <==> e in before || e in reported)
      && (e in elapsed ==> elapsed[e] == if e in before then before[e] else timeoutMs)
  }

  lemma NothingToFill(reported: set<Endpoint>, elapsed: map<Endpoint, int>, timeoutMs: int)
    requires reported <= elapsed.Keys
    ensures Filled(reported, elapsed, timeoutMs, elapsed)
  {
  }

  method FillTimeouts(reported: set<Endpoint>, before: map<Endpoint, int>, timeoutMs: int)
    returns (elapsed: map<Endpoint, int>)
    ensures Filled(reported, before, timeoutMs, elapsed)
  {
    elapsed := before;
    var left := reported;
    ghost var done: set<Endpoint> := {};
    while left != {}
      invariant done + left == reported && Filled(done, before, timeoutMs, elapsed)
      decreases left
    {
      var e :| e in left;
      if e !in elapsed { elapsed := elapsed[e := timeoutMs]; }
      left, done := left - {e}, done + {e};
    }
  }

  function RecordOf(w: World, p: Progress, elapsed: map<Endpoint, int>): Record {
    Record(w.t0, p.firstRetrievable, elapsed, if p.satisfying.Some? then Retrieved else TimedOut,
           p.satisfying, p.http429, p.parseFailures)
  }

  /** What was filled in is what the record is to say of each endpoint. */
  lemma FilledMeans(w: World, timeoutMs: int, n: nat, p: Progress, elapsed: map<Endpoint, int>, e: Endpoint)
    requires Tracks(w, n, 0, p) && Filled(p.reported, p.elapsed, timeoutMs, elapsed)
    ensures e in elapsed <==> w.Seen(e, n)
    ensures e in elapsed ==> elapsed[e] == match w.First(e, n) case Some(m) => w.clock(m) - w.t0 case None => timeoutMs
  {
    assert RoundsOf(e, n, 0) == n && FirstOf(w, e, n, 0) == w.First(e, n);
    if w.First(e, n).Some? { FirstIsSeen(w, e, n); }
  }

  lemma Concluded(w: World, timeoutMs: int, n: nat, p: Progress, elapsed: map<Endpoint, int>)
    requires Tracks(w, n, 0, p)
    requires Filled(p.reported, p.elapsed, timeoutMs, elapsed)
    ensures Records(w, timeoutMs, n, RecordOf(w, p, elapsed))
  {
    forall e
      ensures e in elapsed <==> w.Seen(e, n)
      ensures e in elapsed ==>
                elapsed[e] == match w.First(e, n) case Some(m) => w.clock(m) - w.t0 case None => timeoutMs
    {
      FilledMeans(w, timeoutMs, n, p, elapsed, e);
    }
    if p.satisfying.Some? {
      assert FirstOf(w, p.satisfying.value, n, 0) == w.First(p.satisfying.value, n);
    } else {
      forall e ensures w.First(e, n).None? {
        assert FirstOf(w, e, n, 0) == w.First(e, n);
      }
    }
  }

  /** Whether the rounds so far end the trial, and what it then records. */
  method Conclude(w: World, timeoutMs: int, n: nat, q: Progress) returns (done: bool, elapsed: map<Endpoint, int>)
    requires n > 0 && Tracks(w, n, 0, q)
    ensures done <==> w.Satisfied(n) || w.Expired(n, timeoutMs)
    ensures done ==> Records(w, timeoutMs, n, RecordOf(w, q, elapsed))
  {
    elapsed := q.elapsed;
    SatisfiedMeans(w, n, q);
    if q.reported != {} && q.reported <= q.elapsed.Keys {
      NothingToFill(q.reported, q.elapsed, timeoutMs);
      done := true;
    } else if w.clock(n - 1) - w.t0 >= timeoutMs {
      done := true;
      elapsed := FillTimeouts(q.reported, q.elapsed, timeoutMs);
    } else {
      return false, elapsed;
    }
    Concluded(w, timeoutMs, n, q, elapsed);
  }

  /** One turn of the loop: a round, then whether it ends the trial. */
  method PollOnce(w: World, timeoutMs: int, n: nat, p: Progress)
    returns (q: Progress, done: bool, elapsed: map<Endpoint, int>)
    requires Tracks(w, n, 0, p)
    ensures Tracks(w, n + 1, 0, q)
    ensures done <==> w.Satisfied(n + 1) || w.Expired(n + 1, timeoutMs)
    ensures done ==> Records(w, timeoutMs, n + 1, RecordOf(w, q, elapsed))
  {
    q := ReadTick(w, n, p);
    done, elapsed := Conclude(w, timeoutMs, n + 1, q);
  }

  lemma OneRoundMore(w: World, timeoutMs: int, n: nat)
    requires StillOpen(w, timeoutMs, n)
    ensures if w.Satisfied(n + 1) || w.Expired(n + 1, timeoutMs) then StopsAt(w, timeoutMs, n + 1)
            else StillOpen(w, timeoutMs, n + 1)
  {
  }

  /** The endless loop, which ends on a clock that advances. */
  method PollUntilDone(w: World, timeoutMs: int) returns (p: Progress, elapsed: map<Endpoint, int>, rounds: nat)
    requires w.Advances()
    ensures StopsAt(w, timeoutMs, rounds) && Records(w, timeoutMs, rounds, RecordOf(w, p, elapsed))
  {
    p, elapsed, rounds := Progress(map[], {}, None, None, 0, 0), map[], 0;
    NothingYet(w);
    while true
      invariant Tracks(w, rounds, 0, p) && StillOpen(w, timeoutMs, rounds)
      decreases w.t0 + timeoutMs - w.clock(rounds)
    {
      var done;
      p, done, elapsed := PollOnce(w, timeoutMs, rounds, p);
      OneRoundMore(w, timeoutMs, rounds);
      rounds := rounds + 1;
      if done { return; }
      assert w.clock(rounds - 1) < w.clock(rounds);
    }
  }

  /** `runOneTrial`: on a clock that advances it ends, by full satisfaction or by the timeout,
      and its record says what the rounds it ran showed. */
  method RunOneTrial(w: World, timeoutMs: int) returns (r: Record, rounds: nat)
    requires w.Advances()
    ensures !w.captured ==> r == Record(w.attemptAt, None, map[], Errored, None, 0, 0)
    ensures w.captured ==> StopsAt(w, timeoutMs, rounds) && Records(w, timeoutMs, rounds, r)
  {
    if !w.captured {
      return Record(w.attemptAt, None, map[], Errored, None, 0, 0), 0;
    }
    var p, elapsed;
    p, elapsed, rounds := PollUntilDone(w, timeoutMs);
    r := RecordOf(w, p, elapsed);
  }

  /** Every round but the last ends within the timeout, and the last, unless every endpoint that
      answered has returned the marker, does not. */
  lemma EndsInTime(w: World, timeoutMs: int, n: nat)
    requires StopsAt(w, timeoutMs, n)
    ensures forall m: nat | m < n - 1 :: w.clock(m) < w.t0 + timeoutMs
    ensures w.Satisfied(n) || w.t0 + timeoutMs <= w.clock(n - 1)
  {
    forall m: nat | m < n - 1 ensures w.clock(m) < w.t0 + timeoutMs {
      assert !w.Expired(m + 1, timeoutMs);
    }
  }

  /** A retrieved trial's latency is its first sighting less the capture time, and no endpoint
      that returned the marker did so sooner. */
  lemma WinnersLatencyIsLeast(w: World, timeoutMs: int, n: nat, r: Record, e: Endpoint)
    requires w.Advances() && Records(w, timeoutMs, n, r) && r.outcome.Retrieved?
    ensures r.satisfying.value in r.elapsed && r.elapsed[r.satisfying.value] == r.firstRetrievable.value - w.t0
    ensures w.First(e, n).Some? ==> e in r.elapsed && r.elapsed[r.satisfying.value] <= r.elapsed[e]
  {
    var s := r.satisfying.value;
    assert FirstOf(w, s, n, 0) == w.First(s, n) && FirstOf(w, e, n, 0) == w.First(e, n);
    FirstIsSeen(w, s, n);
    if w.First(e, n).Some? {
      FirstIsSeen(w, e, n);
    }
  }

  /** An endpoint is given the timeout in place of a latency only when the trial timed out on
      it, and then every other endpoint that missed is given the same. */
  lemma TimeoutsOnlyOnExpiry(w: World, timeoutMs: int, n: nat, r: Record, e: Endpoint)
    requires StopsAt(w, timeoutMs, n) && Records(w, timeoutMs, n, r)
    requires e in r.elapsed && w.First(e, n).None?
    ensures r.elapsed[e] == timeoutMs && w.Expired(n, timeoutMs)
  {
    assert w.Seen(e, n);
  }

  /** Some endpoint answered and never returned the marker. */
  ghost predicate SomeoneMissed(w: World, n: nat) {
    exists e :: w.Seen(e, n) && w.First(e, n).None?
  }

  /** The winner's latency exceeds a recorded one exactly when the winner took longer than the
      timeout and some endpoint missed: the timeout that stands in for the miss is then the
      smaller. The winner was read in the very round that expired. */
  lemma UndercutIff(w: World, timeoutMs: int, n: nat, r: Record)
    requires w.Advances() && StopsAt(w, timeoutMs, n) && Records(w, timeoutMs, n, r) && r.outcome.Retrieved?
    ensures r.satisfying.value in r.elapsed
    ensures var winner := r.elapsed[r.satisfying.value];
            (exists e :: e in r.elapsed && r.elapsed[e] < winner) <==> winner > timeoutMs && SomeoneMissed(w, n)
    ensures r.elapsed[r.satisfying.value] > timeoutMs ==>
              w.Expired(n, timeoutMs) && w.First(r.satisfying.value, n) == Some(n - 1)
  {
    var s := r.satisfying.value;
    WinnersLatencyIsLeast(w, timeoutMs, n, r, s);
    var m := WinnersRound(w, timeoutMs, n, r);
    if e :| e in r.elapsed && r.elapsed[e] < r.elapsed[s] {
      WinnersLatencyIsLeast(w, timeoutMs, n, r, e);
      assert w.Seen(e, n) && w.First(e, n).None?;
    }
    if r.elapsed[s] > timeoutMs {
      LateWinnerIsLast(w, timeoutMs, n, m);
      if e :| w.Seen(e, n) && w.First(e, n).None? {
        assert e in r.elapsed && r.elapsed[e] == timeoutMs;
      }
    }
  }

  /** The round the winner was read in. */
  lemma WinnersRound(w: World, timeoutMs: int, n: nat, r: Record) returns (m: nat)
    requires w.Advances() && Records(w, timeoutMs, n, r) && r.outcome.Retrieved?
    ensures m < n && w.First(r.satisfying.value, n) == Some(m)
    ensures r.satisfying.value in r.elapsed && r.elapsed[r.satisfying.value] == w.clock(m) - w.t0
  {
    var s := r.satisfying.value;
    WinnersLatencyIsLeast(w, timeoutMs, n, r, s);
    assert FirstOf(w, s, n, 0) == w.First(s, n);
    m := w.First(s, n).value;
  }

  lemma LateWinnerIsLast(w: World, timeoutMs: int, n: nat, m: nat)
    requires StopsAt(w, timeoutMs, n) && m < n && w.clock(m) - w.t0 > timeoutMs
    ensures m == n - 1 && w.Expired(n, timeoutMs)
  {
    assert w.Expired(m + 1, timeoutMs);
  }

  /** It does happen: one endpoint finds the marker in a round that ends past the timeout, and
      another answers without it. */
  lemma TimeoutMayUndercutWinner(w: World, timeoutMs: int, r: Record)
    requires w.poll(0) == map[Events := Answer(true, false, false), Query := Answer(false, false, false)]
    requires w.Advances() && w.clock(0) - w.t0 > timeoutMs && Records(w, timeoutMs, 1, r)
    ensures StopsAt(w, timeoutMs, 1) && r.satisfying == Some(Events)
    ensures Query in r.elapsed && r.elapsed[Query] < r.elapsed[Events]
  {
    assert w.First(Events, 0).None? && w.First(Events, 1) == Some(0);
    assert w.First(Query, 0).None? && w.First(Query, 1).None? && w.First(Recordings, 1).None?;
    assert w.Seen(Query, 1) && w.Seen(Events, 1);
    var m := WinnersRound(w, timeoutMs, 1, r);
  }

  /** `runTrialLoop`: one record a trial, in order. */
  method RunTrialLoop(worlds: seq<World>, timeoutMs: int) returns (records: seq<Record>, rounds: seq<nat>)
    requires forall i | 0 <= i < |worlds| :: worlds[i].Advances()
    ensures |records| == |rounds| == |worlds|
    ensures forall i | 0 <= i < |worlds| && worlds[i].captured ::
              StopsAt(worlds[i], timeoutMs, rounds[i]) && Records(worlds[i], timeoutMs, rounds[i], records[i])
    ensures forall i | 0 <= i < |worlds| && !worlds[i].captured ::
              records[i] == Record(worlds[i].attemptAt, None, map[], Errored, None, 0, 0)
  {
    records, rounds := [], [];
    for i := 0 to |worlds|
      invariant |records| == |rounds| == i
      invariant forall j | 0 <= j < i && worlds[j].captured ::
                  StopsAt(worlds[j], timeoutMs, rounds[j]) && Records(worlds[j], timeoutMs, rounds[j], records[j])
      invariant forall j | 0 <= j < i && !worlds[j].captured ::
                  records[j] == Record(worlds[j].attemptAt, None, map[], Errored, None, 0, 0)
    {
      var r, n := RunOneTrial(worlds[i], timeoutMs);
      records, rounds := records + [r], rounds + [n];
    }
  }
}
