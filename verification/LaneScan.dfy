/** How the lane source turns a project's recent findings into delivery candidates and a
    count of what was delivered this week. */
module LaneScan {
  import opened Common
  import opened Sequences
  import opened Deliveries

  const DELIVERY_WEEK_MS: int := 7 * 24 * 60 * 60 * 1000
  const FINDINGS_CONSIDERED_PER_LANE: nat := 50
  const FINDINGS_READ_PER_LANE: nat := FINDINGS_CONSIDERED_PER_LANE * 4

  datatype Consult = Proceed | Suppress | ConsultThrew

  datatype Finding = Finding(
    id: string, createdAt: int, textHeld: bool, signatureReadable: bool, consult: Consult,
    deliveryReadThrew: bool, delivery: Option<Row>, checksThrew: bool, deliverable: bool)

  predicate IsBeforeCutover(f: Finding, cutover: Option<int>) {
    cutover.Some? && f.createdAt <= cutover.value
  }

  /** The rows that may spend one of the lane's slots. A consult that throws holds a row back
      for this tick; an unreadable signature is left for a later check. */
  predicate Eligible(f: Finding, cutover: Option<int>) {
    && !IsBeforeCutover(f, cutover)
    && !f.textHeld
    && (f.signatureReadable ==> f.consult.Proceed?)
  }

  /** An unreadable signature also fails the checks that build the message. */
  predicate Candidate(f: Finding, at: int) {
    && !IsSpokenFor(f.delivery, ClaimsExpireBefore(at))
    && f.signatureReadable && f.deliverable
  }

  /** A considered row at which the whole lane is given up: its delivery could not be read, or
      it is not spoken for and the checks that build its message threw. */
  predicate EndsLane(f: Finding, at: int) {
    f.deliveryReadThrew
    || (!IsSpokenFor(f.delivery, ClaimsExpireBefore(at)) && f.signatureReadable && f.checksThrew)
  }

  predicate Delivered(f: Finding, at: int) {
    WasPostedInWindow(f.delivery, at - DELIVERY_WEEK_MS, at)
  }

  function EligibleTest(cutover: Option<int>): Finding -> bool {
    f => Eligible(f, cutover)
  }

  function CandidateTest(at: int): Finding -> bool {
    f => Candidate(f, at)
  }

  function DeliveredTest(at: int): Finding -> bool {
    f => Delivered(f, at)
  }

  /** The declarative form: the first fifty eligible rows of those read. */
  function Considered(recent: seq<Finding>, cutover: Option<int>): seq<Finding> {
    Take(Filter(EligibleTest(cutover), recent), FINDINGS_CONSIDERED_PER_LANE)
  }

  function Candidates(considered: seq<Finding>, at: int): seq<Finding> {
    Filter(CandidateTest(at), considered)
  }

  function DeliveredThisWeek(considered: seq<Finding>, at: int): nat {
    |Filter(DeliveredTest(at), considered)|
  }

  /** The rows that passed while slots were left are considered ones, and they are all of them
      once the slots or the rows run out. */
  lemma ConsideredSoFar(recent: seq<Finding>, cutover: Option<int>, n: nat)
    requires n <= |recent| && |Filter(EligibleTest(cutover), recent[..n])| <= FINDINGS_CONSIDERED_PER_LANE
    ensures var seen := Filter(EligibleTest(cutover), recent[..n]);
            && (forall f | f in seen :: f in Considered(recent, cutover))
            && (n == |recent| || |seen| == FINDINGS_CONSIDERED_PER_LANE ==> seen == Considered(recent, cutover))
  {
    FilterSplit(EligibleTest(cutover), recent, n);
    var seen, considered := Filter(EligibleTest(cutover), recent[..n]), Considered(recent, cutover);
    if n == |recent| { assert recent[..n] == recent; }
    assert forall i | 0 <= i < |seen| :: seen[i] == considered[i];
  }

  /** What one considered row adds to the lane. */
  lemma OneConsidered(seen: seq<Finding>, f: Finding, at: int)
    ensures Candidates(seen + [f], at) == if Candidate(f, at) then Candidates(seen, at) + [f] else Candidates(seen, at)
    ensures DeliveredThisWeek(seen + [f], at) == DeliveredThisWeek(seen, at) + if Delivered(f, at) then 1 else 0
  {
    assert (seen + [f])[..|seen|] == seen;
    assert Candidates(seen, at) + [] == Candidates(seen, at);
  }

  /** A considered row counts toward the week exactly when it was posted at a known instant of the
      seven days up to the tick. */
  lemma DeliveredIff(f: Finding, at: int)
    ensures Delivered(f, at) <==>
            match f.delivery
            case Some(Posted(_, _, _, Some(t))) => at - 7 * 24 * 60 * 60 * 1000 <= t <= at
            case _ => false
  {
  }

  /** A row may spend a slot exactly when it is newer than the cutover, its text is not held, and
      the ledger let it proceed or its signature could not be read. */
  lemma EligibleIff(f: Finding, cutover: Option<int>)
    ensures Eligible(f, cutover) <==>
            && (match cutover case None => true case Some(c) => f.createdAt > c)
            && !f.textHeld && (f.consult == Proceed || !f.signatureReadable)
  {
  }

  /** A considered row is a candidate exactly when nothing speaks for it (no row, a failed one, or
      a lease left behind) and its signature and its message are good. */
  lemma CandidateIff(f: Finding, at: int)
    ensures Candidate(f, at) <==>
            && (match f.delivery
                case None => true
                case Some(Failed(_, _, _, _)) => true
                case Some(Pending(_, claimedAt, _)) => claimedAt < at - 30 * 60 * 1000
                case Some(Posted(_, _, _, _)) => false)
            && f.signatureReadable && f.deliverable
  {
  }

  /** A considered row gives its lane up exactly when its delivery could not be read, or when
      nothing speaks for it, its signature is good and the checks of its message threw. */
  lemma EndsLaneIff(f: Finding, at: int)
    ensures EndsLane(f, at) <==>
            f.deliveryReadThrew
            || (f.signatureReadable && f.checksThrew
                && match f.delivery
                   case None => true
                   case Some(Failed(_, _, _, _)) => true
                   case Some(Pending(_, claimedAt, _)) => claimedAt < at - 30 * 60 * 1000
                   case Some(Posted(_, _, _, _)) => false)
  {
  }

  /** The considered rows are the eligible ones in the order read, the first fifty. */
  lemma ConsideredAreFirst(recent: seq<Finding>, cutover: Option<int>)
    ensures var eligible := Filter(EligibleTest(cutover), recent);
            Considered(recent, cutover) == if |eligible| <= 50 then eligible else eligible[..50]
  {
  }

  /** The scan loop. `None` is the skipped project: the findings could not be listed, or some
      considered row ends the lane. */
  method LaneFor(listThrew: bool, recent: seq<Finding>, cutover: Option<int>, at: int)
    returns (lane: Option<(seq<Finding>, nat)>)
    ensures var considered := Considered(recent, cutover);
            && (lane.None? <==> listThrew || exists f :: f in considered && EndsLane(f, at))
            && (lane.Some? ==> lane.value == (Candidates(considered, at), DeliveredThisWeek(considered, at)))
  {
    if listThrew { return None; }
    var candidates: seq<Finding> := [];
    var deliveredThisWeek := 0;
    var considered := 0;
    ghost var seen: seq<Finding> := [];
    var i := 0;
    while i < |recent| && considered < FINDINGS_CONSIDERED_PER_LANE
      invariant 0 <= i <= |recent|
      invariant seen == Filter(EligibleTest(cutover), recent[..i])
      invariant |seen| == considered <= FINDINGS_CONSIDERED_PER_LANE
      invariant candidates == Candidates(seen, at) && deliveredThisWeek == DeliveredThisWeek(seen, at)
      invariant forall f | f in seen :: !EndsLane(f, at)
    {
      var finding := recent[i];
      FilterNext(EligibleTest(cutover), recent, i);
      i := i + 1;
      if IsBeforeCutover(finding, cutover) { continue; }
      if finding.textHeld { continue; }
      if finding.signatureReadable && !finding.consult.Proceed? { continue; }

      considered := considered + 1;
      OneConsidered(seen, finding, at);
      seen := seen + [finding];
      if finding.deliveryReadThrew {
        ConsideredSoFar(recent, cutover, i);
        assert finding in seen;
        return None;
      }
      if WasPostedInWindow(finding.delivery, at - DELIVERY_WEEK_MS, at) {
        deliveredThisWeek := deliveredThisWeek + 1;
      }
      if IsSpokenFor(finding.delivery, ClaimsExpireBefore(at)) { continue; }
      if !finding.signatureReadable { continue; }
      if finding.checksThrew {
        ConsideredSoFar(recent, cutover, i);
        assert finding in seen;
        return None;
      }
      if finding.deliverable {
        candidates := candidates + [finding];
      }
    }
    ConsideredSoFar(recent, cutover, i);
    lane := Some((candidates, deliveredThisWeek));
  }

  /** Rows that can never become a message cost the lane nothing, wherever they sit: any run
      of ineligible rows can be put in or taken out without moving the lane. */
  lemma IneligibleRowsAreFree(before: seq<Finding>, dead: seq<Finding>, after: seq<Finding>, cutover: Option<int>)
    requires forall i | 0 <= i < |dead| :: !Eligible(dead[i], cutover)
    ensures Considered(before + dead + after, cutover) == Considered(before + after, cutover)
  {
    var eligible := EligibleTest(cutover);
    FilterAppend(eligible, before + dead, after);
    FilterAppend(eligible, before, dead);
    FilterAppend(eligible, before, after);
    FilterNothing(eligible, dead);
  }

  lemma TakeIff(a: seq<Finding>, b: seq<Finding>, n: nat)
    ensures Take(a, n) == Take(a + b, n) <==> |a| >= n || b == []
  {
    if |a| < n && b != [] {
      assert |Take(a + b, n)| > |a|;
    }
  }

  lemma NoneLeftIff(all: seq<Finding>, n: nat, cutover: Option<int>)
    requires n <= |all|
    ensures Filter(EligibleTest(cutover), all[n..]) == [] <==> forall i | n <= i < |all| :: !Eligible(all[i], cutover)
  {
    var eligible, rest := EligibleTest(cutover), all[n..];
    if i :| n <= i < |all| && Eligible(all[i], cutover) {
      assert all[i] == rest[i - n];
      FilterKeeps(eligible, rest, all[i]);
    } else {
      forall j | 0 <= j < |rest| ensures !eligible(rest[j]) { assert rest[j] == all[j + n]; }
      FilterNothing(eligible, rest);
    }
  }

  /** Reading only the newest two hundred rows leaves the lane as it was exactly when those
      rows already hold fifty eligible ones or no eligible row lies past them. */
  lemma ReadLimitIff(all: seq<Finding>, cutover: Option<int>)
    ensures var read := Take(all, FINDINGS_READ_PER_LANE);
            |read| == (if |all| <= 200 then |all| else 200)
    ensures var read := Take(all, FINDINGS_READ_PER_LANE);
            Considered(read, cutover) == Considered(all, cutover)
            <==> (|Filter(EligibleTest(cutover), read)| >= 50
                  || forall i | |read| <= i < |all| :: !Eligible(all[i], cutover))
  {
    var eligible := EligibleTest(cutover);
    var read := Take(all, FINDINGS_READ_PER_LANE);
    var rest := all[|read|..];
    assert read + rest == all;
    FilterAppend(eligible, read, rest);
    TakeIff(Filter(eligible, read), Filter(eligible, rest), FINDINGS_CONSIDERED_PER_LANE);
    NoneLeftIff(all, |read|, cutover);
  }

  /** No candidate is a finding the claim would refuse, so with Deliveries.ReadersAgree a lane
      never offers a finding that another tick holds, nor one posted this week. */
  lemma CandidatesAreClaimable(recent: seq<Finding>, cutover: Option<int>, at: int, f: Finding)
    requires f in Candidates(Considered(recent, cutover), at)
    ensures f in recent && Eligible(f, cutover)
    ensures ClaimGranted(f.delivery, ClaimsExpireBefore(at))
    ensures !Delivered(f, at)
  {
    FilterKeeps(CandidateTest(at), Considered(recent, cutover), f);
    FilterKeeps(EligibleTest(cutover), recent, f);
  }
}
