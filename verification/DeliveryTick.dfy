/** One run of the delivery tick: per lane, read, decide, claim, post and record; then one
    decision row and one counter per lane. */
module DeliveryTick {
  import opened Common
  import opened Deliveries

  datatype Key = Key(findingId: string, channelId: string)

  datatype Candidate = Candidate(findingId: string, deliverable: bool)

  datatype Lane = Lane(projectId: string, channelId: string, deliveredThisWeek: nat, candidates: seq<Candidate>)

  datatype Outcome =
    | PostedOutcome | FailedOutcome | BlockedByPii | NothingToday | NotClaimed | NotConnected
    | Unresolvable | LaneErrored

  /** The result of rendering a finding and scanning the text that would be posted. */
  datatype Rendering = RenderThrew | Unreadable | Scanned(kinds: seq<nat>)
  {
    /** The residual scan calls a text clean exactly when it found nothing. */
    predicate Clean() {
      Scanned? && kinds == []
    }
  }

  datatype Prepared = Ready | NotReady(outcome: Outcome, reason: Reason)

  datatype Poster = LookupThrew | NoPoster | Connected

  /** How the write of a decision row ended: stored, refused because another run had already
      recorded a different answer for the lane, or thrown, which is logged and swallowed. */
  datatype DecisionWrite = Recorded | AnsweredByAnother | DecisionThrew(write: Write)
  {
    predicate Stored() {
      Recorded? || (DecisionThrew? && write.LandedThenThrew?)
    }
  }

  /** What the outside world does during one lane: every call may fail in its own way. */
  datatype Happens = Happens(
    poster: Poster, listThrew: bool, chosen: string, rendering: Rendering,
    claimWrite: Write, answer: PostAnswer, refusalCode: nat,
    postedWrite: Write, failedWrite: Write, clock: int, decisionWrite: DecisionWrite)

  /** The calls a lane makes on the database and on Slack, in order. */
  datatype Call =
    | ClaimCall(key: Key, projectId: string, claimedAt: int, staleClaimsBefore: int, write: Write)
    | PostCall(answer: PostAnswer)
    | MarkPostedCall(key: Key, at: int, write: Write)
    | MarkFailedCall(key: Key, reason: Reason, write: Write)

  function RowAt(rows: map<Key, Row>, key: Key): Option<Row> {
    if key in rows then Some(rows[key]) else None
  }

  function WithRow(rows: map<Key, Row>, key: Key, row: Option<Row>): map<Key, Row> {
    match row
    case None => rows - {key}
    case Some(r) => rows[key := r]
  }

  function ApplyCall(rows: map<Key, Row>, call: Call): map<Key, Row> {
    match call
    case ClaimCall(key, projectId, at, stale, write) =>
      if write.Stored() then WithRow(rows, key, ClaimRow(RowAt(rows, key), projectId, at, stale)) else rows
    case PostCall(_) => rows
    case MarkPostedCall(key, at, write) =>
      if write.Stored() then WithRow(rows, key, MarkPostedRow(RowAt(rows, key), at)) else rows
    case MarkFailedCall(key, reason, write) =>
      if write.Stored() then WithRow(rows, key, MarkFailedRow(RowAt(rows, key), reason)) else rows
  }

  function ApplyCalls(rows: map<Key, Row>, calls: seq<Call>): map<Key, Row> {
    if calls == [] then rows else ApplyCall(ApplyCalls(rows, calls[..|calls| - 1]), calls[|calls| - 1])
  }

  /** The database and the channel as one lane sees them, with a journal of its calls. */
  class Backend {
    var rows: map<Key, Row>
    var journal: seq<Call>
    var decisions: seq<Outcome>

    method ClaimForPost(key: Key, projectId: string, claimedAt: int, staleClaimsBefore: int, write: Write)
      returns (claimed: bool)
      modifies this`rows, this`journal
      ensures journal == old(journal) + [ClaimCall(key, projectId, claimedAt, staleClaimsBefore, write)]
      ensures rows == ApplyCall(old(rows), ClaimCall(key, projectId, claimedAt, staleClaimsBefore, write))
      ensures claimed == ClaimGranted(RowAt(old(rows), key), staleClaimsBefore)
    {
      claimed := ClaimGranted(RowAt(rows, key), staleClaimsBefore);
      var call := ClaimCall(key, projectId, claimedAt, staleClaimsBefore, write);
      rows := ApplyCall(rows, call);
      journal := journal + [call];
    }

    method Post(answer: PostAnswer)
      modifies this`journal
      ensures journal == old(journal) + [PostCall(answer)]
    {
      journal := journal + [PostCall(answer)];
    }

    method MarkPosted(key: Key, at: int, write: Write)
      modifies this`rows, this`journal
      ensures journal == old(journal) + [MarkPostedCall(key, at, write)]
      ensures rows == ApplyCall(old(rows), MarkPostedCall(key, at, write))
    {
      rows := ApplyCall(rows, MarkPostedCall(key, at, write));
      journal := journal + [MarkPostedCall(key, at, write)];
    }

    /** `recordFailed`: a throw is logged and swallowed, so the caller carries on. */
    method MarkFailed(key: Key, reason: Reason, write: Write)
      modifies this`rows, this`journal
      ensures journal == old(journal) + [MarkFailedCall(key, reason, write)]
      ensures rows == ApplyCall(old(rows), MarkFailedCall(key, reason, write))
    {
      rows := ApplyCall(rows, MarkFailedCall(key, reason, write));
      journal := journal + [MarkFailedCall(key, reason, write)];
    }

  }

  /** Open deliveries of the project whose lease is still live. */
  predicate HasOpen(rows: map<Key, Row>, projectId: string, staleClaimsBefore: int) {
    exists key | key in rows :: IsOpen(rows[key], projectId, staleClaimsBefore)
  }

  /** The guards of the scheduling rule; which eligible finding ranks first is not modelled,
      so the choice arrives from outside and may name anything. */
  predicate WouldDeliver(anyOpen: bool, lane: Lane) {
    && !anyOpen
    && lane.deliveredThisWeek < 3
    && exists i | 0 <= i < |lane.candidates| :: lane.candidates[i].deliverable
  }

  predicate Offers(lane: Lane, findingId: string) {
    exists i | 0 <= i < |lane.candidates| :: lane.candidates[i].findingId == findingId
  }

  /** Whether a message may be posted, and what is recorded if not. */
  function Prepare(rendering: Rendering): Prepared {
    match rendering
    case RenderThrew => NotReady(FailedOutcome, CouldNotPost)
    case Unreadable => NotReady(BlockedByPii, CouldNotPost)
    case Scanned(kinds) =>
      if !rendering.Clean() && |kinds| > 0 then NotReady(BlockedByPii, ResidualPii(kinds[0])) else Ready
  }

  /** Every call a lane makes once it has chosen a finding. */
  function Script(key: Key, projectId: string, tickAt: int, granted: bool, h: Happens): seq<Call> {
    var claim := ClaimCall(key, projectId, tickAt, ClaimsExpireBefore(tickAt), h.claimWrite);
    if h.claimWrite.Threw() || !granted then [claim] else
    match Prepare(h.rendering)
    case NotReady(_, reason) => [claim, MarkFailedCall(key, reason, h.failedWrite)]
    case Ready =>
      match h.answer
      case Refused => [claim, PostCall(h.answer), MarkFailedCall(key, PostFailure(h.refusalCode), h.failedWrite)]
      case Accepted =>
        if h.postedWrite.Threw()
        then [claim, PostCall(h.answer), MarkPostedCall(key, h.clock, h.postedWrite), MarkFailedCall(key, CouldNotPost, h.failedWrite)]
        else [claim, PostCall(h.answer), MarkPostedCall(key, h.clock, h.postedWrite)]
      case _ => [claim, PostCall(h.answer), MarkFailedCall(key, CouldNotPost, h.failedWrite)]
  }

  function OutcomeOf(granted: bool, h: Happens): Outcome {
    if h.claimWrite.Threw() then LaneErrored
    else if !granted then NotClaimed
    else
      match Prepare(h.rendering)
      case NotReady(outcome, _) => outcome
      case Ready => if h.answer.Accepted? && !h.postedWrite.Threw() then PostedOutcome else FailedOutcome
  }

  /** From the chosen finding on: claim, post, record. */
  method DeliverChosen(db: Backend, lane: Lane, tickAt: int, h: Happens) returns (outcome: Outcome)
    modifies db`rows, db`journal
    ensures var key := Key(h.chosen, lane.channelId);
            var granted := ClaimGranted(RowAt(old(db.rows), key), ClaimsExpireBefore(tickAt));
            var calls := Script(key, lane.projectId, tickAt, granted, h);
            && db.journal == old(db.journal) + calls
            && db.rows == ApplyCalls(old(db.rows), calls)
            && outcome == OutcomeOf(granted, h)
  {
    var staleClaimsBefore := ClaimsExpireBefore(tickAt);
    var prepared := Prepare(h.rendering);
    var key := Key(h.chosen, lane.channelId);
    ghost var rows0 := db.rows;
    ghost var calls := Script(key, lane.projectId, tickAt, ClaimGranted(RowAt(db.rows, key), staleClaimsBefore), h);
    var claimed := db.ClaimForPost(key, lane.projectId, tickAt, staleClaimsBefore, h.claimWrite);
    CallsSoFar(rows0, calls, 0);
    if h.claimWrite.Threw() { return LaneErrored; }
    if !claimed { return NotClaimed; }

    if prepared.NotReady? {
      db.MarkFailed(key, prepared.reason, h.failedWrite);
      CallsSoFar(rows0, calls, 1);
      return prepared.outcome;
    }

    db.Post(h.answer);
    CallsSoFar(rows0, calls, 1);
    if !h.answer.Accepted? {
      var reason := if h.answer.Refused? then PostFailure(h.refusalCode) else CouldNotPost;
      db.MarkFailed(key, reason, h.failedWrite);
      CallsSoFar(rows0, calls, 2);
      return FailedOutcome;
    }

    db.MarkPosted(key, h.clock, h.postedWrite);
    CallsSoFar(rows0, calls, 2);
    if h.postedWrite.Threw() {
      db.MarkFailed(key, CouldNotPost, h.failedWrite);
      CallsSoFar(rows0, calls, 3);
      return FailedOutcome;
    }
    return PostedOutcome;
  }

  /** The lane goes as far as choosing a finding it offers. */
  predicate Reaches(rows: map<Key, Row>, lane: Lane, tickAt: int, h: Happens) {
    && h.poster.Connected? && !h.listThrew
    && WouldDeliver(HasOpen(rows, lane.projectId, ClaimsExpireBefore(tickAt)), lane)
    && Offers(lane, h.chosen)
  }

  predicate Granted(rows: map<Key, Row>, lane: Lane, tickAt: int, h: Happens) {
    ClaimGranted(RowAt(rows, Key(h.chosen, lane.channelId)), ClaimsExpireBefore(tickAt))
  }

  /** The world moves by the script of the finding the lane chose, or not at all. */
  function LaneCalls(rows: map<Key, Row>, lane: Lane, tickAt: int, h: Happens): seq<Call> {
    if !Reaches(rows, lane, tickAt, h) then []
    else Script(Key(h.chosen, lane.channelId), lane.projectId, tickAt, Granted(rows, lane, tickAt, h), h)
  }

  function LaneOutcome(rows: map<Key, Row>, lane: Lane, tickAt: int, h: Happens): Outcome {
    if h.poster.LookupThrew? then LaneErrored
    else if h.poster.NoPoster? then NotConnected
    else if h.listThrew then LaneErrored
    else if !WouldDeliver(HasOpen(rows, lane.projectId, ClaimsExpireBefore(tickAt)), lane) then NothingToday
    else if !Offers(lane, h.chosen) then Unresolvable
    else OutcomeOf(Granted(rows, lane, tickAt, h), h)
  }

  method RunLane(db: Backend, lane: Lane, tickAt: int, h: Happens) returns (outcome: Outcome)
    modifies db`rows, db`journal
    ensures db.journal == old(db.journal) + LaneCalls(old(db.rows), lane, tickAt, h)
    ensures db.rows == ApplyCalls(old(db.rows), LaneCalls(old(db.rows), lane, tickAt, h))
    ensures outcome == LaneOutcome(old(db.rows), lane, tickAt, h)
  {
    if h.poster.LookupThrew? { return LaneErrored; }
    if h.poster.NoPoster? { return NotConnected; }

    if h.listThrew { return LaneErrored; }
    if !WouldDeliver(HasOpen(db.rows, lane.projectId, ClaimsExpireBefore(tickAt)), lane) { return NothingToday; }
    if !Offers(lane, h.chosen) { return Unresolvable; }
    outcome := DeliverChosen(db, lane, tickAt, h);
  }

  lemma CallsSoFar(rows: map<Key, Row>, calls: seq<Call>, n: nat)
    requires n < |calls|
    ensures ApplyCalls(rows, calls[..n + 1]) == ApplyCall(ApplyCalls(rows, calls[..n]), calls[n])
    ensures n + 1 == |calls| ==> calls[..n + 1] == calls
    ensures ApplyCalls(rows, calls[..0]) == rows
  {
    assert calls[..n + 1][..n] == calls[..n];
  }

  /** What a lane reports says what it did: `posted` is exactly a lane whose last call marked
      its row posted, `failed` and `blocked` exactly one whose last call marked it failed, and
      every other outcome is a lane that at most asked for a claim. */
  lemma OutcomeMatchesCalls(rows: map<Key, Row>, lane: Lane, tickAt: int, h: Happens)
    ensures var calls, outcome := LaneCalls(rows, lane, tickAt, h), LaneOutcome(rows, lane, tickAt, h);
            && (outcome == PostedOutcome <==> |calls| > 1 && calls[|calls| - 1].MarkPostedCall?)
            && (outcome == FailedOutcome || outcome == BlockedByPii <==> |calls| > 1 && calls[|calls| - 1].MarkFailedCall?)
            && (outcome == BlockedByPii ==> forall i | 0 <= i < |calls| :: !calls[i].PostCall?)
            && (outcome == NotClaimed <==> |calls| == 1 && !calls[0].write.Threw())
            && (outcome == LaneErrored && |calls| > 0 <==> |calls| == 1 && calls[0].write.Threw())
            && (|calls| > 0 ==> calls[0].ClaimCall?)
  {
  }

  /** There is something to send: no live lease in the project, fewer than three delivered this
      week, and some candidate deliverable. */
  ghost predicate WorthSending(rows: map<Key, Row>, lane: Lane, tickAt: int) {
    && (forall key | key in rows && rows[key].Pending? && rows[key].projectId == lane.projectId ::
          rows[key].claimedAt < tickAt - 30 * 60 * 1000)
    && lane.deliveredThisWeek <= 2
    && (exists i | 0 <= i < |lane.candidates| :: lane.candidates[i].deliverable)
  }

  lemma WorthSendingIff(rows: map<Key, Row>, lane: Lane, tickAt: int)
    ensures WouldDeliver(HasOpen(rows, lane.projectId, ClaimsExpireBefore(tickAt)), lane) <==> WorthSending(rows, lane, tickAt)
  {
    if HasOpen(rows, lane.projectId, ClaimsExpireBefore(tickAt)) {
      var key :| key in rows && IsOpen(rows[key], lane.projectId, ClaimsExpireBefore(tickAt));
      assert rows[key].Pending? && rows[key].claimedAt >= tickAt - 30 * 60 * 1000;
    }
  }

  /** A lane reaches a finding exactly when its poster is connected, its open list was read,
      there is something to send, and the finding chosen is one of its own. */
  lemma ReachesIff(rows: map<Key, Row>, lane: Lane, tickAt: int, h: Happens)
    ensures LaneCalls(rows, lane, tickAt, h) != [] <==>
            && h.poster == Connected && !h.listThrew && WorthSending(rows, lane, tickAt)
            && (exists i | 0 <= i < |lane.candidates| :: lane.candidates[i].findingId == h.chosen)
  {
    WorthSendingIff(rows, lane, tickAt);
  }

  /** Past a reached finding: its row was free, had failed, or was left pending by a tick that
      started more than a claim lifetime ago. */
  lemma GrantedIff(rows: map<Key, Row>, lane: Lane, tickAt: int, h: Happens)
    ensures Granted(rows, lane, tickAt, h) <==>
            var key := Key(h.chosen, lane.channelId);
            || key !in rows
            || rows[key].Failed?
            || (rows[key].Pending? && rows[key].claimedAt < tickAt - 30 * 60 * 1000)
  {
  }

  /** The lane holds its finding: it reached one, and its claim was granted and acknowledged. */
  predicate Holds(rows: map<Key, Row>, lane: Lane, tickAt: int, h: Happens) {
    LaneCalls(rows, lane, tickAt, h) != [] && Granted(rows, lane, tickAt, h) && h.claimWrite == Landed
  }

  /** A message goes out exactly for a finding that is held and whose text was scanned and found
      to hold nothing, once, right after the claim. */
  lemma PostsIff(rows: map<Key, Row>, lane: Lane, tickAt: int, h: Happens)
    ensures var calls := LaneCalls(rows, lane, tickAt, h);
            && ((exists i | 0 <= i < |calls| :: calls[i].PostCall?) <==>
                Holds(rows, lane, tickAt, h) && h.rendering == Scanned([]))
            && (forall i | 0 <= i < |calls| && calls[i].PostCall? :: i == 1 && calls[i].answer == h.answer)
  {
    var calls := LaneCalls(rows, lane, tickAt, h);
    if Holds(rows, lane, tickAt, h) && h.rendering == Scanned([]) { assert calls[1].PostCall?; }
  }

  /** What a lane answers, case by case. Text that cannot be read or holds personal data is
      blocked; a rendering that throws, a refusal, a throw and a lost mark are failures. */
  lemma AnswersIff(rows: map<Key, Row>, lane: Lane, tickAt: int, h: Happens)
    ensures var outcome, reached := LaneOutcome(rows, lane, tickAt, h), LaneCalls(rows, lane, tickAt, h) != [];
            var held, clean := Holds(rows, lane, tickAt, h), h.rendering == Scanned([]);
            var went := clean && h.answer == Accepted && h.postedWrite == Landed;
            && (outcome == PostedOutcome <==> held && went)
            && (outcome == BlockedByPii <==> held && !clean && !h.rendering.RenderThrew?)
            && (outcome == FailedOutcome <==> held && (clean || h.rendering.RenderThrew?) && !went)
            && (outcome == NotClaimed <==> reached && h.claimWrite == Landed && !Granted(rows, lane, tickAt, h))
            && (outcome == LaneErrored <==>
                h.poster == LookupThrew || (h.poster == Connected && h.listThrew) || (reached && h.claimWrite != Landed))
            && (outcome == NotConnected <==> h.poster == NoPoster)
            && (outcome == NothingToday <==> h.poster == Connected && !h.listThrew && !WorthSending(rows, lane, tickAt))
            && (outcome == Unresolvable <==>
                h.poster == Connected && !h.listThrew && WorthSending(rows, lane, tickAt)
                && forall i | 0 <= i < |lane.candidates| :: lane.candidates[i].findingId != h.chosen)
  {
    WorthSendingIff(rows, lane, tickAt);
  }

  /** The marks a lane makes: posted, with the clock it read, exactly after an accepted post; and
      failed with the reason the rendering, the refusal or the throw gives. Every call names the
      lane's own finding and channel, and the claim is stamped with the tick's start. */
  lemma MarksSayWhy(rows: map<Key, Row>, lane: Lane, tickAt: int, h: Happens, i: nat)
    requires i < |LaneCalls(rows, lane, tickAt, h)|
    ensures var calls, key := LaneCalls(rows, lane, tickAt, h), Key(h.chosen, lane.channelId);
            match calls[i]
            case ClaimCall(k, project, at, stale, write) =>
              && i == 0 && k == key && project == lane.projectId && at == tickAt && stale == tickAt - 30 * 60 * 1000
              && write == h.claimWrite
            case PostCall(_) => true
            case MarkPostedCall(k, at, write) =>
              && i == 2 && k == key && at == h.clock && write == h.postedWrite && h.answer == Accepted
            case MarkFailedCall(k, reason, write) =>
              && i == |calls| - 1 && k == key && write == h.failedWrite
              && reason == match h.rendering
                           case Unreadable => CouldNotPost
                           case RenderThrew => CouldNotPost
                           case Scanned(kinds) =>
                             if kinds != [] then ResidualPii(kinds[0])
                             else if h.answer == Refused then PostFailure(h.refusalCode)
                             else CouldNotPost
  {
  }

  /** The row a call may move. */
  predicate Touches(call: Call, key: Key) {
    !call.PostCall? && call.key == key
  }

  /** Calls that name one row leave every other alone. */
  lemma {:induction false} OthersStay(rows: map<Key, Row>, calls: seq<Call>, other: Key)
    requires forall i | 0 <= i < |calls| :: !Touches(calls[i], other)
    ensures RowAt(ApplyCalls(rows, calls), other) == RowAt(rows, other)
  {
    if calls != [] { OthersStay(rows, calls[..|calls| - 1], other); }
  }

  /** The row a claim was granted over, call by call, to the last mark. */
  lemma MarkedLast(rows: map<Key, Row>, key: Key, projectId: string, tickAt: int, h: Happens)
    requires ClaimGranted(RowAt(rows, key), ClaimsExpireBefore(tickAt)) && !h.claimWrite.Threw()
    ensures var calls := Script(key, projectId, tickAt, true, h);
            var last, end := calls[|calls| - 1], RowAt(ApplyCalls(rows, calls), key);
            && end.Some? && end.value.claimedAt == tickAt
            && (end.value.Pending? <==> last.MarkFailedCall? && !last.write.Stored()
                                        && !(h.answer.Accepted? && h.rendering == Scanned([]) && h.postedWrite.Stored()))
            && (end.value.Posted? <==> h.rendering == Scanned([]) && h.answer.Accepted? && h.postedWrite.Stored())
  {
    var calls := Script(key, projectId, tickAt, true, h);
    CallsSoFar(rows, calls, 0);
    CallsSoFar(rows, calls, 1);
    if |calls| > 2 { CallsSoFar(rows, calls, 2); }
    if |calls| > 3 { CallsSoFar(rows, calls, 3); }
  }

  /** After a granted claim every exit has issued a mark for the same row, and the row stays
      `pending` only if that last mark stored nothing. A poster call happens only after a
      granted claim, at most once. */
  lemma NoOrphanedClaim(rows: map<Key, Row>, key: Key, projectId: string, tickAt: int, h: Happens)
    requires ClaimGranted(RowAt(rows, key), ClaimsExpireBefore(tickAt)) && !h.claimWrite.Threw()
    ensures var calls := Script(key, projectId, tickAt, true, h);
            var last := calls[|calls| - 1];
            && |calls| >= 2
            && (last.MarkPostedCall? || last.MarkFailedCall?) && last.key == key
            && (forall i | 0 <= i < |calls| :: calls[i].PostCall? ==> i == 1)
            && var end := RowAt(ApplyCalls(rows, calls), key);
               && end.Some?
               && (end.value.Pending? <==> last.MarkFailedCall? && !last.write.Stored()
                                           && !(h.answer.Accepted? && h.rendering == Scanned([]) && h.postedWrite.Stored()))
               && (end.value.Posted? <==> h.rendering == Scanned([]) && h.answer.Accepted? && h.postedWrite.Stored())
               && end.value.claimedAt == tickAt
    ensures forall other | other != key ::
              RowAt(ApplyCalls(rows, Script(key, projectId, tickAt, true, h)), other) == RowAt(rows, other)
  {
    MarkedLast(rows, key, projectId, tickAt, h);
    forall other | other != key
      ensures RowAt(ApplyCalls(rows, Script(key, projectId, tickAt, true, h)), other) == RowAt(rows, other)
    {
      OthersStay(rows, Script(key, projectId, tickAt, true, h), other);
    }
  }

  /** The tick's counters. */
  class Summary {
    var lanesConsidered: nat
    var posted: nat
    var failed: nat
    var blockedByPii: nat
    var nothingToday: nat
    var notClaimed: nat
    var notConnected: nat
    var lanesErrored: nat

    constructor (lanes: nat)
      ensures lanesConsidered == lanes && Counts([])
    {
      lanesConsidered := lanes;
      posted, failed, blockedByPii, nothingToday, notClaimed, notConnected, lanesErrored := 0, 0, 0, 0, 0, 0, 0;
    }

    /** The counters hold exactly the given outcomes. */
    ghost predicate Counts(outcomes: seq<Outcome>)
      reads this
    {
      var m := multiset(outcomes);
      && posted == m[PostedOutcome]
      && failed == m[FailedOutcome] + m[BlockedByPii]
      && blockedByPii == m[BlockedByPii]
      && nothingToday == m[NothingToday]
      && notClaimed == m[NotClaimed]
      && notConnected == m[NotConnected]
      && lanesErrored == m[Unresolvable] + m[LaneErrored]
      && posted + failed + nothingToday + notClaimed + notConnected + lanesErrored == |outcomes|
    }

    method ApplyOutcome(outcome: Outcome, ghost before: seq<Outcome>)
      requires Counts(before)
      modifies this
      ensures Counts(before + [outcome]) && lanesConsidered == old(lanesConsidered)
    {
      match outcome
      case PostedOutcome => posted := posted + 1;
      case FailedOutcome => failed := failed + 1;
      case BlockedByPii =>
        failed := failed + 1;
        blockedByPii := blockedByPii + 1;
      case NothingToday => nothingToday := nothingToday + 1;
      case NotClaimed => notClaimed := notClaimed + 1;
      case NotConnected => notConnected := notConnected + 1;
      case Unresolvable => lanesErrored := lanesErrored + 1;
      case LaneErrored => lanesErrored := lanesErrored + 1;
      assert multiset(before + [outcome]) == multiset(before) + multiset{outcome};
    }
  }

  /** The rows and the calls made so far, between two lanes of a tick. */
  datatype Moment = Moment(rows: map<Key, Row>, journal: seq<Call>)

  predicate LaneMoves(before: Moment, after: Moment, lane: Lane, tickAt: int, h: Happens, outcome: Outcome) {
    var calls := LaneCalls(before.rows, lane, tickAt, h);
    && after == Moment(ApplyCalls(before.rows, calls), before.journal + calls)
    && outcome == LaneOutcome(before.rows, lane, tickAt, h)
  }

  /** What one lane adds to the stored decisions. */
  function Stores(h: Happens, outcome: Outcome): seq<Outcome> {
    if h.decisionWrite.Stored() then [outcome] else []
  }

  /** A lane's answer is stored where its write went through, or was lost only to the caller; not
      where another run had answered otherwise. */
  lemma StoresIff(h: Happens, outcome: Outcome)
    ensures Stores(h, outcome) ==
            match h.decisionWrite
            case Recorded => [outcome]
            case AnsweredByAnother => []
            case DecisionThrew(LandedThenThrew) => [outcome]
            case DecisionThrew(_) => []
  {
  }

  /** The decisions that came to be stored. */
  function Decided(worlds: seq<Happens>, outcomes: seq<Outcome>): seq<Outcome>
    requires |outcomes| <= |worlds|
    decreases |outcomes|
  {
    if outcomes == [] then []
    else
      var n := |outcomes| - 1;
      Decided(worlds, outcomes[..n]) + Stores(worlds[n], outcomes[n])
  }

  /** One lane of the tick: run it, count how it ended and record the decision. */
  method RunAndRecord(db: Backend, lane: Lane, tickAt: int, h: Happens, summary: Summary, ghost before: seq<Outcome>)
    returns (outcome: Outcome)
    requires summary.Counts(before)
    modifies db, summary
    ensures summary.Counts(before + [outcome]) && summary.lanesConsidered == old(summary.lanesConsidered)
    ensures db.decisions == old(db.decisions) + Stores(h, outcome)
    ensures LaneMoves(old(Moment(db.rows, db.journal)), Moment(db.rows, db.journal), lane, tickAt, h, outcome)
  {
    outcome := RunLane(db, lane, tickAt, h);
    summary.ApplyOutcome(outcome, before);
    RecordDecision(db, outcome, h);
  }

  /** `recordDecision`: whatever becomes of the row, the lane and its counter stand. */
  method RecordDecision(db: Backend, outcome: Outcome, h: Happens)
    modifies db`decisions
    ensures db.decisions == old(db.decisions) + Stores(h, outcome)
  {
    if h.decisionWrite.Stored() { db.decisions := db.decisions + [outcome]; }
  }

  /** Lane `i` of a tick ran on what the lanes before it left. */
  ghost predicate MovedAt(moments: seq<Moment>, lanes: seq<Lane>, tickAt: int, worlds: seq<Happens>, outcomes: seq<Outcome>,
                          i: nat)
    requires |outcomes| <= |lanes| == |worlds|
  {
    i < |outcomes| && i + 1 < |moments| && LaneMoves(moments[i], moments[i + 1], lanes[i], tickAt, worlds[i], outcomes[i])
  }

  /** The moments of a tick: each lane runs on what the lanes before it left. */
  ghost predicate TickMoves(moments: seq<Moment>, lanes: seq<Lane>, tickAt: int, worlds: seq<Happens>, outcomes: seq<Outcome>)
    requires |outcomes| <= |lanes| == |worlds|
  {
    && |moments| == |outcomes| + 1
    && forall i: nat | i < |outcomes| :: MovedAt(moments, lanes, tickAt, worlds, outcomes, i)
  }

  lemma TickMovesOn(moments: seq<Moment>, lanes: seq<Lane>, tickAt: int, worlds: seq<Happens>, outcomes: seq<Outcome>,
                    next: Moment, outcome: Outcome)
    requires |outcomes| < |lanes| == |worlds| && TickMoves(moments, lanes, tickAt, worlds, outcomes)
    requires LaneMoves(moments[|outcomes|], next, lanes[|outcomes|], tickAt, worlds[|outcomes|], outcome)
    ensures TickMoves(moments + [next], lanes, tickAt, worlds, outcomes + [outcome])
  {
    var moments', outcomes' := moments + [next], outcomes + [outcome];
    forall i: nat | i < |outcomes'| ensures MovedAt(moments', lanes, tickAt, worlds, outcomes', i) {
      if i < |outcomes| { assert MovedAt(moments, lanes, tickAt, worlds, outcomes, i); }
    }
  }

  /** One decision write further. */
  lemma DecidedNext(worlds: seq<Happens>, outcomes: seq<Outcome>, outcome: Outcome)
    requires |outcomes| < |worlds|
    ensures Decided(worlds, outcomes + [outcome]) == Decided(worlds, outcomes) + Stores(worlds[|outcomes|], outcome)
  {
    assert (outcomes + [outcome])[..|outcomes|] == outcomes;
  }

  /** The next lane of the tick, after those that ended so far. */
  method NextLane(db: Backend, lanes: seq<Lane>, tickAt: int, worlds: seq<Happens>, summary: Summary,
                  outcomes: seq<Outcome>, ghost moments: seq<Moment>, ghost earlier: seq<Outcome>)
    returns (outcomes': seq<Outcome>, ghost moments': seq<Moment>)
    requires |outcomes| < |lanes| == |worlds| && summary.Counts(outcomes)
    requires TickMoves(moments, lanes, tickAt, worlds, outcomes) && moments[|outcomes|] == Moment(db.rows, db.journal)
    requires db.decisions == earlier + Decided(worlds, outcomes)
    modifies db, summary
    ensures |outcomes'| == |outcomes| + 1
    ensures summary.Counts(outcomes') && summary.lanesConsidered == old(summary.lanesConsidered)
    ensures db.decisions == earlier + Decided(worlds, outcomes')
    ensures TickMoves(moments', lanes, tickAt, worlds, outcomes') && moments'[0] == moments[0]
    ensures moments'[|outcomes'|] == Moment(db.rows, db.journal)
  {
    var i := |outcomes|;
    var outcome := RunAndRecord(db, lanes[i], tickAt, worlds[i], summary, outcomes);
    DecidedNext(worlds, outcomes, outcome);
    TickMovesOn(moments, lanes, tickAt, worlds, outcomes, Moment(db.rows, db.journal), outcome);
    outcomes', moments' := outcomes + [outcome], moments + [Moment(db.rows, db.journal)];
  }

  /** Every lane runs on what the lanes before it left and ends in exactly one counter, whatever
      it ran into, and in a decision row exactly if that write was stored; no lane stops the
      ones after it. */
  method RunDeliveryTick(db: Backend, lanes: seq<Lane>, tickAt: int, worlds: seq<Happens>)
    returns (summary: Summary, outcomes: seq<Outcome>, ghost moments: seq<Moment>)
    requires |worlds| == |lanes|
    modifies db
    ensures fresh(summary) && |outcomes| == |lanes| == summary.lanesConsidered
    ensures summary.Counts(outcomes)
    ensures db.decisions == old(db.decisions) + Decided(worlds, outcomes)
    ensures TickMoves(moments, lanes, tickAt, worlds, outcomes)
    ensures moments[0] == Moment(old(db.rows), old(db.journal)) && moments[|lanes|] == Moment(db.rows, db.journal)
  {
    summary := new Summary(|lanes|);
    outcomes, moments := [], [Moment(db.rows, db.journal)];
    for i := 0 to |lanes|
      invariant fresh(summary) && |outcomes| == i && summary.lanesConsidered == |lanes|
      invariant summary.Counts(outcomes)
      invariant db.decisions == old(db.decisions) + Decided(worlds, outcomes)
      invariant TickMoves(moments, lanes, tickAt, worlds, outcomes)
      invariant moments[0] == Moment(old(db.rows), old(db.journal)) && moments[i] == Moment(db.rows, db.journal)
    {
      outcomes, moments := NextLane(db, lanes, tickAt, worlds, summary, outcomes, moments, old(db.decisions));
    }
  }
}
