# Growthmind's worker, modelled and proved in Dafny

The worker is a set of scheduled ticks. They share rows with other runs of themselves, and
leases, watermarks and claim ledgers are what keep them from posting twice, skipping a
recording or calling a model twice. This project models the shared rows and the code that moves
them, and proves what every step keeps over interleavings of any number of them, naming the
premise where one is needed and a run that breaks the property without it. Six self-contained
algorithms elsewhere in the repository are proved beside them.

Verify it with `dafny verify dfyconfig.toml`.

## What is here

| files | what they model |
|---|---|
| `Deliveries`, `DeliveryProtocol`, `DeliveryTick`, `DeliverySystem`, `LaneScan` | the delivery row and its three readers; any number of ticks racing for it; one tick as imperative code; any number of lanes of that code interleaved; the scan that picks candidates |
| `Sends`, `DispatchProtocol`, `DispatchBounds`, `DispatchRetries`, `DispatchTask`, `DispatchSystem` | the notification receipt; runners, queue retries and rescue jobs racing for it, per target; messages and retry throws over all targets; the dispatch and rescue tasks; any number of dispatch jobs of that code interleaved |
| `ReplayDrain`, `ReplaySystem`, `ReplayTick` | the narration watermark and when a tick leaves it safe; any number of ticks of one lane interleaved; the lane and the tick as imperative code |
| `PollCursors`, `PollSystem` | the two cursors of a connection: a poll's passes and a connect's first pull as imperative code over a row anyone may have moved; any number of both interleaved on one row |
| `ModelCalls`, `AnalysisPlan`, `AnalysisLane` | the model-call ledger; the decision ladder and the cause stage; a run over a lane and a tick over lanes |
| `Tombstones`, `Framing`, `InlineSpans`, `Trials`, `Vocabulary`, `PullBounds` | the audience list, the driver's line protocol, inline emphasis, the retrieval trial, the vocabulary report, percentiles and bounds |
| `Common`, `Sequences`, `Sorting` | shared value types, filters and a stable sort |

Races are state machines: a step per claim, post, write and crash, and a trace of states. The
imperative side is proved to make exactly the calls of a script. `DeliverySystem` and
`DispatchSystem` run any number of those scripts at once, one call at a time, with other runs,
the clock and crashes in between; they show that every call is a step of the state machine from
whatever state it meets, and carry the theorems over to the code.

Everything outside a task is a value chosen by its environment: what a poster, a model, a
listing or a poll answers, what a clock reads, and how each write ends. A write lands, throws
with nothing stored, or throws after it was stored.

## What the proofs found

- **Delivery.** The lease is stamped with the tick's start. Exclusion holds while ticks
  finish within the claim lifetime of that start; a tick that overruns by a millisecond lets a
  second message out (`OverrunPostsTwice`). "Lost" counts crashes after an accepted post, posts
  that threw after sending, and `markPosted` writes that stored nothing.
- **Dispatch.** At-most-once is a promise per target. For a whole notification it survives any
  number of re-points as long as no run begins on the new channel while one is at work on the old
  (`AtMostOncePerNotification`); two that overlap can post twice, punctually and with every receipt
  stored (`RepointPostsTwice`), and nothing else does (`SecondMessageNeedsOverlap`). Retry throws
  are bounded by four per target with no assumption on time, and every re-point starts a fresh
  count (`ThrowsReachBound`).
- **Watermark.** The comment at worker/src/tasks/replay-narration-tick.ts:427-430 says a listing
  drops everything at or below the watermark. rrweb does
  (packages/adapters/src/rrweb/replay-source.ts:92-95); PostHog lists the instant itself again
  (packages/adapters/src/posthog/replay-source.ts:132-137). The model follows the code: both
  rules are there, and a shared start at the budget's cut loses a recording under the first
  only (`TieAtTheCut`). A recording whose attempt fails while a later-starting one lands is never
  listed again, under both (`PassedOverForGood`, `EarlyFailureStrands`). A listing cut at its page
  cap comes back as a good one, and the tick does not look: what the cut left out is lost the
  same way (`CutListingStrands`).
- **Poll.** A poll tests its own copy of the cursors and writes to the stored row. While each poll
  ends within the interval its claim reserved and no connect's first pull overlaps another pull,
  no pull is stale and a drained notice goes out once per backfill (`NoStalePull`,
  `BackfillEpisodes`). Nothing in the code keeps either premise. A pass begun within the time
  budget may outlive the interval, and two notices go out for one backfill
  (`OverrunNotifiesTwice`); a connect again between two passes makes the next pull stale, which
  can announce a row already clear or drop the place the connect had left to resume from
  (`RekeyBetweenPasses`). With no premise at all, notices number at most the sets plus those
  hollow ones (`NoticesAccounted`).
- **Poll, one pass.** A backfill cursor can be cleared without the drained notice: a pull whose backward
  walk spends the whole page cap has its forward walk cut off before its first request, with
  nowhere to resume (`SilentClearExists`). A run can be recorded as completed while its pass
  counts as failed, when the write that completed it was stored but thrown (`RunRowIff`).
- **Model calls.** The claim is one statement, but it counts in its own snapshot, so a ceiling is
  not absolute: claims that overlap between count and insert can pass it, by up to one less than
  their number (`CapsHold`, `OvershootReached`). No slot is called twice
  either way.
- **Analysis.** worker/src/tasks/analysis-tick.ts:122-125 says the cause stage never throws. Its
  reads, its claim and its write are not caught, so a lane can fail after its last candidate was
  counted: a failed lane counts the candidate it failed at exactly when that candidate's own write
  went through. The calls a run reports leave out exactly those whose plan ended unrenderable.
- **Audience list.** An unplaced tombstone ends at min(seat, rows + tombstones ahead), so a seat
  inside the finished list is not enough for it to keep its place. A drop is stable up to the
  seat numbers inside live keys; `KeysHoldIff` says exactly when the keys agree too.
- **Inline text.** Flattening is one pass and may leave a link behind: exactly when a label opens
  one in front of what follows it (`LeavesLinkIff`).
- **Trials.** The winner's latency is least among endpoints that matched, not among all those
  recorded: an expired round can find the marker later than the timeout it writes for the rest,
  and exactly then is a recorded latency smaller (`UndercutIff`).
- **Bounds.** The per-tick figure is zero, so that nothing would be narrated, exactly when one
  p90 pull takes more than half the tick interval.

## Model

| member | source | states |
|---|---|---|
| Deliveries.ReadersAgree | worker/src/delivery-lane-source.ts:299-309 | The claim statement, the lane source, the open list and the channel page split every row the same way: a pending row is "stalled" exactly when the worker would take it over and "posting" exactly when it would skip it |
| Deliveries.AbandonedClaimReturns | packages/db/src/repositories/deliveries.repo.ts:96-105 | A row left pending by a dead tick can be claimed again exactly when one claim lifetime has passed since the instant stamped on it, and the takeover raises its attempt count |
| Deliveries.PostedIsFinal | packages/db/src/repositories/deliveries.repo.ts:100-216 | No claim and no failure write moves a posted row, and marking it again keeps the first instant |
| Deliveries.WritesLeave | packages/db/src/repositories/deliveries.repo.ts:96-216 | What the claim and the two marks leave of every row: instant, project, attempts, reason and first posting |
| Deliveries.StatesAre | apps/web/components/channel/derive.ts:65-90 | Each state the channel page shows, exactly |
| DeliveryProtocol.ClaimKeepsInv | worker/src/tasks/delivery-tick.ts:318-325 | The claim is the one step that could let a second tick in; a punctual holder keeps it out although both instants of the claim come from the tick's start |
| DeliveryProtocol.PostKeepsInv | worker/src/tasks/delivery-tick.ts:345-374 | A post keeps exclusivity, the lease and the account of delivered messages, whether accepted, refused or thrown before or after sending |
| DeliveryProtocol.RecordKeepsInv | worker/src/tasks/delivery-tick.ts:376-407 | So do the two outcome writes and a crash, whatever the write stored |
| DeliveryProtocol.StepKeepsInv | worker/src/tasks/delivery-tick.ts:261-408 | Every step of any tick keeps the whole invariant while ticks are punctual |
| DeliveryProtocol.TraceKeepsInv | worker/src/tasks/delivery-tick.ts:261-408 | The invariant holds in every state of every interleaving |
| DeliveryProtocol.DeliveryExclusion | worker/src/tasks/delivery-tick.ts:261-408 | Over every interleaving of any number of ticks, crashes and failing writes: if each tick records within the claim lifetime of its own start, at most one is ever between claim and record, and delivered messages number at most one plus those whose record was lost |
| DeliveryProtocol.TakeoverIff | worker/src/tasks/delivery-tick.ts:318-325 | A second tick gets in exactly when it started more than a claim lifetime after the holder started |
| DeliveryProtocol.OverrunPostsTwice | worker/src/tasks/delivery-tick.ts:318-405 | Without punctuality the bound is false: a concrete run delivers twice with nothing lost |
| DeliveryTick.Backend.ClaimForPost | packages/db/src/repositories/deliveries.repo.ts:123-155 | The claim as one atomic write: granted when there is no row, a failed row, or a pending one with a stale lease |
| DeliveryTick.Backend.MarkPosted | packages/db/src/repositories/deliveries.repo.ts:157-202 | Posted is stored unless the row is missing, and a first instant is kept |
| DeliveryTick.Backend.MarkFailed | packages/db/src/repositories/deliveries.repo.ts:204-216 | Failed is stored unless the row is missing or posted |
| DeliveryTick.DeliverChosen | worker/src/tasks/delivery-tick.ts:318-407 | From the chosen finding on, the calls made are exactly the script of claim, post and record, in order, and the rows move by exactly those calls |
| DeliveryTick.RunLane | worker/src/tasks/delivery-tick.ts:261-408 | A lane makes the calls of the finding it chose or none, and returns the outcome its guards call for |
| DeliveryTick.ReachesIff | worker/src/tasks/delivery-tick.ts:268-318 | A lane reaches a finding exactly when its poster is connected, its open list was read, no lease of its project is less than half an hour old, fewer than three were delivered this week, some candidate is deliverable and the finding chosen is one of its own |
| DeliveryTick.GrantedIff | worker/src/tasks/delivery-tick.ts:320-336 | Its claim is granted exactly over no row, a failed row, or a row left pending more than half an hour before the tick |
| DeliveryTick.PostsIff | worker/src/tasks/delivery-tick.ts:133-185 | A message goes out exactly for a finding that is reached, whose claim was granted and acknowledged, and whose text was scanned and held nothing; once, right after the claim |
| DeliveryTick.AnswersIff | worker/src/tasks/delivery-tick.ts:261-408 | Each answer of a lane, exactly: blocked for text that cannot be read or holds personal data, failed for a rendering that throws, a refusal, a throw or a lost mark, and every other answer by its own guard |
| DeliveryTick.MarksSayWhy | worker/src/tasks/delivery-tick.ts:318-407 | Every mark a lane makes: posted at the clock it read, only after an accepted post; failed with the first kind found in the text, the code of a refusal, or that it could not be posted |
| DeliveryTick.OutcomeMatchesCalls | worker/src/tasks/delivery-tick.ts:318-407 | An outcome tells what was done: `posted` is exactly a lane whose last call marked its row posted, `failed` and `blocked by PII` one whose last call marked it failed, every other outcome a lane that at most asked for a claim |
| DeliveryTick.NoOrphanedClaim | worker/src/tasks/delivery-tick.ts:318-407 | Every exit after a granted claim has marked that same row; it stays pending exactly when the last mark stored nothing (and no earlier one had), and no other row is touched |
| DeliverySystem.NextIsStep | worker/src/tasks/delivery-tick.ts:261-408 | Any number of lanes running their own code on one table: in whatever state other lanes, the clock and crashes have left it, the next call of a lane is enabled in the protocol and makes there the very step it makes on the table |
| DeliverySystem.NextIsTheCodes | worker/src/tasks/delivery-tick.ts:318-407 | The calls a lane makes in that system are those `DeliveryTick` proves its code to make: the first over the rows as they stand, the rest in order by what its claim found |
| DeliverySystem.EventKeepsInv | worker/src/tasks/delivery-tick.ts:261-408 | Every event of that system (a lane begins, makes its next call or dies, time passes) keeps the protocol's invariant of every (finding, channel) |
| DeliverySystem.LaneExclusion | worker/src/tasks/delivery-tick.ts:261-408 | Exclusion of the code itself: however the calls of any number of lanes interleave, while those of one (finding, channel) record within the claim lifetime of their tick's start, at most one is between claim and record and delivered messages number at most one plus those whose record was lost |
| DeliveryTick.Summary.constructor | worker/src/tasks/delivery-tick.ts:439-455 | A new summary counts nothing |
| DeliveryTick.Summary.ApplyOutcome | worker/src/tasks/delivery-tick.ts:410-437 | One outcome moves exactly the counters it should; a blocked lane is counted twice |
| DeliveryTick.RunDeliveryTick | worker/src/tasks/delivery-tick.ts:205-235 | Every lane runs on what the lanes before it left and ends in one counter; its decision row is stored unless the write is lost or another run answered for the lane, and a failing write stops nothing |
| DeliveryTick.StoresIff | worker/src/tasks/delivery-tick.ts:205-235 | A lane's answer is stored where its write went through or was lost only to the caller, and not where another run had answered otherwise |
| LaneScan.ConsideredSoFar | worker/src/delivery-lane-source.ts:389-440 | The rows that pass while slots are left are the considered rows, and all of them once slots or rows run out |
| LaneScan.LaneFor | worker/src/delivery-lane-source.ts:361-486 | The scan loop equals the declarative form: keep rows after the cutover, unheld and not suppressed, take the first fifty, count those posted in the window, keep those claimable and deliverable in order; it gives no lane exactly when the findings could not be listed, a considered delivery could not be read, or the checks of a considered row that is not spoken for threw |
| LaneScan.EligibleIff | worker/src/delivery-lane-source.ts:389-438 | A row may spend a slot exactly when it is newer than the cutover, its text is not held, and the ledger let it proceed or its signature cannot be read |
| LaneScan.ConsideredAreFirst | worker/src/delivery-lane-source.ts:381-392 | The considered rows are the first fifty that may, in the order read |
| LaneScan.DeliveredIff | worker/src/delivery-lane-source.ts:318-324 | A considered row counts toward the week exactly when it was posted at a known instant of the seven days up to the tick |
| LaneScan.CandidateIff | worker/src/delivery-lane-source.ts:299-309 | It is a candidate exactly when it has no row, a failed one or a lease left behind, and its signature and message are good |
| LaneScan.EndsLaneIff | worker/src/delivery-lane-source.ts:446-486 | A considered row gives its lane up exactly when its delivery could not be read, or nothing speaks for it, its signature is good and its checks threw |
| LaneScan.IneligibleRowsAreFree | worker/src/delivery-lane-source.ts:389-440 | Any run of ineligible rows, anywhere, changes neither candidates nor the count |
| LaneScan.ReadLimitIff | worker/src/delivery-lane-source.ts:381-392 | Reading only the newest two hundred rows changes nothing exactly when they already hold fifty eligible rows or no eligible row lies past them |
| LaneScan.CandidatesAreClaimable | worker/src/delivery-lane-source.ts:299-324 | Every candidate is a finding whose claim would be granted and that was not posted this week |
| Sends.SentIsFinal | packages/db/src/services/notification-dispatch.service.ts:264-394 | A sent receipt is moved by no claim and no later outcome |
| Sends.ClaimTable | packages/db/src/services/notification-dispatch.service.ts:264-321 | Every claim, receipt by receipt and reason by reason: an unrepaired one takes a failed call or a queue that was down below five attempts, a repaired one whatever the connection broke, and neither a sent, a quiet or a refused one |
| Sends.ClaimLeaves | packages/db/src/services/notification-dispatch.service.ts:264-321 | A granted claim leaves the lease at its own instant and one attempt more; a refused one leaves the receipt |
| Sends.RejectedIsNeverClaimed | packages/shared/src/notifications/types.ts:98-100 | A message Slack refused is never claimed again |
| Sends.OutcomeTable | packages/db/src/services/notification-dispatch.service.ts:340-394 | Which outcome is stored over which receipt, and that no outcome moves the attempt count |
| Sends.HidesIff | packages/db/src/services/notification-dispatch.service.ts:110-200 | The receipts that hide a notification from the sweep: sent, left to the digest, or in flight for less than five minutes |
| Sends.SweepVersusClaim | packages/db/src/services/notification-dispatch.service.ts:203-231 | Which receipts a sweep can see but no claim will take: exactly quiet ones, refused messages once the connection is not failing, and unretryable or exhausted ones while it is |
| DispatchProtocol.ElsewhereKeepsTargetInv | worker/src/tasks/notification-dispatch.ts:304-446 | Steps of runners on other targets leave a target's invariant alone |
| DispatchProtocol.ClaimKeepsTargetInv | packages/db/src/services/notification-dispatch.service.ts:264-321 | A claim keeps one runner per target while runs are shorter than the lease |
| DispatchProtocol.PostKeepsTargetInv | worker/src/tasks/notification-dispatch.ts:365-391 | A post keeps the account of delivered messages of every target |
| DispatchProtocol.RecordKeepsTargetInv | packages/db/src/services/notification-dispatch.service.ts:340-394 | So do the receipts, a missing poster and a crash |
| DispatchProtocol.TraceKeepsTargetInv | worker/src/tasks/notification-dispatch.ts:304-446 | The target invariant holds in every state of every interleaving |
| DispatchProtocol.AtMostOncePerTarget | worker/src/tasks/notification-dispatch.ts:304-446 | Over every interleaving of runners, retries and rescues shorter than the lease, messages delivered to one target number at most one plus the lost receipts |
| DispatchBounds.StepMovesReached | worker/src/tasks/notification-dispatch.ts:304-446 | How each step moves the set of targets sent to or accepted for: only an accepted post adds one, only a lost record or a crash removes one |
| DispatchBounds.BoundIff | worker/src/tasks/notification-dispatch.ts:304-446 | In every punctual run, however often the connection is re-pointed, a notification has cost exactly its lost messages plus one for each target sent to or accepted for; so the bound of one holds exactly while there is at most one such target |
| DispatchBounds.PostBreaksBoundIff | worker/src/tasks/notification-dispatch.ts:365-391 | An accepted post breaks the bound exactly when another target is already sent to or accepted for |
| DispatchBounds.AtMostOncePerNotification | worker/src/tasks/notification-dispatch.ts:304-310 | Across any number of re-points, a notification costs at most one message plus the lost ones if no run begins on a new channel beside a run still at work on an old one: the settled guard then sees the old run's receipt |
| DispatchBounds.SecondMessageNeedsOverlap | worker/src/tasks/notification-dispatch.ts:304-336 | So behind every second message is a run that began beside one at work on another channel |
| DispatchBounds.RepointPostsTwice | worker/src/tasks/notification-dispatch.ts:304-336 | And such a beginning is enough: two punctual runs deliver twice with no receipt lost |
| DispatchRetries.ClaimKeepsThrowInv | packages/db/src/services/notification-dispatch.service.ts:264-321 | A claim hands out an attempt number nobody held or threw with before |
| DispatchRetries.FailedKeepsThrowInv | worker/src/tasks/notification-dispatch.ts:393-422 | A recorded failure throws at most once with the number it held |
| DispatchRetries.RetryThrowsBounded | worker/src/tasks/notification-dispatch.ts:393-422 | In its whole life a notification throws for a retry at most four times for each channel it was run on, with no assumption on time, crashes or rescues |
| DispatchRetries.OneTargetThrows | worker/src/tasks/notification-dispatch.ts:393-422 | So at most four times in all if its connection is never re-pointed |
| DispatchRetries.ThrowsReachBound | worker/src/tasks/notification-dispatch.ts:393-422 | For any set of channels there is a run, punctual and with no two runs overlapping on different channels, that throws exactly four times for each: every re-point starts a fresh count |
| DispatchTask.Deliver | worker/src/tasks/notification-dispatch.ts:338-446 | From its granted claim a run makes exactly the calls it owes, and throws for a retry exactly when the receipt was committed, Slack refused or threw, the reason is retryable and attempts remain |
| DispatchTask.RunNotificationDispatch | worker/src/tasks/notification-dispatch.ts:275-446 | Every run: the settled guard, the quiet receipt without a channel, the claim, then delivery; with the exact calls, receipts and result |
| DispatchTask.RetryIff | worker/src/tasks/notification-dispatch.ts:393-422 | A run throws for a retry exactly when it claimed, its post threw or was refused as a failed call or a queue that was down, the failed receipt was written with no throw, and its attempt is below five |
| DispatchTask.CallsSayWhy | worker/src/tasks/notification-dispatch.ts:304-446 | Every call of a run and what it carries: the quiet receipt without a channel, the claim, the one post, the outcome the post came to, and the health edge that follows a stored receipt for the connection's own failures alone |
| DispatchTask.OneOutcomePerPost | worker/src/tasks/notification-dispatch.ts:323-446 | A run that posts does so once, right after its claim, and its next call is its only outcome, before it returns or throws; a run that claimed and recorded nothing never reached the channel |
| DispatchSystem.NextIsSteps | worker/src/tasks/notification-dispatch.ts:304-446 | Any number of dispatch jobs running their own code at once: whatever others did since its last call, the next call of a run is enabled in the protocol and makes there the very steps it makes on the receipts |
| DispatchSystem.NextIsTheCodes | worker/src/tasks/notification-dispatch.ts:304-446 | The calls a run makes in that system are those `DispatchTask` proves its code to make |
| DispatchSystem.EventIsSteps | worker/src/tasks/notification-dispatch.ts:275-446 | Every event of that system is at most two protocol steps, of which the second ends a run |
| DispatchSystem.RunsReachTargetOnce | worker/src/tasks/notification-dispatch.ts:304-446 | At most one message per target from the code itself plus the lost ones, however its calls interleave, while runs record within the lease |
| DispatchSystem.RunsReachOnce | worker/src/tasks/notification-dispatch.ts:304-446 | At most one per notification across re-points that leave no run at work on the old channel |
| DispatchSystem.RunsThrowBounded | worker/src/tasks/notification-dispatch.ts:393-422 | At most four retries owed for each channel, with no condition on time or crashes |
| DispatchTask.RunNotificationRescue | worker/src/tasks/notification-rescue.ts:25-63 | The sweep queues one job per unsettled notification it was given, collapses with a job of the same key, and leaves every other job alone |
| DispatchTask.InSweepIff | worker/src/tasks/notification-rescue.ts:25-63 | A notification is swept exactly from the horizon on and while none of its receipts hides it |
| DispatchTask.JobKeyInjective | packages/db/src/jobs/enqueue.ts:19-48 | Two notifications never share a job key |
| DispatchTask.SweptIsClaimed | worker/src/tasks/notification-rescue.ts:46-58 | The job of a swept notification passes the settled guard and, on a connection that is not failing, delivers to whatever channel the connection names, exactly unless the receipt there is quiet or a refused message |
| ReplayDrain.DrainHolds | packages/db/src/repositories/recording-summaries.repo.ts:247-304 | Attempts lose and restamp no row; a new row is that of a landed first attempt |
| ReplayDrain.DrainLeavesPulls | packages/db/src/repositories/recording-summaries.repo.ts:247-330 | Each landed attempt leaves on its row how its own pull ended, first attempt or retry, and every other row is as it was |
| ReplayDrain.DueIff | worker/src/tasks/replay-narration-tick.ts:469-487 | With slots for all, what is due is exactly what is listed and has no row or one whose last pull failed; a recording whose last pull was good is due at no budget |
| ReplayDrain.RetriedIff | worker/src/tasks/replay-narration-tick.ts:469-516 | The two-tick law: a landed recording that is listed again is due again exactly when its pull failed, given the slots |
| ReplayDrain.OldestFirstMeans | worker/src/tasks/replay-narration-tick.ts:431-437 | The queue runs from the oldest start on, a start that is not known counting as the oldest there can be |
| ReplayDrain.TickHolds | worker/src/tasks/replay-narration-tick.ts:483-516 | After a tick the rows are what they were plus exactly the queue's landed recordings |
| ReplayDrain.TickSafeIff | worker/src/tasks/replay-narration-tick.ts:466-516 | From a safe state, a tick over any listing, cut at its page cap or not, leaves everything below the new watermark held exactly when no recording it left unread, listed or not, would be dropped by one it landed |
| ReplayDrain.CompleteTickSafeIff | worker/src/tasks/replay-narration-tick.ts:427-437 | Over a complete listing that is exactly when nothing in its queue that did not land would be dropped by something that did |
| ReplayDrain.OvertakenOnPostHogIff | worker/src/tasks/replay-narration-tick.ts:487-516 | In the order the tick works that failure is: a failed attempt followed by a landed one that started strictly later |
| ReplayDrain.LateFailuresAreSafe | worker/src/tasks/replay-narration-tick.ts:487-516 | Failures at the end of the due order are harmless: always for PostHog, and for rrweb when no two recordings start together |
| ReplayDrain.TickKeepsGood | worker/src/tasks/replay-narration-tick.ts:466-516 | A tick keeps the run invariant |
| ReplayDrain.WatermarkSafety | worker/src/tasks/replay-narration-tick.ts:427-437 | Over ticks that list completely and fail last, each taken as one step: in every reachable state everything the next listing would leave out is held |
| ReplaySystem.LandingSafeIff | packages/db/src/repositories/recording-summaries.repo.ts:247-304 | The exact step: a row added to a safe state keeps it safe exactly when it drops nothing left unheld |
| ReplaySystem.TryKeepsInv | worker/src/tasks/replay-narration-tick.ts:489-514 | One attempt of one tick, on the rows as other ticks have left them, keeps every tick's cover and the watermark safe |
| ReplaySystem.OverlapSafety | worker/src/tasks/replay-narration-tick.ts:466-516 | The same over every interleaving of any number of ticks of a lane, each reading its watermark, listing, reading the held rows and attempting one recording at a time, with arrivals at any point: an arrival is no older than anything held or listed, a listing is complete since the watermark that was read, and a tick lands no first attempt after one that failed |
| ReplaySystem.TickIsRun | worker/src/tasks/replay-narration-tick.ts:447-514 | A whole tick with nothing in between is a run of the system from wherever it starts, every step of it enabled, and makes of the rows what the lane's own loop does |
| ReplaySystem.LaterMayArrive | worker/src/tasks/replay-narration-tick.ts:427-430 | What starts later than everything in the source, held or listed may arrive at any point of any tick |
| ReplayDrain.StrandedIff | worker/src/tasks/replay-narration-tick.ts:487-516 | From a safe state, under either source and over any listing, a tick strands exactly the recordings it leaves unread while one whose start drops them lands |
| ReplayDrain.StrandedForGood | worker/src/tasks/replay-narration-tick.ts:427-437 | A recording that is unheld and below the watermark stays so through any arrivals and any ticks over any listings, under either source, and no later listing names it |
| ReplayDrain.PassedOverForGood | worker/src/tasks/replay-narration-tick.ts:499-516 | So a recording left unread, because its attempt failed, the budget ended or the listing was cut, while one whose start drops it lands, is never read in any run |
| ReplayDrain.EarlyFailureStrands | worker/src/tasks/replay-narration-tick.ts:499-516 | It happens to the older of any two recordings of a first tick when it fails and the younger lands, under either source |
| ReplayDrain.CutListingStrands | packages/adapters/src/posthog/replay-source.ts:98-111 | And to the older of two when the listing is cut before it, though every attempt lands |
| ReplayDrain.TieAtTheCut | packages/adapters/src/posthog/replay-source.ts:125-140 | With two recordings of one instant and the budget cut between them, the rrweb rule strands the second and the PostHog rule does not |
| ReplayDrain.TickProgress | worker/src/tasks/replay-narration-tick.ts:483-516 | An all-successful tick of budget b over n unheld recordings holds exactly min(b, n) more |
| ReplayDrain.RetriesGoLast | worker/src/tasks/replay-narration-tick.ts:484-487 | A due recording is a retry exactly when it stands past the whole backlog |
| ReplayDrain.DrainsInCeil | worker/src/tasks/replay-narration-tick.ts:483-516 | Without arrivals or failures, k ticks of budget b drain the lane exactly when k * b reaches the backlog |
| ReplayTick.Summaries.LatestStartedAt | packages/db/src/repositories/recording-summaries.repo.ts:372-390 | The watermark query: the newest known start among held rows, or none |
| ReplayTick.AttemptAll | worker/src/tasks/replay-narration-tick.ts:489-514 | Each due recording is attempted once and ends in one counter; the rows are the drain's |
| ReplayTick.CountersAre | worker/src/tasks/replay-narration-tick.ts:489-514 | The three counters count what they are named for: throws, retries of recordings with a row, and first readings of those without |
| ReplayTick.RunLane | worker/src/tasks/replay-narration-tick.ts:447-532 | A lane lists since its watermark and attempts exactly the due recordings; a lane that throws has moved nothing |
| ReplayTick.SkippedIsCount | worker/src/tasks/replay-narration-tick.ts:481 | `skipped` is the number of listed recordings held with a good pull, so it is never negative |
| ReplayTick.RunReplayNarrationTick | worker/src/tasks/replay-narration-tick.ts:534-574 | Each lane read attempts exactly what was due to it within what the lanes before it left of the cap, with its rows and its tally as those attempts leave them; a lane that threw or is unread is untouched; the tick reports the sum, never attempts more than its cap and leaves a lane unread only at the cap |
| ReplayTick.TotalsAre | worker/src/tasks/replay-narration-tick.ts:534-574 | Each figure of the total is the sum of that figure over the lanes |
| PollCursors.Connections.AdvanceWatermark | packages/db/src/repositories/project-connections.repo.ts:192-200 | One statement moves both cursors of the row as it stands: the watermark to the greater of its own and the newest instant seen, the backfill cursor to the resume place; and returns the row it left |
| PollCursors.Connections.SetBackfillCursor | packages/db/src/repositories/project-connections.repo.ts:202-207 | One statement sets or clears the backfill cursor of the row as it stands, and returns the row whether or not it changed |
| PollCursors.ApplyCursors | worker/src/tasks/session-source-poll.ts:429-490 | Exactly which writes a good pull leads to, tested on the cursors the poll carries and made on whatever row is stored, with every throw, a row that is gone, the cursors it returns and when it announces a drain |
| PollCursors.PullAndStore | worker/src/tasks/session-source-poll.ts:303-427 | A pass whose run is open pulls, stores, moves the cursors and closes its run, with the row and the run left exactly as its writes ended |
| PollCursors.RunOnePass | worker/src/tasks/session-source-poll.ts:285-427 | A pass with any cursors over any row: what it does to the row and its run, whether it succeeds, and the cursors it hands on |
| PollCursors.PassesAs | worker/src/tasks/session-source-poll.ts:285-427 | A pass over a row that is there, by what its world did: when it succeeds, whether it moves the row forward, back, clears it or leaves it, what it announces, what it hands on and how its run is recorded |
| PollCursors.PassesOverNothing | worker/src/tasks/session-source-poll.ts:429-490 | Over a row that is gone a pass writes and announces nothing, and goes on with its own watermark and no backfill cursor |
| PollCursors.TakeTurn | worker/src/tasks/session-source-poll.ts:221-240 | A turn takes a pass unless the time budget is spent or the run cannot be started |
| PollCursors.PollPasses | worker/src/tasks/session-source-poll.ts:215-265 | The first pull goes out with the cursors the claim read and each later one with those the pass before it returned, whatever the row says by then; a failed pass, or one that saw events, is the last of its loop; each pass has its run row; the loop stops where its world says |
| PollCursors.PollConnection | worker/src/tasks/session-source-poll.ts:167-265 | A key that does not open is a run of its own, recorded as failed without a pass; otherwise the passes of the loop |
| PollCursors.RunFirstPull | packages/db/src/services/connections.service.ts:145-221 | The one pull of a connect: its cursor write on the row as it stands, with no claim and no notice, and its run row, which anything thrown past its start leaves running |
| PollCursors.DrainIsRealIff | worker/src/tasks/session-source-poll.ts:473-487 | An announced drain leaves the row clear with its watermark alone, and marks a real step from set to clear exactly when the stored backfill was still set at the write |
| PollCursors.ClearedSilentlyIff | worker/src/tasks/session-source-poll.ts:429-490 | Exactly when a cursor is cleared without that notice |
| PollCursors.SilentClearExists | packages/adapters/src/posthog/session-source.ts:90-101 | A successful pass that clears it silently |
| PollSystem.NoticesAccounted | worker/src/tasks/session-source-poll.ts:429-490 | Any number of polls and first pulls on one row, late, stale or crashing: drained notices number at most the writes that set the backfill cursor plus the hollow announcements, made over a row already clear |
| PollSystem.AnnouncesRealIff | worker/src/tasks/session-source-poll.ts:473-487 | In any state of that system an announcement marks a real step from set to clear exactly when the stored backfill is still set at the write, and is hollow otherwise, which needs a stale copy |
| PollSystem.StepKeepsInv | packages/db/src/system/pollable-connections.ts:25-49 | While polls end within the interval their claim reserved and no first pull overlaps another pull, every step keeps: one at work at most, with the stored cursors, on a row reserved to it |
| PollSystem.NoStalePull | worker/src/tasks/session-source-poll.ts:215-262 | In such a run at most one poll or first pull is at work, no pull goes out with cursors other than the stored ones, and none is moved under it before it writes |
| PollSystem.NoticesWithinSets | worker/src/tasks/session-source-poll.ts:429-490 | And the notices never outnumber the sets |
| PollSystem.BackfillEpisodes | worker/src/tasks/session-source-poll.ts:221-262 | And between any two notices some write set the cursor again |
| PollSystem.SecondClaimIff | packages/db/src/system/pollable-connections.ts:25-49 | A second poll gets in beside one at work exactly once the first has outlived its interval |
| PollSystem.NoticeTooManyNeedsOverlap | worker/src/tasks/session-source-poll.ts:215-262 | Behind notices that outnumber the sets, or a hollow one, is a poll that outlived its interval or a first pull that overlapped another pull |
| PollSystem.OverrunNotifiesTwice | worker/src/tasks/session-source-poll.ts:221-262 | A pass that outlives its interval: two polls drain the same cursor, and two notices go out for one set |
| PollSystem.RekeyBetweenPasses | packages/db/src/services/connections.service.ts:145-190 | A connect again between two passes: the next pull is stale, and its drain announces a row already clear or clears, and announces, a cursor the connect had set, whose place to resume is lost |
| PollSystem.PassIsSteps | worker/src/tasks/session-source-poll.ts:285-427 | A pass of the code is steps of the system, whatever others did between its pull and its write |
| PollSystem.FirstPullIsStep | packages/db/src/services/connections.service.ts:145-190 | So is the cursor write of a first pull, which ends it and announces nothing |
| PollSystem.WatermarkIsMonotone | packages/db/src/repositories/project-connections.repo.ts:192-200 | The stored watermark never moves back, whoever writes and however late |
| PollSystem.WatermarkReaches | packages/db/src/repositories/project-connections.repo.ts:192-200 | From a stored forward write on, whoever made it, the watermark is at least the newest instant its pull saw |
| PollSystem.DisconnectedForGood | packages/db/src/repositories/project-connections.repo.ts:179-181 | A row that was deactivated is polled no more, whatever connects or deletes it after |
| PollCursors.RunRowIff | packages/db/src/repositories/poll-runs.repo.ts:116-158 | Only a run still running is closed, so a run row contradicts its pass exactly when the write that completed it was stored but thrown, and is left running exactly when neither closing was stored |
| PollCursors.CompletedThoughFailed | worker/src/tasks/session-source-poll.ts:381-426 | A pass that fails and leaves its run completed |
| ModelCalls.CountThenInsert | packages/db/src/repositories/analysis-runs.repo.ts:275-303 | A claim counts in its own snapshot and inserts over whatever landed since: the two steps answer as the one statement does |
| ModelCalls.StepKeepsInv | packages/db/src/repositories/analysis-runs.repo.ts:250-325 | Every count, insert, call and death keeps: slots are in the ledger before they are held or called, and held or called only once |
| ModelCalls.AtMostOneCall | packages/db/src/repositories/analysis-runs.repo.ts:250-325 | Over every interleaving of runs, each model is called at most once per project and signature, and only after a granted claim |
| ModelCalls.StepMovesSpend | packages/db/src/repositories/analysis-runs.repo.ts:275-303 | Only a count that found room adds to what is spent and about to be |
| ModelCalls.CapsHold | packages/db/src/repositories/analysis-runs.repo.ts:275-303 | Each ceiling, of a project or of the organization, holds where at most one of its claims stands between a count that found room and its insert; with at most w such claims at once it is passed by at most w - 1; calls never outnumber the ledger |
| ModelCalls.OvershootNeedsOverlap | packages/db/src/repositories/analysis-runs.repo.ts:275-303 | So behind a ceiling passed are two claims that counted room before either inserted |
| ModelCalls.OvershootReached | packages/db/src/repositories/analysis-runs.repo.ts:275-303 | For every ceiling and every w there is a run that passes both ceilings by exactly w - 1 |
| AnalysisPlan.PlanCandidate | worker/src/analysis/plan.ts:24-205 | The ladder gives exactly the plan and the spend its gates, the ledger and the model's answer call for |
| AnalysisPlan.PlansIff | worker/src/analysis/plan.ts:24-205 | What each kind of plan means: none exactly for a claim or a lookup that threw, suppressed, refused, reused, unrenderable and written up each by its own condition |
| AnalysisPlan.WriteUpsIff | worker/src/analysis/plan.ts:60-205 | What a write-up carries: the rung it stands on by what went wrong first, its finding, and the call it cost with the usage that call reported |
| AnalysisPlan.SpendsIff | worker/src/analysis/plan.ts:85-129 | Exactly when the model is asked, for which slot, and what the claim leaves in the ledger |
| AnalysisPlan.AnswersFrom | packages/db/src/repositories/analysis-runs.repo.ts:253-325 | The ledger's three answers by its two counts and the slots in by the time of the insert |
| AnalysisPlan.PlanFollowsLedger | worker/src/analysis/plan.ts:85-129 | The planner's claim and call are steps of the ledger protocol, whatever other runs did there between its count and its insert |
| AnalysisPlan.PlansMatchSpend | worker/src/analysis/plan.ts:35-205 | A plan names a model call only for a candidate that passed every gate and was granted its slot; refused and suppressed plans never spend; model words only when parsed, split, accurate and clean |
| AnalysisPlan.LostClaimStillEnds | worker/src/analysis/plan.ts:97-115 | A signature whose claim was lost to a crash calls no model again and still ends in the finding on record or a floor write-up |
| AnalysisPlan.FindReadableIsFirst | worker/src/analysis/cause.ts:38-93 | The search returns the first readable session |
| AnalysisPlan.LastCitationWins | worker/src/analysis/cause.ts:77-93 | Of two citations of one session the last is read |
| AnalysisPlan.AnchorIsFirstReadable | worker/src/analysis/cause.ts:77-93 | The anchor is the earliest of the first three sampled sessions with a non-empty transcript, or none if none has one |
| AnalysisPlan.PlanCause | worker/src/analysis/cause.ts:44-190 | The cause stage: its own claim, at most one call, a row only for claims that passed both gates, and exactly when it throws |
| AnalysisPlan.CauseIff | worker/src/analysis/cause.ts:44-190 | When the stage comes to its claim, when it calls the model, and what it keeps: an answer with no offending claim, some claim that survived or was dropped, and clean text |
| AnalysisPlan.ReadableIff | worker/src/analysis/cause.ts:77-93 | A session can be read exactly when its last citation holds a transcript with an action in it |
| AnalysisPlan.CauseFollowsLedger | worker/src/analysis/cause.ts:95-125 | The cause stage's claim and call are steps of the ledger protocol too, with any interference between its count and its insert |
| AnalysisLane.RunTally.constructor | worker/src/analysis/tally.ts:19-32 | A new tally has null totals |
| AnalysisLane.RunTally.ApplyAttribution | worker/src/analysis/tally.ts:34-46 | Totals are null exactly while nothing was reported and the sum otherwise; the first model id stays |
| AnalysisLane.SumNext | worker/src/analysis/tally.ts:34-37 | Null-aware addition is the total one report further |
| AnalysisLane.TotalsAre | worker/src/analysis/tally.ts:34-46 | Each token total is the sum its own side reported, and null while nothing was |
| AnalysisLane.FirstModelIs | worker/src/analysis/tally.ts:38-46 | The model id on record is that of the first call attempted |
| AnalysisLane.CountsAreKinds | worker/src/tasks/analysis-tick.ts:246-304 | The counters are the plans sorted into kinds |
| AnalysisLane.FollowPlan | worker/src/tasks/analysis-tick.ts:244-339 | The write, the tally and the cause stage a plan leads to, exactly, with every throw |
| AnalysisLane.FollowsIff | worker/src/tasks/analysis-tick.ts:244-339 | Following a plan: what it puts on record, for which finding it looks for a cause, and exactly what ends the lane |
| AnalysisLane.PartsIff | worker/src/tasks/analysis-tick.ts:222-339 | A candidate is counted unless its plan or its write-up threw, and ends its lane exactly if anything threw |
| AnalysisLane.CloseRun | worker/src/tasks/analysis-tick.ts:154-187 | The run row says what the candidates came to; a failing close changes nothing else |
| AnalysisLane.RunAnalysisLane | worker/src/tasks/analysis-tick.ts:189-355 | Each candidate meets what the one before it left; the run completes exactly when none throws, and reports the plans it got |
| AnalysisLane.PartIsSound | worker/src/tasks/analysis-tick.ts:222-339 | Every candidate: calls and findings only grow, one that did not throw is counted and on record, and its plan names its one render call exactly unless it could not be written up |
| AnalysisLane.CallsVersusReport | worker/src/tasks/analysis-tick.ts:222-339 | The render calls made are those reported and those whose plan could not be written up |
| AnalysisLane.RunAccounts | worker/src/tasks/analysis-tick.ts:222-354 | persisted + unrenderable + refused + suppressed equals the candidates of a completed run, and on a failed one those taken up less the last exactly when its own write did not go through; render calls equal calls reported plus those of unrenderable plans |
| AnalysisLane.FindingsAreWrittenUp | worker/src/tasks/analysis-tick.ts:306-325 | Every finding a completed run was to write up is on record when it ends |
| AnalysisLane.StopReasonIff | worker/src/tasks/analysis-tick.ts:344-352 | A completed run stops on the cap exactly when the ledger refused one of its candidates for the cap |
| AnalysisLane.PartKeepsSpentOnce | worker/src/tasks/analysis-tick.ts:222-339 | A candidate calls no slot twice, whatever rival runs claim in between |
| AnalysisLane.RunAnalysisTick | worker/src/tasks/analysis-tick.ts:357-407 | Every lane runs on what the lanes before it left; the summary is theirs |
| AnalysisLane.SummaryIs | worker/src/tasks/analysis-tick.ts:377-399 | Each counter of the tick on its own: lanes that ran, were running, threw or did not complete, and the sum of each figure over the runs |
| AnalysisLane.TickAccounts | worker/src/tasks/analysis-tick.ts:377-399 | Lanes run + already running + errored equals the lanes; outcomes stay within candidates; render calls equal calls reported plus those of unrenderable plans |
| AnalysisLane.TickCallsOnce | worker/src/tasks/analysis-tick.ts:357-407 | Over a whole tick no model is called twice for one signature and stage, and none without its slot in the ledger |
| Tombstones.Merged | apps/web/components/audience/AudienceLists.tsx:44-73 | The render pass builds the merged list |
| Tombstones.ReducersKeepReachable | apps/web/components/audience/AudienceLists.tsx:80-86 | Drop and forget keep tombstone ids distinct |
| Tombstones.ForgetRemovesOne | apps/web/components/audience/AudienceLists.tsx:86 | Forget removes exactly the named tombstone |
| Tombstones.ForgetUndoesDrop | apps/web/components/audience/AudienceLists.tsx:80-86 | Undo right after a first drop restores the list |
| Tombstones.LiveOrderIsServerOrder | apps/web/components/audience/AudienceLists.tsx:44-73 | The live rows are the server's rows without a tombstone, once each and in order |
| Tombstones.EveryTombOnce | apps/web/components/audience/AudienceLists.tsx:44-73 | Every tombstone is shown exactly once and none is made up |
| Tombstones.SeatsHold | apps/web/components/audience/AudienceLists.tsx:64-70 | With strictly increasing seats the k-th unplaced tombstone ends at min(seat, base + k) and later splices never move it |
| Tombstones.OwnSeatIff | apps/web/components/audience/AudienceLists.tsx:64-70 | So it is at its own seat in the finished list exactly when that seat is at most the rows and tombstones ahead of it |
| Tombstones.SeatInsideListMayMove | apps/web/components/audience/AudienceLists.tsx:64-70 | A seat inside the finished list is not enough |
| Tombstones.LiveSlot | apps/web/components/audience/AudienceLists.tsx:52-62 | Every live slot comes from one server row, with its key |
| Tombstones.TakeOutCommutes | apps/web/components/audience/AudienceLists.tsx:64-70 | With every splice ahead of it, an entry can be taken out before or after the splices |
| Tombstones.DropIsInPlace | apps/web/components/audience/AudienceLists.tsx:80-85 | While the server still sends the row, dropping it replaces its own slot and nothing else |
| Tombstones.DropSurvivesRefresh | apps/web/components/audience/AudienceLists.tsx:44-88 | Drop stability: with every unplaced tombstone ahead of the dropped row, the list after the server stops sending it is the list before, tombstone at its index, up to the seat numbers in live keys |
| Tombstones.KeysHoldIff | apps/web/components/audience/AudienceLists.tsx:40-42 | Keys included, the two lists agree exactly when no live row stands behind the dropped one |
| Tombstones.TombBehindSlides | apps/web/components/audience/AudienceLists.tsx:64-70 | The premise is needed: an unplaced tombstone behind the row slides past a live row |
| Framing.SplitPieces | evals/find-problems/src/driver-client.ts:19-20 | The pieces hold no newline and spell the stream |
| Framing.CutIsUnique | evals/find-problems/src/driver-client.ts:19-20 | Whoever presents newline-free lines and tail that spell the stream presents these |
| Framing.SplitAppend | evals/find-problems/src/driver-client.ts:18-20 | Only the unterminated tail of what came before matters to what comes next |
| Framing.YieldLines | evals/find-problems/src/driver-client.ts:21-24 | The inner loop yields the parses of a chunk's completed non-blank lines, up to one that throws |
| Framing.BlankIff | evals/find-problems/src/driver-client.ts:22 | A line is passed over exactly when it holds nothing but ECMAScript white space and line ends |
| Framing.ReadMessages | evals/find-problems/src/driver-client.ts:13-26 | However the stream is cut, the messages are the parses of the non-blank newline-terminated lines of the whole stream, in order, up to the first that does not parse |
| Framing.ChunkIndependence | evals/find-problems/src/driver-client.ts:13-26 | Two cuttings of one stream agree, and nothing yielded early is taken back |
| Framing.RoundTrip | evals/find-problems/src/driver-client.ts:13-26 | What is written line by line is read back under every cutting, with a half-written last line withheld |
| InlineSpans.LinkIsDetermined | apps/web/components/channel/inline.ts:6 | At most one link match starts at each place |
| InlineSpans.FindLinkIsLeftmost | apps/web/components/channel/inline.ts:13 | The link replaced next is the leftmost |
| InlineSpans.FlattenedIff | apps/web/components/channel/inline.ts:13 | Flattening leaves a text alone exactly when it holds no link |
| InlineSpans.LeavesLinkIff | apps/web/components/channel/inline.ts:13 | One pass leaves a link exactly when some match's label opens one in front of what follows it, so never when no label holds a `<` |
| InlineSpans.FlattensOnceIff | apps/web/components/channel/inline.ts:13 | And a second pass changes nothing exactly when no label does |
| InlineSpans.FlattenMayLeaveALink | apps/web/components/channel/inline.ts:13 | A text that keeps a link after one pass |
| InlineSpans.FindBold | apps/web/components/channel/inline.ts:18 | The next emphasis is the leftmost match |
| InlineSpans.InlineSpans | apps/web/components/channel/inline.ts:12-32 | The spans account for the flattened text: strong spans are matches, no match begins in a plain span, plain spans never meet; empty text is one empty plain span |
| InlineSpans.SpansAreUnique | apps/web/components/channel/inline.ts:12-32 | No other span list does |
| InlineSpans.MarkupRestores | apps/web/components/channel/inline.ts:12-32 | Asterisks put back around strong spans rebuild the flattened text |
| InlineSpans.SpansAreWellCut | apps/web/components/channel/inline.ts:7-32 | Strong spans are non-empty with no asterisk or newline; no plain span holds a complete match |
| InlineSpans.Keyed | apps/web/components/channel/MessageBody.tsx:11-21 | Each span is keyed by where its text starts in the visible line, in UTF-16 code units |
| InlineSpans.KeysIncrease | apps/web/components/channel/MessageBody.tsx:9-21 | Keys strictly increase, so they are distinct, for every text |
| Trials.ReadTick | scripts/spikes/lib/trial.ts:91-105 | A round records every answer in polling order: first latencies, reported endpoints, the winner and both counts |
| Trials.RoundCounts | scripts/spikes/lib/trial.ts:91-97 | A round adds to either count one for each endpoint that answered so |
| Trials.PollUntilDone | scripts/spikes/lib/trial.ts:87-122 | On an advancing clock the endless loop ends, at the first round that satisfies or expires |
| Trials.EndsInTime | scripts/spikes/lib/trial.ts:107-122 | Every round but the last ends within the timeout, and an unsatisfied trial's last does not |
| Trials.RunOneTrial | scripts/spikes/lib/trial.ts:50-136 | The record: every reported endpoint has a latency (the timeout when unmatched), retrieved exactly when some endpoint matched, exact counts; a failed capture is `errored` |
| Trials.WinnersLatencyIsLeast | scripts/spikes/lib/trial.ts:98-104 | The winner's latency is first sighting less capture time and least among endpoints that matched |
| Trials.TimeoutsOnlyOnExpiry | scripts/spikes/lib/trial.ts:112-119 | The timeout stands in for a latency only when the trial expired |
| Trials.UndercutIff | scripts/spikes/lib/trial.ts:107-119 | The winner's latency exceeds a recorded one exactly when it exceeds the timeout and some endpoint answered without the marker; the winner was then read in the very round that expired |
| Trials.TimeoutMayUndercutWinner | scripts/spikes/lib/trial.ts:112-119 | A round after which it does |
| Trials.RunTrialLoop | scripts/spikes/lib/trial.ts:37-48 | One record a trial, in order |
| Vocabulary.AddToTally | scripts/spikes/lib/t1-vocabulary.ts:181-182 | One event moves exactly its own name's count |
| Vocabulary.BuildEventNameHistogram | scripts/spikes/lib/t1-vocabulary.ts:176-199 | Counts are exact, sum to the denominator and are strictly ordered by count descending and name ascending, by UTF-16 code unit; the window runs from the least to the greatest known time |
| Vocabulary.BelowIff | scripts/spikes/lib/t1-vocabulary.ts:145-148 | Names are compared at the first code unit in which they part, a proper prefix first |
| Vocabulary.HistogramIsDetermined | scripts/spikes/lib/t1-vocabulary.ts:176-199 | The sample settles its histogram and the order of its events plays no part |
| Vocabulary.JudgeRepresentativeness | scripts/spikes/lib/t1-vocabulary.ts:206-232 | Representative exactly when browser events were seen and reach the minimum; the reason tells the failures apart; libraries once each in order |
| Vocabulary.BrowsersNext | scripts/spikes/lib/t1-vocabulary.ts:214-217 | One event more raises the browser count exactly when its library is one of the rules' browser libraries |
| Vocabulary.JudgementSays | scripts/spikes/lib/t1-vocabulary.ts:201-232 | In the sample's own terms: representative exactly when an event of a browser library was seen and their number reaches the minimum, which reason when not, and which libraries are listed |
| Vocabulary.VerdictSettles | scripts/spikes/lib/t1-vocabulary.ts:234-254 | Present exactly when a name of the row occurs, absent exactly when none does in a sample that could have carried it |
| Vocabulary.BuildVocabularyReport | scripts/spikes/lib/t1-vocabulary.ts:256-272 | Every row of the report is settled by the sample alone |
| Vocabulary.MoreEventsOnlyReveal | scripts/spikes/lib/t1-vocabulary.ts:234-254 | Further events never undo a presence and overturn an absence only by a sighting |
| PullBounds.PercentileIff | scripts/spikes/lib/m0-pull.ts:30-33 | A value is at least the percentile exactly when at least p percent of the values are no larger; the percentile is one of the values |
| PullBounds.DistributionIsOrdered | scripts/spikes/lib/m0-pull.ts:35-44 | p50 <= p90 <= max, all values of the run, and nothing exceeds max |
| PullBounds.NextPowerOfTwo | scripts/spikes/lib/m0-pull.ts:142-150 | A power of two that covers the value exactly when 2^52 does, then below twice the value |
| PullBounds.PerTickFits | scripts/spikes/lib/m0-pull.ts:158-165 | The per-tick figure is the largest that is at most 25 and fits half the tick interval |
| PullBounds.PerTickIsZeroIff | scripts/spikes/lib/m0-pull.ts:158-165 | It is zero exactly when one p90 pull takes more than half the interval |
| PullBounds.DeriveConstants | scripts/spikes/lib/m0-pull.ts:158-172 | The derived bounds of two percentiles |
| PullBounds.SummaryNext | scripts/spikes/lib/m0-pull.ts:264-286 | One recording more moves the count of its own outcome and the bytes; the largest answer is the run's greatest, and no less than zero |
| PullBounds.SummaryAccounts | scripts/spikes/lib/m0-pull.ts:264-286 | A summary exists exactly for a non-empty run, outcomes partition it, and the largest pull is within the total |
| PullBounds.BoundCoversIff | scripts/spikes/lib/m0-pull.ts:30-44 | A byte bound lets nine in ten through exactly when it reaches p90 |
| PullBounds.BoundsOfRun | scripts/spikes/m0-recording-pull.ts:522-533 | From a run to its bounds: nine recordings in ten are within the byte bound exactly when 2^52 covers p90, which the bound stays below twice of |

## Left out

- SQL: a delivery or dispatch claim, an outcome write and a cursor write are one atomic step each, as the row they name serialises them. A ledger claim is two steps, a count and an insert; the lookup that tells a taken slot from a spent cap is part of the second. A claim for a project of another organization is left out.
- Deletion of rows under a running delivery or dispatch; the poll does model its connection disappearing.
- Which eligible finding the schedule ranks first: the choice arrives from outside and may name anything.
- Message wording, rendering, health rows, decision text and log lines. Text is an opaque value with a "clean" flag, and a health write is a call that moves nothing.
- Scoring, PII patterns, surface safety and accuracy rules: each is the answer the environment gives.
- Credentials, encryption, HTTP, Slack, PostHog and the model itself: each call is a value of a small answer type.
- `recordPayload`, `recordIdentity` and the read that follows a fresh claim in the analysis lane: they catch their own errors and move nothing modelled here.
- `stampRecordingMeta`, and `summarisedIds` / `retryablePullIds` as two separate reads: the narration lane reads its held rows at one instant, and in `ReplayTick` its listing is a function of the watermark.
- ReplayDrain.WatermarkSafety: has the premise that listings are complete, which the adapters do not promise: PostHog and rrweb both return a listing cut at the page cap as a good one. `TickSafeIff` and the stranding theorems cover cut listings; `OverlapSafety` takes the tick apart.
- DispatchProtocol.AtMostOncePerTarget: a run reads its receipts, its channel and its clock at one instant, as DispatchBounds.AtMostOncePerNotification does too, so a connection re-pointed between the read of the receipts and the read of the channel is not a state of either.
- AnalysisLane.RunAnalysisLane: overlapping runs enter as what they claim and write up around each claim, not as runs interleaved call by call; the ledger they share is interleaved in `ModelCalls`.
- DeliveryTick.RunDeliveryTick: lists the decisions that were recorded; that a repeated answer extends the open decision row, and a changed one closes it, is not modelled.
- DeliveryTick.RunLane: the checks that make a finding deliverable are one flag, because they rest on unmodelled renderers.
- PollCursors.RunOnePass: the events of a pull are a count, because storing them moves no cursor.
- AnalysisLane.FollowPlan: the order of two candidates sharing a signature inside one lane is modelled, but not the row-level upsert that merges their counts.
- Framing.ReadMessages: starts from decoded characters, so a character cut between two chunks and the decoder's last flush are not modelled.
- PullBounds.Percentile: exact arithmetic in place of floating point, and no infinities.
- Trials.RunOneTrial: asks for a clock that advances between rounds, without which the loop need not end; `runLegs` is left out as a plain fold.
- Formatting and tables of the spike scripts, branch selection, `toObservedEvents`, and the heartbeat, provider-interest, digest, growth-context and shipped-readout ticks: they would add only easy members.
