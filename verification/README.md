# Tractor visits, verified

A Dafny model of the tractor-tracking service, with proofs about its runs. The service turns a
stream of ArUco detections into *visits* of a tractor to a farm station, drives each ingested
video through a retry lifecycle, and passes clips and batches along between an ingestion
watcher, an edge device, an MQTT consumer and an SSE broker.

`dafny verify dfyconfig.toml` checks everything.

## How it is laid out

| files | what they hold |
|---|---|
| `VisitModel` | rows, the visits table, and each step of the aggregator as a function on tables |
| `VisitService` | the aggregator as written: mutable row objects, `active_visits` / `last_seen`, a session, a published log; each method equals its function in `VisitModel` |
| `VisitEffects`, `VideoEffects` | what each operation does, read off the columns before and after, whatever functions it is built from |
| `VisitInvariants`, `VisitTiming` | what every run keeps, first with no hypothesis, then with a clock that does not go back |
| `VisitTracks`, `VisitSegments` | interleaved tractors do not disturb each other; what a video does to a pair's rows, read off the detection times alone |
| `VisitChecks`, `VisitFrames` | the table's CHECK constraints when the clock goes back: exactly which runs meet them; what is published about a visit |
| `VisitSweeps`, `VisitContinuity` | stale checks and recoveries; when a visit survives a gap between two videos |
| `VideoModel`, `VideoPipeline`, `VideoLifecycle` | a video's row and events; handler and scheduler with commits and rollbacks; retry budget and event counts over all runs |
| `Ingestion` | watcher, API and the failed folder as one state machine with late and lost answers |
| `EdgeSentinel`, `EdgeBuffer`, `SseBroker`, `Backoff` | the smaller protocols |

The visits table is a sequence of slots whose index is the primary key; a deleted row leaves an
empty slot and ids are never reused. `Track(tb, p)` is one pair's rows in id order, ids
forgotten (`VisitEffects.TrackIsFilter`). A *step* is a whole video, a stale check or a start-up recovery; a *run* is any
sequence of steps. A visit row carries two pieces of history besides its columns: `firstSeen`
and the `frames` published about it, which `VisitService` ties to the one published log.

## Hypotheses

- Times are exact numbers (`real`), so rounding of float seconds plays no part. Where a result
  needs it, `exit_confirm > 0` and `entry_confirm >= 0` (`cfg.Ok()`).
- "Ordered" runs: no step is earlier than the one before, and within a batch sorted by frame the
  wall clocks do not go back. Only results that mention `Ordered` need it; the shape of the
  table, the segmentation, the interleaving theorem, the absorption of sweeps and the exact
  condition for the CHECK constraints do not.
- Batches, stale checks and recoveries do not interleave, and their flushes and commits succeed;
  `VisitChecks` says exactly when every table that a run flushes or commits meets the CHECK
  constraints. A flush inside a batch happens when a visit is inserted, and shows the database
  everything the batch has changed so far.
- `created_at` is arbitrary: each event carries the value the database would stamp on a visit
  inserted for it.
- Attempts on one video do not overlap, its first attempt starts while the row is still CREATED,
  and no crash falls between two commits of one attempt. `retry_count` is never NULL: the schema
  rejects it (alembic/versions/e31b2289c092_video_files.py:48), so the scheduler's attempt to set
  it to NULL changes nothing.
- `VideoModel` is about uploaded and ingested videos. The edge sentinels are rows of the same
  table that carry events while PROCESSING (src/services/video_service.py:204-211) and that the
  stale pass and the scheduler pick up like any other row; they are excluded there.
- A file name in the watch folders is used for one clip, whose content does not change.
- A copy into cold storage is one step. `shutil.copyfile` truncates the shared path first
  (ingestion/cursor.py:60-63), so a late request that hashes the file meanwhile, or a retry that
  reads it, could see half a file; that is excluded.
- A video is given up at most once: INVALID rows are never retried (`VideoLifecycle.RunKeeps`).
- Marker lookups give the same answer throughout one attempt.

## Where code and documentation differ

The model follows the code.

- The README promises one SSE frame per state transition. The loop's own step to LEAVING is not
  published (src/services/visit_service.py:98-103), so a resumed visit can announce PRESENT twice
  in a row; `VisitInvariants.Follows` is the exact grammar (`VisitFrames.FollowsIsExact`).
- The module text says a stale check closes a visit after `exit_confirm_seconds`; it takes two
  such windows (src/services/visit_service.py:193-201).
- "A tractor parked across two video files is a single visit" holds for a visit that has arrived
  and every gap below two exit windows; beyond that only if a stale check fell in the second
  window. A visit that is still ENTERING is deleted by a stale check 3 * `entry_confirm` after its
  insertion, or by a start-up recovery, however short the gap. That is the normal state after a
  first clip, whose detections are all stamped at nearly one time
  (src/services/video_handler.py:112). `VisitContinuity.OneVisitAcrossVideos` has the exact
  condition for both, `VisitContinuity.FirstClipForgotten` the failing input.
- The sentinel's `started_at` is said to stay at the first event's time; the code lowers it when
  an earlier batch arrives (src/services/video_service.py:191-200).
- The watcher counts on a stable copy in cold storage before it posts and unlinks
  (ingestion/main.py:79-91). The scheduler moves that copy away when it gives the video up, which
  can even happen before the unlink (`Ingestion.BuriedBeforeUnlink`); the clip is then in the
  failed folder.
- A video whose last retry failed is said to become INVALID. If the move of its file raises, it
  stays FAILED with no budget left and nothing ever retries it (`VideoLifecycle.StuckIff`).
- The method `create_and_commit` only flushes; the request's session dependency commits
  (src/dependencies.py:18-25).
- The scheduler text says a video becomes INVALID once `retry_count` exceeds the cap; it does when
  the count reaches it (src/services/scheduler.py:248-256).

## Model

| member | source | states |
|---|---|---|
| `VisitAggregator.VisitService.ProcessVideoForVisits` | src/services/visit_service.py:59-124 | the whole batch, with its two cached indexes, commits exactly the table of `Batch`, which uses no cache; an empty batch or a video without station changes nothing |
| `VisitAggregator.VisitService.HandleEvent` | src/services/visit_service.py:89-116 | after every iteration `active_visits` is exactly the station's open rows by pair and `last_seen` their `last_seen_at`; the table moved as if it had been queried afresh |
| `VisitAggregator.VisitService.ApplyStateTransition` | src/services/visit_service.py:130-165 | the row and the published log after a detection of an open visit |
| `VisitAggregator.VisitService.MaybeCloseVisit` | src/services/visit_service.py:167-206 | the row (or its deletion) and the published log after the exit timer |
| `VisitAggregator.VisitService.CloseIfQuiet` | src/services/visit_service.py:97-103 | the loop's shortcut, run on the cached time of the last detection |
| `VisitAggregator.VisitService.CreateVisit` | src/services/visit_service.py:224-238 | the successful insert: a new id, an ENTERING row, its frame |
| `VisitAggregator.VisitService.GetOpenVisitsForStation` | src/services/visit_service.py:249-253 | the index built from the table holds every open row of the station and nothing else |
| `VisitAggregator.VisitService.ForceClose` | src/services/visit_service.py:118-122 | the final pass, in any order over the index, is one sweep of the station |
| `VisitAggregator.VisitService.CheckStaleVisits` | src/services/visit_service.py:355-366 | one sweep of all open rows; the returned number is how many rows went from open to CLOSED |
| `VisitAggregator.VisitService.RecoverOpenVisits` | src/services/visit_service.py:368-384 | deletes exactly the over-age ENTERING rows and reports both counts truly |
| `VisitAggregator.VisitService.PublishStatusChange` | src/services/visit_service.py:390-418 | appends one message with the row's present state, times and the event id to the log, and each visit's share of the log stays its own history |
| `VisitEffects.IgnoredDetection` | src/services/visit_service.py:89-91 | an event without a tractor or outside the region of interest changes nothing |
| `VisitEffects.SeenIsRecorded` | src/services/visit_service.py:89-116 | any other event leaves its pair with a newest row that is open and was last seen just then |
| `VisitEffects.SeenFirst` | src/services/visit_service.py:215-238 | a pair without an open row gains one ENTERING row, and one frame is published |
| `VisitEffects.SeenEntering` | src/services/visit_service.py:137-151 | all columns and frames of an ENTERING visit after its next detection |
| `VisitEffects.SeenPresent` | src/services/visit_service.py:97-116 | the three outcomes for a PRESENT visit, by the gap: silent, resumed with a frame, closed and followed by a new one |
| `VisitEffects.SeenLeaving` | src/services/visit_service.py:156-163 | a LEAVING visit is resumed however late, with a frame |
| `VisitEffects.CheckEffect` | src/services/visit_service.py:167-206 | what a stale check makes of every row, in each state and on each side of 3 * `entry_confirm`, one exit window and two, frames included |
| `VisitEffects.StartupEffect` | src/services/visit_service.py:368-384 | a recovery deletes exactly the ENTERING rows older than `entry_confirm` * `recovery_grace_multiplier` |
| `VisitEffects.VideoEffect` | src/services/visit_service.py:73-124 | a video is its events in frame order and then the exit timer on the rows of its station; without a station or events it is nothing |
| `VisitEffects.LoopEffect` | src/services/visit_service.py:89-116 | the loop takes its events one by one, in order |
| `VisitEffects.MineIsFilter` | src/services/visit_service.py:89-93 | a pair's own detections are exactly those of its tractor inside the region of interest, once each and in order |
| `VisitSegments.LoopSegments` | src/services/visit_service.py:89-116 | for any pair, the loop over any mixed batch leaves its closed rows alone and turns its open row, if any, and its own detections into exactly the declarative stays, event ids and `created_at` included |
| `VisitSegments.VideoSegments` | src/services/visit_service.py:73-124 | the same for a whole video, in closed form: the last stay is deleted, moved to LEAVING, closed or kept by its times and the last wall clock |
| `VisitSegments.SegmentsAppend` | src/services/visit_service.py:130-206 | one more detection changes only the last stay |
| `VisitSegments.ArrivalIsFirst` | src/services/visit_service.py:137-146 | a stay arrives with the first later detection at least `entry_confirm` after its start |
| `VisitSegments.SilenceIsFirst` | src/services/visit_service.py:98-105 | a stay ends at the first later gap of two exit windows |
| `VisitTracks.InterleavingInvisible` | src/services/visit_service.py:89-122 | a mixed batch gives each pair, ids apart, what its own in-ROI events alone and one sweep at the batch's last wall clock would |
| `VisitTracks.LoopOnTrack` | src/services/visit_service.py:89-116 | the loop on the table, seen by one pair, is the loop over its own detections on its newest row |
| `VisitTracks.BatchOnTrack` | src/services/visit_service.py:89-122 | what a batch does to each pair of its own station, and that it leaves pairs of other stations alone |
| `VisitTracks.SortIsStable` | src/services/visit_service.py:73 | frame order, with nothing lost, added or swapped within a frame |
| `VisitInvariants.RunKeeps` | src/services/visit_service.py:59-247 | every run, whatever its clocks: `arrived_at` null iff ENTERING, `departed_at` set iff CLOSED, only a pair's newest row open, frames follow the grammar and end with the row's state, arrival times final, CLOSED rows untouched, only ENTERING rows deleted |
| `VisitInvariants.ShapedIsUnique` | alembic/versions/0005_visits.py:147-154 | at most one open row per pair |
| `VisitFrames.FrameGrammar` | src/services/visit_service.py:390-418 | one ENTERING, first; LEAVING never twice running; CLOSED only last |
| `VisitFrames.FollowsIsExact` | src/services/visit_service.py:390-418 | one state follows another in what some ordered run publishes about a visit iff `Follows` allows it, under every configuration |
| `VisitInvariants.QuietExitIsCloseOut` | src/services/visit_service.py:98-103 | the in-loop close-out does to the row what the exit timer would, and publishes the same except for LEAVING |
| `VisitTiming.RunMeetsConstraints` | alembic/versions/0005_visits.py:91-106 | every ordered run from an empty table meets all four CHECK constraints and the unique index, and no row arrives after it was last seen |
| `VisitTiming.RunTimely` | src/services/visit_service.py:130-206 | every ordered run: ENTERING rows have `entry_seen_seconds` = last seen - first seen, arrivals come at least `entry_confirm` after the first detection, departures one exit window after the last |
| `VisitTiming.VisitsNeverOverlap` | src/services/visit_service.py:98-116 | a pair's later visit starts at least one exit window after every earlier departure, so its closed durations plus one window each fit between its first detection and now |
| `VisitChecks.RunAcceptedIff` | alembic/versions/0005_visits.py:91-106 | every run, whatever its clocks: all that it flushes and commits meets the CHECK constraints iff each step's detection times meet `StepMeets` |
| `VisitChecks.DoMeetsIff` | alembic/versions/0005_visits.py:91-106 | the same for one batch with its flushes, one stale check or one recovery |
| `VisitChecks.LoopAcceptedIff` | src/services/visit_service.py:224-247 | every flush that inserting a visit causes inside a batch is accepted iff, whenever a detection begins a stay, all pairs of the station have acceptable times so far |
| `VisitChecks.FlushedIff` | src/services/visit_service.py:105-112 | the loop inserts a row exactly when a detection begins a stay of its pair |
| `VisitChecks.VideoMeetsIff` | src/services/visit_service.py:89-122 | for one pair and a whole video: its rows meet the constraints iff each stay that never arrives was last seen no earlier than it began, or is deleted, and each that closes arrived less than one exit window after its last detection |
| `VisitChecks.LoopMeetsIff` | src/services/visit_service.py:89-116 | the same for any part of the loop, as a flush inside it finds the rows |
| `VisitChecks.OrderedRunsMeet` | alembic/versions/0005_visits.py:91-106 | a clock that does not go back meets the condition |
| `VisitChecks.EntryTimeBelowZero` | src/services/visit_service.py:137-141 | it can fail: two concrete events drive `entry_seen_seconds` below zero |
| `VisitChecks.DepartureNotAfterArrival` | src/services/visit_service.py:193-205 | and four concrete events close a visit with `departed_at` equal to `arrived_at` while its entry time is fine |
| `VisitChecks.FlushBelowZero` | src/services/visit_service.py:224-247 | and a batch whose final table is fine fails at the flush that a second tractor's first detection causes |
| `VisitSweeps.SweepsAbsorb` | src/services/visit_service.py:167-206 | any nondecreasing list of stale checks leaves the table and frames of the last one alone |
| `VisitSweeps.RecoveryAbsorbedIff` | src/services/visit_service.py:368-384 | a recovery before a check is absorbed by it, for all tables and times, iff its age limit is at least 3 * `entry_confirm` |
| `VisitSweeps.DefaultGraceIsAbsorbed` | src/config/visit.py:36-43 | in particular for every `recovery_grace_multiplier` of at least 3 |
| `VisitSweeps.SweepConserves` | src/services/visit_service.py:355-366 | open before = open after + returned count + deleted, and only ENTERING rows are deleted |
| `VisitSweeps.SweepLeavesNoneOpen` | src/services/visit_service.py:167-206 | a check leaves no open visit iff every ENTERING row is 3 * `entry_confirm` old and every other one unseen for two exit windows |
| `VisitContinuity.OneVisitAcrossVideos` | src/services/visit_service.py:98-116 | after any run without a detection of the pair, the next detection continues its open visit, ENTERING or arrived, in the same row iff `Continues`; otherwise that row is deleted or CLOSED and a new one starts |
| `VisitContinuity.ShortGapIsOneVisit` | src/services/visit_service.py:98-116 | a gap below two exit windows never splits a visit that has arrived, and an ENTERING one iff it does not survive the last stale check and the last recovery |
| `VisitContinuity.EnteringRun` | src/services/visit_service.py:174-182 | a run without a detection of the pair leaves an ENTERING row exactly as it was if it survives, and deletes it if not |
| `VisitContinuity.FirstClipForgotten` | src/services/visit_service.py:174-182 | a visit made by a first clip with one detection, then a stale check 3 * `entry_confirm` later, then a further detection: the first row is gone and a second one starts |
| `VisitContinuity.ForeignRun` | src/services/visit_service.py:167-206 | such a run amounts, for every row of the pair, to one recovery and one exit timer, each at the last time the run applied it |
| `VisitContinuity.StaleCheckRescuesIff` | src/services/visit_service.py:98-116 | on a table whose pair is PRESENT and found again after two exit windows or more, the detection splits the visit; after one stale check it resumes it iff the check fell in the second window |
| `VideoPipeline.BuildPayloads` | src/services/video_handler.py:90-117 | with the marker cache, each row gets the tractor an uncached lookup gives |
| `VideoPipeline.Pipeline.RecognizeVideo` | src/services/video_handler.py:52-126 | what is flushed, and that it is committed exactly when the aggregator commits |
| `VideoPipeline.Pipeline.ProcessVideoWithErrorHandling` | src/services/video_handler.py:155-219 | through its commits and rollback it leaves committed exactly the row of `Attempt` |
| `VideoPipeline.Pipeline.RegisterVideo` | src/dependencies.py:18-25 | a request's new row is committed when the endpoint returns; a refusal or a later error leaves nothing |
| `VideoPipeline.Pipeline.CreateAndCommit` | src/services/video_service.py:53-106 | bad times, a missing file and a known hash are refused in this order and change nothing; otherwise a CREATED row joins the session, uncommitted |
| `VideoPipeline.Pipeline.MarkPermanentlyFailed` | src/services/video_service.py:221-242 | moves the file if it is there and marks the row INVALID; neither if the move raises |
| `VideoPipeline.Pipeline.HandleRetryFailure` | src/services/scheduler.py:216-262 | at the cap the row is given up, unless the move of its file raises; otherwise nothing changes |
| `VideoPipeline.Pipeline.ProcessSingle` | src/services/scheduler.py:174-214 | one retry and the reaction to its failure |
| `VideoPipeline.Pipeline.MarkStaleVideos` | src/services/scheduler.py:109-140 | flips exactly the stale CREATED and PROCESSING rows and returns their number |
| `VideoPipeline.Pipeline.ProcessFailedVideos` | src/services/scheduler.py:145-172 | retries exactly the FAILED rows below the cap, each once, in any order |
| `VideoPipeline.Pipeline.RunTick` | src/services/scheduler.py:98-107 | a tick commits the database of the step `Tick` and returns both counts |
| `VideoEffects.AttemptEnds` | src/services/video_handler.py:155-219 | status, count, events and counter after every way an attempt can go: a first attempt that fails ends FAILED for every error, a retry FAILED or, for a retriable error, PROCESSING |
| `VideoEffects.RegisterEffect` | src/services/video_service.py:93-106 | a new row is CREATED, with nothing spent, counted or stored |
| `VideoEffects.FirstEffect` | src/services/video_handler.py:155-219 | every column after a first attempt, and no other row touched |
| `VideoEffects.TickEffect` | src/services/scheduler.py:98-262 | for each row of the table, which rows a tick tries and every column afterwards, the file's place included |
| `VideoEffects.TickCounts` | src/services/scheduler.py:98-172 | the rows that a tick reports as marked and as retried |
| `VideoEffects.StatusIsLastAttempt` | src/services/video_handler.py:155-219 | after every run the status tells how the last attempt went: PROCESSING exactly after a retry with a retriable error, INVALID only after a retry that failed for good |
| `VideoLifecycle.RunKeeps` | src/services/scheduler.py:98-262 | between ticks INVALID means budget spent and only INVALID rows have their file moved; COMPLETED and INVALID rows never change |
| `VideoLifecycle.StuckIff` | src/services/scheduler.py:248-256 | a FAILED video has budget left unless its last retry failed and the move of its file raised, and then it has none |
| `VideoLifecycle.DoomedGetsStuck` | src/services/scheduler.py:248-256 | such a run for every budget of at least 1: the video gets stuck with the last of its retries, not before |
| `VideoLifecycle.FailedMeansBudgetIff` | src/repositories/video_file.py:66-80 | over all runs without such a move, FAILED means budget left iff `max_retry_attempts` is at least 1 |
| `VideoLifecycle.BudgetRunsOutExactly` | src/services/scheduler.py:216-262 | a FAILED row whose retries keep failing goes up by one a tick and is INVALID after exactly max - `retry_count` ticks, or FAILED for good if its file cannot be moved |
| `VideoLifecycle.RetryCountIsFailedRetries` | src/services/video_handler.py:194-219 | `retry_count` counts exactly the retries that failed for good; first failures, stale flips, retriable errors and successes cost nothing |
| `VideoLifecycle.NoBudgetStaysFailed` | src/repositories/video_file.py:66-80 | with a cap of 0 no run ever changes a FAILED video |
| `VideoLifecycle.EventsAreOneAttemptsIff` | src/services/video_handler.py:119-199 | a COMPLETED video has exactly its last attempt's events and a true `events_found`, any other has none, iff no attempt failed after the aggregator's own commit |
| `VideoLifecycle.LateFailureDoublesEvents` | src/services/video_handler.py:119-199 | such a run, for every budget: a late failure and a successful retry leave a COMPLETED video with two event rows that counts one |
| `Ingestion.NoLostOrDoubledClip` | ingestion/main.py:77-94 | in every reachable state an unlinked clip has exactly one row with its hash and a copy: in cold storage, or else in the failed folder, where its INVALID row says |
| `Ingestion.AlwaysDeliverable` | ingestion/main.py:66-94 | from every reachable state, one undisturbed pass of a producer gets any queued clip unlinked, accepted if its hash is new and as a duplicate if not |
| `Ingestion.DeliveredBothWays` | ingestion/main.py:84-91 | for every clip, a run that unlinks it after acceptance and one that does after a duplicate answer |
| `Ingestion.UnlinkEffect` | ingestion/main.py:91 | the source leaves the queue, its clip is recorded as unlinked, and nothing else changes |
| `Ingestion.ServeEffect` | src/services/video_service.py:83-104 | the answer to every request and the row it adds, if any |
| `Ingestion.ReceiveEffect` | ingestion/main.py:82-89 | an error answer sends the producer back to its scan, the others let it unlink |
| `Ingestion.UploadEffect` | src/router/v1/video.py:86-108 | a new clip leaves a file and a row, a known one nothing |
| `Ingestion.BuryEffect` | src/services/video_service.py:221-242 | in a reachable state the file of a video given up leaves cold storage for its own name, and its row follows |
| `Ingestion.UnlinkComesLast` | ingestion/main.py:80-91 | a copy and a row are there before a producer unlinks, and nothing that happens later takes either away |
| `Ingestion.ColdIff` | src/services/video_service.py:143-156 | a clip's copy is in cold storage iff some step put it there and the video that owns the file has not been given up since |
| `Ingestion.BuriedBeforeUnlink` | src/services/video_service.py:221-242 | a run in which the copy has left cold storage before the source is unlinked |
| `Ingestion.BuryKeeps` | src/services/video_service.py:143-156 | giving a video up always finds its file, moves it and points the row at it, and takes no clip's last copy |
| `Ingestion.ArrivalsConserved` | ingestion/main.py:66-94 | every clip that arrived is queued or unlinked, not both |
| `Ingestion.HandleRegisters` | src/services/video_service.py:83-104 | a request adds at most one row, only for a new hash and a copy in cold storage; both non-error answers mean the hash is registered |
| `EdgeSentinel.EdgeIngest.GetOrCreateEdgeSentinel` | src/services/video_service.py:158-215 | creates the sentinel or widens its window both ways |
| `EdgeSentinel.EdgeIngest.IngestEdgeBatch` | src/router/v1/events.py:41-99 | errors change nothing; an accepted batch appends one row per detection, in order, stamped with its end; "created" exactly on a station's first accepted batch, the same id ever after |
| `EdgeSentinel.AcceptKeeps` | src/services/video_service.py:189-215 | one sentinel per station with an accepted batch, its window the least around all of them, with started < ended |
| `EdgeSentinel.WindowOrderIrrelevant` | src/services/video_service.py:189-202 | two endpoints that have accepted the same batches for a station, in any order and with repeats, agree on whether it has a sentinel, on its window and on its station id |
| `EdgeSentinel.EventsInsideWindow` | src/router/v1/events.py:72-88 | every event's wall clock lies in its station's window |
| `SseBroker.SSEBroker.Connect` | src/sse/broker.py:22-25 | a new subscriber starts at the present end of the log |
| `SseBroker.SSEBroker.Disconnect` | src/sse/broker.py:27-29 | removes that subscriber only |
| `SseBroker.SSEBroker.Publish` | src/sse/broker.py:31-50 | every connected subscriber's received frames followed by its queue are the log since it connected |
| `SseBroker.SSEBroker.Get` | src/sse/broker.py:52-61 | messages leave a queue in order, once each |
| `EdgeBuffer.EdgePipeline.ProcessFrame` | edge/main.py:175-195 | detections of triggered frames join the buffer in order |
| `EdgeBuffer.EdgePipeline.Flush` | edge/main.py:207-241 | the whole buffer becomes one batch; only the final flush publishes an empty one |
| `EdgeBuffer.EdgePipeline.RunToStop` | edge/main.py:107-132 | after a run the handed batches, concatenated, are every detection once and in order, the buffer is empty, and each timer flush had handed over all that was detected by then |
| `EdgeBuffer.TriggeredIs` | edge/main.py:175-195 | the detections of a stream are those of its triggered frames, in order |
| `Backoff.RunForever` | src/services/mqtt_client.py:268-318 | the k-th consecutive failure waits min(initial * 2^k, max), the first one initial; a successful subscribe starts over |
| `Backoff.FailureWaits` | src/services/mqtt_client.py:299-318 | the wait of one more failure to subscribe after n in a row, counted from the start, a clean end or a break |
| `Backoff.WaitsReset` | src/services/mqtt_client.py:277-318 | a break after a successful subscription waits the initial delay whatever came before; a clean end waits for nothing |
| `Backoff.PlainClosedFormIff` | src/services/mqtt_client.py:268-318 | the formula covers the first wait iff initial <= max |
| `Backoff.ForwardWithRetries` | mqtt_consumer/main.py:159-207 | posts until the first 2xx or 4xx or `max_retries`, sleeping a doubling delay between posts only; which result is reported |
| `Backoff.DelaysAddUp` | mqtt_consumer/main.py:160-207 | the delays before the n-th post total backoff * (2^(n-1) - 1) |

## Left out

- CreateVisit: models the insert that succeeds. When a concurrent worker wins the race the code rolls back, adopts the other row and may return nothing; that needs interleaved batches, which the hypotheses exclude.
- PublishStatusChange: `duration_seconds`, timestamp and ids in the payload are not modelled, nor that failures are swallowed.
- MaybeCloseVisit: rows with a NULL `last_seen_at` are not modelled; the service never writes one.
- CheckStaleVisits: selection and closing are one pass over the table in id order; the code's query fixes no order, and rows do not influence each other.
- ProcessFailedVideos: the retries of one tick run one after the other, in any order, instead of concurrently; each touches only its own row.
- Publish: the handling of a queue whose `put` raises is left out; the queues are unbounded and never do.
- NoLostOrDoubledClip: a direct upload is one step, its temporary file and the rename included. Producers are a step relation and not loops, because their interleaving with requests still in flight is what matters.
- RunToStop: frame skipping, pacing, reconnects and the MQTT publication itself are outside the model; a failed publication drops its batch.
- RunForever: the passes are those before the stop event; what a handler does with a message is outside the model.
- Visits driven by an attempt that fails late, and driven again by its retry, are not connected to the video lifecycle. To the aggregator the retry is one more video of a run, so `VisitContinuity.OneVisitAcrossVideos` says whether it prolongs the visit or adds a second one.
- The status queries, CRUD routers, station and tractor services, settings, logging and scripts would only add easy members.
- Decoding, motion gate, marker detection and executor pools are foreign calls; their detections are inputs.
- SHA-256 is taken to be free of collisions.
