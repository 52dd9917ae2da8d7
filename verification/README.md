# Verified model of CodeAlmanac

A Dafny model of the parts of CodeAlmanac whose correctness depends on order, interleaving or exact text: the local run
store and its queue, the archived job worker and transcript sync, the process-tree freeze, the run transcript, the
configuration and block editors, and the wiki index. `dafny verify dfyconfig.toml` checks all of it.

Code that changes state is a class or a method with loops, proved equal to a function of the old state; the theorems are
about those functions and about all runs built from them. Clocks, process identifiers, hashes, file contents and what other
processes do in between are inputs.

| modules | component |
|---|---|
| `Timestamps`, `RunModels`, `RunTransitions`, `RunEvents`, `RunStore`, `RunHistory`, `RunsService`, `RunAnswers` | run records, event log, life cycle, telemetry, and what each call answers |
| `RunAttach`, `RunQueue`, `WorkerLocks`, `QueueDrain` | attach stream, queue position, worker lock, drain loop |
| `JobRecords`, `JobStore`, `JobProtocol`, `JobRest`, `JobFailures`, `JobAnswers` | archived job worker: one worker step by step, all interleavings, the record at rest, what goes wrong, and what is written |
| `SyncCursors`, `Utf8Pieces`, `SyncLedger`, `SyncSweep` | archived transcript sync: bytes and lines, ledger protocol, the sweep |
| `ProcessFreeze` | freezing a process tree that keeps moving |
| `RunSteps`, `RunStepAnswers`, `RunProjector` | transcript projection: the fold, what each event adds, and the objects that carry it |
| `ManagedBlocks`, `TomlLines`, `TomlText`, `TomlEdits`, `TomlPlaces` | text editors for instruction files and the user configuration |
| `IndexTables`, `IndexProjection`, `TopicClosure` | index tables, refresh and rebuild, bounded topic closure |
| `JsonStrings`, `JsonGrammar`, `ConfigLines`, `ConfigReading`, `ConfigCodec`, `ConfigObjects`, `ConfigSchema`, `ConfigFile`, `ConfigAnswers` | archived configuration: codec, schema, patching |
| `Outcomes`, `Text`, `TextLines` | results, strings, lines |

## What the proofs found

Where an expected property is false of the code, the model keeps the code, names an input and gives the exact condition.

- A drain strands waiting runs exactly when the last worker stops early while it holds the lock (its run limit, an unconfirmed
  cancellation, or an exception), or when the last awaited worker is not spawned or ends before it tries for the lock
  (`QueueDrain.StrandsExactlyWhenAbandoned`); four legal histories reach it (`StrandedByCancellation`, `StrandedByRunLimit`,
  `StrandedByFailedSpawn`, `StrandedByException`).
- A STATUS event given to `record_event` always breaks the agreement between log and record
  (`RunsService.OnlyStatusEventsBreakReplay`), and so does a second create under one id, which nothing refuses
  (`RunHistory.CreateIsSoundForNewIds`).
- A lost lease deletes the row of another exactly when an equal owner, pid and time was granted after the loss and still holds
  (`WorkerLocks.LostLeaseDeletesExactlyItsEqual`); two drains of one process at one clock reading do it
  (`WorkerLocks.EqualTupleDeletesSuccessor`).
- The extra poll the attach stream allows for a missing terminal event is never needed on a log this store wrote.
- Cancelling an archived job is sticky for the result its worker reports, but not for its record. Over all histories the record of
  a job marked before its first check reads failed at rest exactly when a failure write came after the last cancelled write, else
  cancelled (`JobRest.MarkedRecordAtRest`). Two histories reach the first case, one with an unreadable spec and one with a failed
  spawn (`JobFailures.CancelledJobEndsFailed`, `FailedSpawnOverwritesCancelled`). For one worker draining alone it is the case
  exactly when the spec cannot be read (`JobStore.MarkedJobNeedsItsSpec`).
- The archive loses the wakeup of a queued job exactly when a step ends the last live worker after the job's enqueuer has spawned
  (`JobProtocol.LosesExactlyTheLastWorker`). The signal of an ordinary cancel can do it (`JobFailures.CancelLosesAWakeup`).
- The first sync cursor is wrong exactly when the skipped bytes hold malformed UTF-8 whose pieces are not three bytes long
  (`SyncCursors.InitialCursorIsExact`, `MalformedLineOvershoots`). A transcript that was only appended to is flagged as rewritten
  exactly when it has grown past a first cursor that lay beyond it, and then none of it is ever offered
  (`SyncLedger.FlaggedExactly`, `MalformedTranscriptIsFlagged`). When an absorbed prefix ends inside a line, and only then, the rest of that line is in the
  line range of no later job (`SyncCursors.UnfinishedLineIsLost`). Byte ranges tile from the first cursor on, right or wrong;
  bytes before it are offered to no job.
- The transcript projection fails on a status message made of separators only, and on an unmatched tool result with nothing
  but blank text (`RunSteps.FailsExactlyWhenRefused`, `UnderscoreIsRefused`).
- Upserting a managed block twice differs from upserting it once exactly when a marker stands in the file without a start before
  its first end (`ManagedBlocks.UpsertIsIdempotent`, `EndBeforeStartIsNotSettled`); a start without an end makes the second upsert drop user text
  (`ManagedBlocks.StrayStartLosesText`).
- The topic closure is exact if and only if no topic is first met at the 33rd step (`TopicClosure.ClosureIsExact`); a chain of 34
  topics loses its last (`TopicClosure.ChainIsCut`).
- Any write of the archived configuration loses a sync date given only by the legacy key, and the model names `""`,
  `"default"` and `"null"` do not read back (`ConfigCodec.ConfigRoundTrip`, `LegacyDateIsLost`; `ConfigSchema.PatchThenRead`,
  `DefaultIsNoModelName`).

## Model

| member | source | states |
|---|---|---|
| `Timestamps.TextOrderIsTimeOrder` | src/codealmanac/services/runs/store.py:342-343 | The stored `isoformat()` texts of two UTC instants compare byte by byte as the instants compare in time, and are equal only for equal instants, although zero microseconds drop the fraction (so the premise of section 5.1 of RFC 3339 does not hold) |
| `RunTransitions.FirstEndingWins` | src/codealmanac/services/runs/transitions.py:58-144 | Helper law of the single transition, which RunsService.HistoryMovesForward carries over all histories: of two endings the first is recorded as given, and no later finish, cancellation or start changes or restarts the run |
| `RunTransitions.CancellationTakesTwoSteps` | src/codealmanac/services/runs/transitions.py:83-144 | Helper law: a running run is cancelled by its own executor only, after a request; both directions of every refusal; asking twice changes nothing, the first request time and what the run had told are kept |
| `RunTransitions.StartedOnce` | src/codealmanac/services/runs/transitions.py:22-42 | Helper law: a queued run starts once; a second start succeeds exactly for the same executor or none, and changes nothing |
| `RunEvents.AppendExtendsLog` | src/codealmanac/services/runs/events.py:16-67 | Appending gives the next sequence number of that run and leaves every other run's log alone |
| `RunEvents.DenseRowsAreOrdered` | src/codealmanac/services/runs/events.py:69-80 | Rows numbered 1..n are what `list` returns, in that order |
| `RunStore.RunEventStore.AppendOnConnection` | src/codealmanac/services/runs/events.py:16-67 | The method appends exactly that row; a blank message is refused and nothing is written |
| `RunStore.RunEventStore.List` | src/codealmanac/services/runs/events.py:69-80 | Exactly the rows of the run, none lost and none invented, in sequence order; for a dense log the rows as they were inserted, numbered 1..n |
| `RunStore.RunStore.Queue` | src/codealmanac/services/runs/store.py:85-104 | One transaction: the record with its spec and the first event of its log, as the specification step says; nothing is refused (see RunHistory.CreateIsSoundForNewIds) |
| `RunStore.RunStore.Create` | src/codealmanac/services/runs/store.py:64-83 | The same for a run without a spec |
| `RunHistory.CreateIsSoundForNewIds` | src/codealmanac/services/runs/store.py:314-347 | An id that exists would be overwritten under its old creation time with one more event in its log; the store stays sound if and only if the id was new |
| `RunStore.RunStore.RecordEvent` | src/codealmanac/services/runs/store.py:168-190 | One transaction for the touched record and the event; nothing is written when the run is missing or the message blank |
| `RunStore.RunStore.MarkRunning` | src/codealmanac/services/runs/store.py:192-214 | The new database is the specification step `MarkRunning`, with its conflicts |
| `RunStore.RunStore.Finish` | src/codealmanac/services/runs/store.py:230-262 | The new database is the specification step `FinishRunOp`: record and STATUS event together, or neither |
| `RunStore.RunStore.PrepareCancellation` | src/codealmanac/services/runs/store.py:264-288 | The new database is the specification step `PrepareCancel`; the note is a STATUS event only when the run ended |
| `RunStore.RunStore.FinishCancellation` | src/codealmanac/services/runs/store.py:290-312 | The new database is the specification step `FinishCancel` |
| `RunHistory.WrittenRecordIsRead` | src/codealmanac/services/runs/store.py:314-347 | After a write the record and its spec can be read back and no other row moved; the columns agree with the record if and only if the row is new or the record keeps the creation time it was first stored with |
| `RunHistory.StepKeepsInv` | src/codealmanac/services/runs/store.py:64-312 | Every transaction keeps: dense numbering, STATUS events that replay to the record, columns that agree, a request only with an execution |
| `RunHistory.StepIsFuture` | src/codealmanac/services/runs/transitions.py:22-144 | A step only adds to logs, never rewrites identity, execution or a cancellation request, and never reopens a terminal run |
| `RunsService.LogReplaysToRecord` | src/codealmanac/services/runs/events.py:54-80 | In every reachable store the log of a run is numbered 1..n and its STATUS events, replayed, give the status of the record |
| `RunsService.HistoryMovesForward` | src/codealmanac/services/runs/transitions.py:22-144 | Between any two moments of any history every run only moves forward, terminal states absorb, and its old log is a prefix of the new one |
| `RunsService.OnlyStatusEventsBreakReplay` | src/codealmanac/services/runs/store.py:168-190 | Recording a non-blank event keeps the log replaying to the record if and only if it is not a STATUS event |
| `RunsService.TerminalTelemetryOnce` | src/codealmanac/services/runs/service.py:158-199 | Terminal telemetry is attempted exactly once for a run that has ended, with its final status, and never for one that has not |
| `RunsService.CapturesMarkEndings` | src/codealmanac/services/runs/service.py:158-191 | A reply captures telemetry exactly when its transaction took that run into a terminal status |
| `RunsService.RunsService.Finish` | src/codealmanac/services/runs/service.py:158-168 | The store step, and one telemetry attempt exactly when the run changed |
| `RunsService.RunsService.PrepareCancellation` | src/codealmanac/services/runs/service.py:170-179 | The store step, and one telemetry attempt exactly when a queued run was cancelled on the spot |
| `RunAnswers.QueuedRunIsCancelled` | src/codealmanac/services/runs/transitions.py:89-91 | In every reachable store: cancelling a queued run leaves it cancelled and finished now, out of the queue, its log longer by exactly one STATUS event "cancelled", with one telemetry attempt and nobody to terminate; no other run changes |
| `RunAnswers.RunningRunIsAsked` | src/codealmanac/services/runs/transitions.py:92-110 | A running run under an executor gets the time of the first request and one MESSAGE event; later requests change nothing; the answer names the executor; without one it is refused |
| `RunAnswers.ConfirmedCancellationEnds` | src/codealmanac/services/runs/transitions.py:113-131 | A running run that was asked and still runs under the named executor ends cancelled now, with one STATUS event and one attempt |
| `RunAnswers.OtherCancellationsAreRefused` | src/codealmanac/services/runs/transitions.py:113-131 | Any other run that has not ended is left as it is, refused for the first reason that holds |
| `RunAnswers.EndedRunStaysEnded` | src/codealmanac/services/runs/transitions.py:83-131 | Both cancellations of an ended run change nothing |
| `RunAnswers.FinishAnswers` | src/codealmanac/services/runs/store.py:230-262 | Which given value lands in which field of a finished run, its one STATUS event and one attempt; an ended run is left alone |
| `RunAnswers.EventAnswers` | src/codealmanac/services/runs/store.py:168-190 | An event is logged stripped under the next number with the given kind and provider event, and of the record only the last update changes |
| `RunAnswers.QueuedRunIsStarted` | src/codealmanac/services/runs/store.py:192-214 | A queued run runs from now on under the given executor, with one STATUS event "running" |
| `RunAnswers.OthersAreNotStarted` | src/codealmanac/services/runs/transitions.py:22-42 | Any other run is left alone: a running one is refused to another executor, an ended one to everybody |
| `RunAnswers.TranscriptAnswers` | src/codealmanac/services/runs/store.py:216-228 | A transcript changes that field and the last update, and logs nothing |
| `RunAnswers.QueueAnswers` | src/codealmanac/services/runs/store.py:85-104 | A queued run says what it was given and nothing else, waits, and has one STATUS event that names its kind |
| `RunAnswers.CreateAnswers` | src/codealmanac/services/runs/store.py:64-83 | The same without a spec, so that it never waits |
| `RunAnswers.MissingRunIsRefused` | src/codealmanac/services/runs/queries.py:38-48 | A call about a run that is not there is refused and changes nothing |
| `RunAttach.Stream` | src/codealmanac/services/runs/streaming.py:19-51 | The loop yields exactly the updates of the specification and reports whether it saw a terminal record |
| `RunAttach.AttachDeliversExactlyOnce` | src/codealmanac/services/runs/streaming.py:19-67 | With any writer steps between polls and between the two reads of a poll: the delivered events are the log as of the last poll, each once and in order; only the last update is terminal, and then the delivered log replays to its status; the settling poll is never taken |
| `RunAttach.EndIsFinal` | src/codealmanac/services/runs/streaming.py:60-67 | A log read after a terminal record always replays to that terminal status |
| `RunAttach.PollIsTold` | src/codealmanac/services/runs/streaming.py:26-67 | What any one poll adds to the stream: the events beyond the last one seen with the record they were polled with, nothing when there are none, a terminal record in any case, and another poll while its own status event is missing and turns are left |
| `RunAttach.WaitsOnce` | src/codealmanac/services/runs/streaming.py:12-38 | A stream waits for a missing terminal event for one more poll and no longer |
| `RunQueue.NextQueuedRun` | src/codealmanac/services/runs/queries.py:74-90 | It returns none exactly when no queued run has a spec, else the first such run in (created_at, run_id) order |
| `RunQueue.AheadIsTimeOrder` | src/codealmanac/services/runs/queries.py:93-115 | The text comparison of the query is time order with the run id breaking ties |
| `RunQueue.ZeroAheadIsNext` | src/codealmanac/services/runs/queries.py:74-115 | `queued_before` is 0 exactly when the run is the one `next_queued` returns |
| `RunQueue.PositionIsExact` | src/codealmanac/services/runs/queries.py:93-115 | While a run waits, each call moves its position by exactly the one run it takes from ahead or puts ahead; a run queued strictly later is never put ahead |
| `RunQueue.RunColumns` | src/codealmanac/services/runs/store.py:314-347 | The columns the queries use agree with the stored record in every sound store |
| `WorkerLocks.RunWorkerLockStore.Acquire` | src/codealmanac/services/runs/worker_locks.py:21-49 | An absent row is always granted, a held one if and only if `stale_after` has passed since it was acquired or its process is gone; a refusal changes nothing |
| `WorkerLocks.AcquireTakesExactlyStaleRows` | src/codealmanac/services/runs/locks.py:21-28 | The same after any history: exactly those rows are taken from their owner |
| `WorkerLocks.RunWorkerLockStore.ReleaseIfIdle` | src/codealmanac/services/runs/worker_locks.py:71-96 | Ownership and emptiness of the queue are checked in one transaction: lost exactly for another row, work exactly when a run waits, and only a release deletes the row |
| `WorkerLocks.OneLeaseMatches` | src/codealmanac/services/runs/worker_locks.py:21-96 | At any moment of any history with distinct requests a held row matches exactly one of the leases ever granted, and that is the last one granted |
| `WorkerLocks.LostLeaseStaysLost` | src/codealmanac/services/runs/worker_locks.py:51-96 | Once a lease no longer matches it never does again, and neither release path of it touches the row |
| `WorkerLocks.NoEarlyTakeover` | src/codealmanac/services/runs/locks.py:21-28 | Over any history in which every later acquire sees the owner alive and comes before `stale_after` has passed, and in which its lease is not given back, a granted owner keeps the row |
| `WorkerLocks.LeaseHoldsUntilDisplaced` | src/codealmanac/services/runs/worker_locks.py:21-96 | Over any history with distinct requests a granted lease matches the row if and only if no later call was a stale takeover from it, its release, or its idle handoff |
| `WorkerLocks.LostLeaseDeletesExactlyItsEqual` | src/codealmanac/services/runs/worker_locks.py:51-69 | Without distinct requests: the release of a lost lease deletes the row of another if and only if an equal tuple was granted after the loss and has not been displaced since |
| `WorkerLocks.EarlierDeletesExactlyItsEqual` | src/codealmanac/services/runs/worker_locks.py:51-69 | Of two granted leases the earlier deletes the row the later holds if and only if their tuples are equal |
| `WorkerLocks.EqualTupleDeletesSuccessor` | src/codealmanac/services/runs/worker_locks.py:51-96 | The input: two drains of one live process under one name and one clock reading; the release that ends the first, after its idle handoff, deletes the row of the second |
| `QueueDrain.OneDrainer` | src/codealmanac/workflows/run_queue/worker.py:44-75 | At most one worker drains at a time in every reachable state |
| `QueueDrain.NoRunIsStranded` | src/codealmanac/workflows/run_queue/worker.py:44-75 | Unless a worker gives up early, an exception ends one, or a spawn fails, in no reachable state does a queued run wait with nobody holding the lock or coming for it |
| `QueueDrain.StrandsExactlyWhenAbandoned` | src/codealmanac/workflows/run_queue/worker.py:44-124 | A step strands waiting runs if and only if the last worker leaves early, by a return or an exception, while it holds the lock, or the last awaited worker is not spawned or ends before it tries for the lock |
| `QueueDrain.UnconfirmedCancellationStrands` | src/codealmanac/workflows/run_queue/worker.py:95-124 | A worker that stops over an unconfirmed cancellation strands the waiting runs when nobody else is coming |
| `QueueDrain.StrandedByCancellation` | src/codealmanac/workflows/run_queue/worker.py:95-124 | A legal history from the empty store that strands a run in this way |
| `QueueDrain.StrandedByRunLimit` | src/codealmanac/workflows/run_queue/worker.py:44-75 | A legal history that strands a run at a limit of one run |
| `QueueDrain.StrandedByFailedSpawn` | src/codealmanac/workflows/run_queue/service.py:168-181 | A legal history that strands a run by a spawn that fails |
| `QueueDrain.StrandedByException` | src/codealmanac/workflows/run_queue/worker.py:44-75 | A legal history that strands a run by an exception before the worker tries for the lock |
| `JobRecords.FinishedRecordIsStable` | archive/code/src/jobs/records.ts:139-166 | Helper law of the record that every finishing method writes: the given status, summary and error, who ran and since when, no session lost, no negative duration; finishing again in the same way changes nothing |
| `JobRecords.RecordsSay` | archive/code/src/jobs/records.ts:98-166 | What queued, running, cancelled and failed records say and do not say |
| `JobStore.JobStore.FinishUnlessCancelled` | archive/code/src/jobs/finalization.ts:15-52 | The last write of a job: cancelled when the marker or the record says so, else the given end |
| `JobStore.JobStore.CancelledRecordIfRequested` | archive/code/src/jobs/finalization.ts:54-90 | A cancelled record comes back exactly when the marker or the record asks for it; otherwise nothing is written |
| `JobStore.JobStore.PersistProviderSessionId` | archive/code/src/jobs/events.ts:58-72 | The first session written wins, and nothing else of the record changes |
| `JobStore.JobStore.ExecuteStartedJob` | archive/code/src/jobs/executor.ts:41-138 | The harness runs once; success is reported exactly for a successful harness of an unmarked job; an unmarked job ends done or failed as its harness did, with its summary, error and session |
| `JobStore.JobStore.StartQueuedJob` | archive/code/src/jobs/start.ts:125-177 | None exactly when the job is not queued any more; otherwise the job ends, cancelled exactly when it is marked, and the harness runs exactly when no cancellation came before the second check |
| `JobStore.JobStore.OldestQueuedJob` | archive/code/src/jobs/queue.ts:39-44 | None exactly when nothing is queued, else a queued job with the least start time |
| `JobStore.JobStore.ProcessJob` | archive/code/src/jobs/worker.ts:36-57 | One turn of the drain ends its job and touches no other record: failed when its spec cannot be read, else cancelled exactly when it is marked |
| `JobStore.JobStore.Drain` | archive/code/src/jobs/worker.ts:36-57 | The inner loop terminates with an empty queue, having run exactly the harnesses it should, oldest first |
| `JobStore.JobStore.RunJobWorker` | archive/code/src/jobs/worker.ts:26-62 | Acquire, drain, release and recheck, with jobs queued and the lock taken by others in between: it ends with an empty queue or because another holds the lock, and every job there ever was is as its drain left it; a held lock at first means it does nothing |
| `JobStore.DrainedToTheEnd` | archive/code/src/jobs/worker.ts:26-82 | Where the queue came to be empty every job that waited has ended: failed when its spec cannot be read, cancelled exactly when it can and the job is marked, and else as its harness did, with what it told; the harness ran exactly for the right ones, and other records are as they were |
| `JobStore.MarkedJobNeedsItsSpec` | archive/code/src/jobs/worker.ts:40-57 | For one worker draining alone, whose writes succeed: a job that is marked before its turn comes ends cancelled if and only if its spec can be read, and failed otherwise |
| `JobProtocol.HarnessStartsAtMostOnce` | archive/code/src/jobs/start.ts:125-177 | Over every interleaving of workers, enqueuers, session writes and cancellers the harness starts at most once per job |
| `JobProtocol.NoWakeupIsLost` | archive/code/src/jobs/worker.ts:30-61 | In every reachable state, unless a step ended the last worker over it, a queued job has its own enqueuer before the spawn or a worker that is about to acquire, holds the lock, or is before its recheck |
| `JobProtocol.LosesExactlyTheLastWorker` | archive/code/src/jobs/worker.ts:30-61 | A step loses the wakeup of a job if and only if it ends the last live worker (killed, signalled with no handler installed, or left by an exception) while the job is queued and its enqueuer has spawned already |
| `JobFailures.CancelLosesAWakeup` | archive/code/src/cli/commands/jobs.ts:198-242 | A legal history in which an ordinary cancel does that: its signal reaches a worker between claim and harness, while the worker of a second job has been refused the lock |
| `JobProtocol.WorkerLeavesWhenDone` | archive/code/src/jobs/worker.ts:30-61 | A worker ends only because a live holder has the lock, because its recheck found the queue empty, or as the victim of the step; its end changes no record |
| `JobProtocol.MarkerStopsTheStart` | archive/code/src/jobs/start.ts:133-167 | A marker made before the post-claim check keeps the harness from ever running, in every future |
| `JobProtocol.MarkerDecidesTheEnd` | archive/code/src/jobs/executor.ts:67-137 | A marker made before the final check makes the worker's result a cancelled record and no success, even of a successful harness, whatever session writes did to the record in between |
| `JobFailures.UnreadableSpecFails` | archive/code/src/jobs/worker.ts:40-82 | A worker that has taken up a marked, still queued job and cannot read its spec ends it failed |
| `JobFailures.ReadableSpecCancels` | archive/code/src/jobs/start.ts:125-145 | And ends it cancelled when it can |
| `JobRest.CancelledIsOverwrittenExactly` | archive/code/src/jobs/start.ts:133-158 | Over all interleavings: a step makes a cancelled record say something else if and only if it is the claim, the final write or the failure write of a worker on the job, the failure write of its enqueuer, or a session write of what was read before |
| `JobRest.MarkedRecordAtRest` | archive/code/src/jobs/finalization.ts:54-90 | Over all histories: a job marked while queued and before its first check, once no enqueuer, worker, session write or canceller is left on it, reads failed if a failure write of a worker or its enqueuer came after the last cancelled write, and cancelled if not; ended workers make no difference, since the canceller writes too |
| `JobRest.RestIsFinal` | archive/code/src/cli/commands/jobs.ts:198-242 | What an ended record says once nobody is left on the job it says for good |
| `JobFailures.CancelledJobEndsFailed` | archive/code/src/jobs/worker.ts:64-82 | A first legal history in which it reads failed: the spec cannot be read, and the write of `markQueuedJobFailed` comes after the canceller has written |
| `JobFailures.FailedSpawnOverwritesCancelled` | archive/code/src/jobs/start.ts:179-237 | A second one, with a readable spec: a worker spawned for another job and the canceller have written the job cancelled, and then the spawn for the job itself fails |
| `JobAnswers.ResultIsWritten` | archive/code/src/jobs/executor.ts:67-137 | An undisturbed worker writes what its harness answered, field by field, and reports success exactly when the harness did |
| `JobAnswers.FirstThrowFailsTheJob` | archive/code/src/jobs/executor.ts:68-128 | A first failure after the claim ends the job failed with its error and no success |
| `JobAnswers.SecondThrowWritesNothing` | archive/code/src/jobs/worker.ts:64-82 | A second one leaves the record of the claimed job as it is |
| `JobAnswers.FirstSessionStays` | archive/code/src/jobs/events.ts:58-72 | The first session to be written stays, and nothing else of the record it read changes |
| `JobAnswers.CancelEndsTheJob` | archive/code/src/cli/commands/jobs.ts:198-242 | An undisturbed cancellation leaves the marker and a cancelled record, and ends exactly the process the record names unless that handles the signal |
| `SyncCursors.InitialLedgerCursor` | archive/code/src/sync/ledger.ts:249-274 | The scan stops at the first line at or after `syncSince`; size, line and hash are those of the lines before it as decoded and encoded again |
| `SyncCursors.InitialCursorIsExact` | archive/code/src/sync/ledger.ts:249-274 | That cursor describes the skipped bytes if and only if decoding them and encoding them again keeps their length, as valid UTF-8 does |
| `SyncCursors.MalformedLineOvershoots` | archive/code/src/sync/ledger.ts:249-274 | An input: a line of one stray byte counts four bytes, which is beyond the end of a three-byte transcript |
| `SyncCursors.ReencodingGrows` | archive/code/src/sync/ledger.ts:249-274 | Re-encoding never shortens, and keeps the length if and only if every malformed piece is three bytes long |
| `SyncCursors.EndCursorIsExact` | archive/code/src/sync/ledger.ts:249-274 | When every line is older the cursor stands at the end and always describes the transcript |
| `SyncCursors.DecodingCutsAtNewlines` | archive/code/src/sync/ledger.ts:249-274 | Lines may be cut before or after decoding: neither a character nor a malformed piece spans a newline |
| `Utf8Pieces.PieceIsMaximal` | archive/code/src/sync/ledger.ts:249-274 | Decoding takes as many bytes as start some character, as far as they go, and one if they start none, against the encoding of section 3 of RFC 3629 |
| `Utf8Pieces.WholePieceIsCharacter` | archive/code/src/sync/ledger.ts:249-274 | A piece is whole if and only if the bytes begin with a whole encoded character, and then it is that character |
| `Utf8Pieces.ValidIsEncodedText` | archive/code/src/sync/ledger.ts:249-274 | Valid bytes are the encoding of a text; EncodedTextIsValid is the other direction |
| `SyncCursors.FromLineIsExact` | archive/code/src/sync/sweep.ts:245-271 | The first line handed to a job holds its first new byte if and only if the absorbed prefix ended a line; otherwise the line after it is handed over |
| `SyncCursors.UnfinishedLineIsLost` | archive/code/src/sync/sweep.ts:245-271 | New bytes on the line where the absorbed prefix stops are in the next line range if and only if the prefix ended a line; if not, they are in the range of no job started once they are there |
| `SyncLedger.RewritesAreDetected` | archive/code/src/sync/sweep.ts:245-281 | A longer transcript is flagged if and only if its absorbed prefix changed, short of a hash collision with what was absorbed |
| `SyncLedger.DecisionTells` | archive/code/src/sync/sweep.ts:245-281 | What a sweep answers for every entry and content, and what it leaves in the entry of a transcript that changed under its cursor |
| `SyncLedger.UnknownTranscriptStartsAt` | archive/code/src/sync/ledger.ts:104-118 | A transcript the ledger does not know starts at its first cursor and waits for nothing |
| `SyncLedger.DoneJobsTile` | archive/code/src/sync/ledger.ts:76-127 | In every reachable state the ranges of jobs that ended done tile the transcript from its first cursor: consecutive, disjoint, every byte in between in exactly one |
| `SyncLedger.NextJobContinues` | archive/code/src/sync/ledger.ts:76-102 | A job after one that did not end done is offered the same first byte again, after one that did the byte behind it |
| `SyncLedger.OnePendingJob` | archive/code/src/sync/sweep.ts:245-330 | A job that has not ended is the one its entry waits for, and until then every sweep passes the transcript by |
| `SyncLedger.CursorsDescribe` | archive/code/src/sync/ledger.ts:104-127 | On append-only files the stored size, hash and line describe the absorbed prefix if and only if a job has ended done or the first cursor described the file it was made from, short of a hash collision |
| `SyncLedger.FlaggedExactly` | archive/code/src/sync/sweep.ts:245-281 | On append-only files a sweep flags a transcript if and only if the file has grown past a first cursor that lay beyond it, short of a hash collision; and then no job was ever started for it |
| `SyncLedger.FirstCursorStays` | archive/code/src/sync/ledger.ts:104-119 | A first cursor stays and the file only grows, so what is flagged once stays flagged |
| `SyncLedger.BytesBeforeStartAreNotOffered` | archive/code/src/sync/sweep.ts:245-271 | Bytes before the first cursor, right or wrong, are offered to no job |
| `SyncLedger.MalformedTranscriptIsFlagged` | archive/code/src/sync/ledger.ts:249-274 | A legal history that flags a transcript nobody rewrote |
| `SyncLedger.StepKeepsInv` | archive/code/src/sync/sweep.ts:245-330 | Every step of files, jobs and sweeps keeps the invariant behind these |
| `SyncSweep.TurnIsSweepStep` | archive/code/src/sync/sweep.ts:84-189 | A turn of the loop moves the ledger as one sweep step of the protocol does |
| `SyncSweep.SyncSweeper.ExecuteSyncSweep` | archive/code/src/sync/sweep.ts:84-189 | The summary is the fold of the verdicts, all locks are given back, and ledgers on disk change only in sync mode and only where the lock was granted |
| `SyncSweep.PassedExactly` | archive/code/src/sync/sweep.ts:101-143 | Each reason to pass a transcript over holds exactly on its own condition, in the fields of its turn and of its ledger entry: too old, not quiet, internal, locked elsewhere, pending, not grown |
| `SyncSweep.ReadyExactly` | archive/code/src/sync/sweep.ts:145-180 | A turn is ready, started or fails to start exactly when it is touched since activation, quiet, no internal session, locked by the sweep, readable, not pending, grown, and unchanged before its cursor; it is offered the lines from behind its cursor to the last |
| `SyncSweep.AttentionExactly` | archive/code/src/sync/sweep.ts:226-281 | It needs attention exactly when it cannot be read or its absorbed prefix changed |
| `SyncSweep.SummaryTells` | archive/code/src/sync/sweep.ts:84-189 | The summary tells the verdict on every turn |
| `SyncSweep.ListsAreTold` | archive/code/src/sync/sweep.ts:84-189 | And what stands in its lists of started, ready and skipped transcripts is such a verdict |
| `SyncSweep.ReconciledInFields` | archive/code/src/sync/ledger.ts:76-102 | What settling does to a pending entry for each end of its job |
| `SyncSweep.FailedStartInFields` | archive/code/src/sync/sweep.ts:292-312 | A start that fails leaves the cursor and records the error |
| `SyncSweep.LedgerStartsOnDisk` | archive/code/src/sync/ledger.ts:46-61 | A sweep starts from the ledger on disk, or from none |
| `SyncSweep.EntryIsSettled` | archive/code/src/sync/ledger.ts:76-102 | Every entry is settled, field by field, against the record of the very job it waits for, and one whose job has not ended or cannot be read stays as it is |
| `SyncSweep.TurnTouchesItsEntry` | archive/code/src/sync/sweep.ts:128-147 | A turn touches the entry under its app and path and settles the others |
| `SyncSweep.StartInFields` | archive/code/src/sync/sweep.ts:283-330 | What a start leaves in the ledger: the same cursor as before, and the whole transcript pending on the new job |
| `SyncSweep.SummaryAddsUp` | archive/code/src/sync/sweep.ts:84-189 | Every candidate is in exactly one list of the summary, and the eligible ones are those ready, started or failing to start |
| `SyncSweep.StartedIsPending` | archive/code/src/sync/sweep.ts:283-330 | A transcript reported as started is pending on that job with the range that was reported |
| `SyncSweep.ReconcileLedger` | archive/code/src/sync/ledger.ts:76-102 | Every entry is settled against its job, whatever the order |
| `ProcessFreeze.ProcessTable.FreezeProcessTree` | src/codealmanac/integrations/runs/process.py:128-152 | On success every living process whose parent chain reaches the root is suspended and recorded, each once and after its maker, whatever forked or exited meanwhile; on a psutil error every process it suspended gets a resume attempt |
| `ProcessFreeze.ProcessTable.ResumeProcesses` | src/codealmanac/integrations/runs/process.py:163-168 | One attempt each, whatever the attempts before came to |
| `ProcessFreeze.ClosedIsWhole` | src/codealmanac/integrations/runs/process.py:128-152 | With an empty worklist, being closed under living children is having the whole tree |
| `ProcessFreeze.RecordedDescend` | src/codealmanac/integrations/runs/process.py:128-152 | Everything recorded descends from the root: nothing outside the tree is frozen |
| `ProcessFreeze.FreezingEvolves` | src/codealmanac/integrations/runs/process.py:128-152 | No fork or exit of unfrozen processes between two steps breaks the loop's invariant |
| `RunProjector.ProjectRunSteps` | src/codealmanac/services/runs/transcript.py:53-57 | The objects in the list are distinct and tell the fold of the events; the projection fails exactly where the fold does |
| `RunProjector.RunProjector.AddToolResult` | src/codealmanac/services/runs/transcript.py:170-188 | A matched result replaces the very object of the tool, in the list and in the map; an unmatched one appends |
| `RunProjector.RunProjector.ReplaceStep` | src/codealmanac/services/runs/transcript.py:235-242 | By identity: the one position that holds the old object, and every tool id that names it |
| `RunSteps.ProjectionIsSound` | src/codealmanac/services/runs/transcript.py:60-242 | After any log every known tool id stands for a tool step, and adjacent assistant steps have different actors |
| `RunSteps.MatchedResultChangesOneStep` | src/codealmanac/services/runs/transcript.py:170-188 | A result for a known tool changes that one step, and of it neither the tool nor its input |
| `RunStepAnswers.ToolStartIsTold` | src/codealmanac/services/runs/transcript.py:152-168 | What the step of a tool start says, field by field |
| `RunStepAnswers.ToolResultIsTold` | src/codealmanac/services/runs/transcript.py:170-188 | What a result changes in the step of its tool: a text or detail of its own replaces that of the start |
| `RunStepAnswers.UnknownResultIsTold` | src/codealmanac/services/runs/transcript.py:170-188 | A result nobody waits for is a tool step of its own |
| `RunStepAnswers.TextGoesOn` | src/codealmanac/services/runs/transcript.py:129-143 | Text of the actor of the last step goes on in it, on a new line, and changes nothing else |
| `RunStepAnswers.TextStarts` | src/codealmanac/services/runs/transcript.py:144-150 | Other text is an assistant step of its own under the actor's name |
| `RunStepAnswers.RunStatusIsTold` | src/codealmanac/services/runs/transcript.py:72-90 | A status message is a step under a title made of its words |
| `RunStepAnswers.RunErrorIsTold` | src/codealmanac/services/runs/transcript.py:72-90 | An error of the run is an error step |
| `RunStepAnswers.AgentIsTold` | src/codealmanac/services/runs/transcript.py:190-202 | Agent steps, with the prompt and result of a trace |
| `RunStepAnswers.ErrorIsTold` | src/codealmanac/services/runs/transcript.py:204-217 | Error steps, with the message and fix of a failure |
| `RunStepAnswers.DoneIsTold` | src/codealmanac/services/runs/transcript.py:92-127 | An end without a failure is a status step; so are a warning and a session (WarningIsTold, SessionIsTold), and the rest is not told (OthersAreNotTold) |
| `RunStepAnswers.ExitCodeReadsBack` | src/codealmanac/services/runs/transcript.py:319-319 | An exit code is shown in decimal digits that read back, with a sign only below zero |
| `RunStepAnswers.RefusedExactly` | src/codealmanac/services/runs/transcript.py:40-50 | A step is refused if and only if one of its eight texts is given and has nothing but white space; KeptStripped says what is kept else |
| `RunSteps.AssistantsTellAllText` | src/codealmanac/services/runs/transcript.py:129-150 | The assistant bodies, in order, are the joined texts of consecutive blocks that make up all text events |
| `RunSteps.MessagesJoinByLine` | src/codealmanac/services/runs/transcript.py:255-260 | Messages have no break at their ends, so joining always puts exactly one between them |
| `RunSteps.FailsExactlyWhenRefused` | src/codealmanac/services/runs/transcript.py:170-228 | An event ends the projection exactly when it is a status message of separators only, or an unmatched tool result with nothing but blank text |
| `RunSteps.UnderscoreIsRefused` | src/codealmanac/services/runs/transcript.py:219-228 | An input: a status message of one underscore |
| `RunSteps.ProjectionFailsExactly` | src/codealmanac/services/runs/transcript.py:53-57 | A log cannot be projected exactly when one of its events is refused after those before it |
| `ManagedBlocks.CollapseBlankLines` | src/codealmanac/integrations/setup/managed_blocks.py:28-33 | The replace loop ends, with every run of line breaks cut to two |
| `ManagedBlocks.RunIsCutToTwo` | src/codealmanac/integrations/setup/managed_blocks.py:28-33 | A run of line breaks is kept when it is one or two long and cut to two when it is longer, and what stands before and after it is treated on its own |
| `ManagedBlocks.CapIsCapping` | src/codealmanac/integrations/setup/managed_blocks.py:28-33 | No run longer than two is left |
| `ManagedBlocks.ReplaceKeepsCap` | src/codealmanac/integrations/setup/managed_blocks.py:28-33 | No pass of the loop changes what the text is cut to |
| `ManagedBlocks.CapKeepsCharacters` | src/codealmanac/integrations/setup/managed_blocks.py:28-33 | Nothing but line breaks is lost |
| `ManagedBlocks.TidyIsFixed` | src/codealmanac/integrations/setup/managed_blocks.py:28-33 | Collapsing changes nothing if and only if the text is tidy, so it is idempotent |
| `ManagedBlocks.BlockIsFound` | src/codealmanac/integrations/setup/managed_blocks.py:9-25 | A block is found by its own markers exactly when no earlier ones stand before it |
| `ManagedBlocks.MarkersAreDistinguishable` | src/codealmanac/integrations/setup/managed_blocks.py:1-2 | The two markers meet the conditions on markers under which the laws above and below hold |
| `ManagedBlocks.UpsertIsIdempotent` | src/codealmanac/integrations/setup/managed_blocks.py:9-16 | Upserting twice is upserting once if and only if the file had no marker, or a start before its first end |
| `ManagedBlocks.EndBeforeStartIsNotSettled` | src/codealmanac/integrations/setup/managed_blocks.py:9-16 | An input for the other case: the end marker first |
| `ManagedBlocks.StrayStartLosesText` | src/codealmanac/integrations/setup/managed_blocks.py:9-16 | After a start marker without an end the second upsert drops everything from that marker on |
| `ManagedBlocks.RemoveUndoesUpsert` | src/codealmanac/integrations/setup/managed_blocks.py:19-25 | With marker-free guide and text, removing after upserting gives the text back if and only if it was tidy and empty, or tidy and ended by a break (two when blank) |
| `TomlLines.EditSetsValue` | src/codealmanac/services/config/store.py:82-145 | On well-formed lines an edit keeps them well formed and updates the map a reader gets in one place |
| `TomlEdits.UpdateSetsValue` | src/codealmanac/services/config/store.py:82-158 | The same on text: `update_toml_value` is a map update for the reader, and the text stays readable |
| `TomlEdits.SetValuesFolds` | src/codealmanac/services/config/store.py:36-63 | `set_values` is the fold of its updates over the map that was there |
| `TomlEdits.UpdateTwiceIsOnce` | src/codealmanac/services/config/store.py:82-158 | Setting the same value twice leaves the bytes of the first time |
| `TomlEdits.UpdateKeepsOtherLines` | src/codealmanac/services/config/store.py:82-158 | Every other line that is not blank stays, in order; at most one line is replaced |
| `TomlText.ReadBack` | src/codealmanac/services/config/store.py:157-158 | Lines written and read back are the same lines, trimmed at the end, and are written the same again |
| `TomlEdits.UpdateTopLevelValue` | src/codealmanac/services/config/store.py:90-98 | The loop writes exactly the specified edit above the first table |
| `TomlEdits.UpdateTableValue` | src/codealmanac/services/config/store.py:101-123 | The loop writes exactly the specified edit in or after its table |
| `TomlPlaces.TopKeyGoesBeforeTables` | src/codealmanac/services/config/store.py:139-144 | Where a new key above the tables goes; TopKeyIsReplaced and TopKeyGoesOnTop say it for a key that is set and a file without tables |
| `TomlPlaces.TableKeyGoesToTheEnd` | src/codealmanac/services/config/store.py:126-130 | Where a new key of a table goes; TableKeyIsReplaced and LastTableKeyGoesToTheEnd say it for a key that is set and the last table |
| `TomlPlaces.NewTableGoesToTheEnd` | src/codealmanac/services/config/store.py:120-123 | Where a new table goes |
| `TomlPlaces.LineIsWritten` | src/codealmanac/services/config/store.py:82-87 | The line that is written, in the text and under its table |
| `TomlPlaces.LineIsRead` | src/codealmanac/services/config/store.py:147-150 | What a line is to the editor |
| `TomlEdits.ConfigFile.SetValues` | src/codealmanac/services/config/store.py:36-63 | Nothing is written when the old text does not load or the new one is invalid; otherwise all updates at once |
| `IndexProjection.IndexIsCurrent` | src/codealmanac/services/index/store.py:31-66 | After any sequence of refreshes and rebuilds the tables are the projection of the sources last seen (`updated_at` aside) with their signature, provided path and hash fix a page |
| `IndexProjection.SameSignatureIsAlike` | src/codealmanac/services/index/sources.py:24-48 | Equal signatures mean equal projections, `updated_at` aside, under the same proviso |
| `IndexProjection.IndexDatabase.ReplaceDocuments` | src/codealmanac/services/index/projection.py:26-49 | Whatever rows were there, afterwards there are those of the given sources and no others |
| `IndexProjection.IndexDatabase.InsertDocument` | src/codealmanac/services/index/projection.py:52-126 | The rows of one page are added: first reference per path wins, existing topics keep their text |
| `IndexProjection.IndexDatabase.InsertTopicDefinition` | src/codealmanac/services/index/projection.py:129-154 | The definition's text wins over a tag's; parents become topics; no self-edge |
| `IndexProjection.IndexDatabase.Refresh` | src/codealmanac/services/index/store.py:31-52 | The database is left alone exactly when it carries the current signature |
| `IndexProjection.NothingIsLeft` | src/codealmanac/services/index/projection.py:26-49 | Deleting pages by cascade, the search rows, edges and topics leaves nothing of a database whose rows have pages |
| `IndexTables.TopicsAreComplete` | src/codealmanac/services/index/projection.py:52-154 | The topics are exactly tags, definitions and parents; the row of a defined one has its last definition's title, unless that is missing or empty, and its description; both ends of every edge are topics and no edge is a loop |
| `IndexTables.TextRowsAreTold` | src/codealmanac/services/index/projection.py:52-126 | Page, section, search and source rows are exactly those that say, field by field, what some document says |
| `IndexTables.LinkRowsAreTold` | src/codealmanac/services/index/projection.py:52-154 | Tags, links, parents and references are exactly those the documents and definitions name |
| `IndexTables.TopicTextIsLast` | src/codealmanac/services/index/projection.py:129-154 | Whose title and description a topic has, whatever the insert order: the last definition's, or a title made from the slug |
| `IndexTables.RefsAreFirst` | src/codealmanac/services/index/projection.py:52-126 | One reference row per path of a page, and every path has one |
| `IndexProjection.LoadDocuments` | src/codealmanac/services/index/sources.py:50-70 | An error if and only if two readable pages share a route, and then the route of such a pair; else all readable pages, each once and in order |
| `TopicClosure.DescendantRows` | src/codealmanac/services/index/topic_views.py:52-67 | The recursive query ends on cyclic graphs too, with the topics of every depth up to 32 |
| `TopicClosure.TopicDescendants` | src/codealmanac/services/index/topic_views.py:52-67 | The rows, in order, are exactly the topics within 32 child steps |
| `TopicClosure.ClosureIsExact` | src/codealmanac/services/index/topic_views.py:52-67 | The descendants found are exactly the reachable topics if and only if no topic is first met at the 33rd step |
| `TopicClosure.ClosureIsReachability` | src/codealmanac/services/index/topic_views.py:52-67 | So with at most 33 topics they always are |
| `TopicClosure.ChainIsCut` | src/codealmanac/services/index/topic_views.py:52-67 | A witness for the other case: in a chain of 34 topics the last one is reachable and cut off |
| `TopicClosure.PagesForTopics` | src/codealmanac/services/index/topic_views.py:70-87 | Strictly ascending, and exactly the pages tagged with one of the topics |
| `TopicClosure.GetTopicDetail` | src/codealmanac/services/index/topic_views.py:28-49 | None exactly for an unknown topic; its pages are those tagged with a topic of the closure, each once |
| `JsonStrings.ReadsBack` | archive/code/src/config/codec.ts:117-128 | A text written as a JSON string (section 7 of RFC 8259) is read back for every content |
| `ConfigLines.StripTomlComment` | archive/code/src/config/codec.ts:98-115 | The loop cuts at the first number sign outside strings and escapes |
| `ConfigLines.StringCrosses` | archive/code/src/config/codec.ts:98-128 | A written string is never cut, even when it holds number signs, quotes and backslashes |
| `ConfigLines.CommentsSayNothing` | archive/code/src/config/codec.ts:98-115 | A comment after balanced text changes nothing a line says |
| `ConfigLines.AssignmentIsRead` | archive/code/src/config/codec.ts:38-42 | A written assignment is read as that key and value |
| `ConfigLines.HeaderIsRead` | archive/code/src/config/codec.ts:33-37 | A written section header is read as that path |
| `ConfigCodec.ParseTomlConfig` | archive/code/src/config/codec.ts:27-45 | The loop computes the fold of the lines' meanings, or fails on a malformed JSON string |
| `ConfigFile.SerializeTomlConfig` | archive/code/src/config/codec.ts:47-96 | The pushes produce exactly the kept settings, each under its section, in order |
| `ConfigCodec.RoundTrip` | archive/code/src/config/codec.ts:3-96 | Parsing what was serialised gives back every known setting as kept, for every object and every text in it |
| `ConfigCodec.ConfigRoundTrip` | archive/code/src/config/schema.ts:48-112 | The configuration read from the serialised text is the one read from the object if and only if its sync date does not come from the legacy key alone |
| `ConfigCodec.LegacyDateIsLost` | archive/code/src/config/codec.ts:84-96 | An input for the other case: an object whose only setting is a legacy date |
| `ConfigObjects.SetThenLookup` | archive/code/src/config/codec.ts:130-145 | A value set at a path is found there, and every path apart from it keeps its value |
| `ConfigObjects.RemoveThenLookup` | archive/code/src/config/store.ts:261-270 | Removing empties one path and no path apart from it |
| `ConfigObjects.PruneKeepsLeaves` | archive/code/src/config/store.ts:276-284 | Pruning loses no value that is not an object, and makes none |
| `ConfigSchema.StoredAt` | archive/code/src/config/store.ts:172-239 | After patching each setting is written with its patched value if that differs from what was read, else as it stood |
| `ConfigAnswers.SettingsAreRead` | archive/code/src/config/schema.ts:48-112 | Which raw key each field of the configuration is read from, its default, and what does not count, for every object |
| `ConfigAnswers.PatchIsTaken` | archive/code/src/config/schema.ts:114-144 | The values of a patch as they are taken |
| `ConfigAnswers.NextLine` | archive/code/src/config/codec.ts:47-96 | A line of the file, its header and the empty line before it |
| `JsonGrammar.ReadsExactlyTheGrammar` | archive/code/src/config/codec.ts:117-122 | A JSON string is read if and only if it is one of the grammar of section 7 of RFC 8259, escapes in either case of digits included, and as exactly the characters it stands for |
| `JsonGrammar.CharIsWritten` | archive/code/src/config/codec.ts:126-128 | How a character of a value is written: a one-letter escape where there is one, four digits for other control characters, itself else |
| `ConfigAnswers.TextIsReadAs` | archive/code/src/config/codec.ts:3-16 | Text that opens with a brace is left to the reader of JSON, other text is read line by line, blank or unreadable text is an empty object |
| `ConfigReading.CommentIsCutWhere` | archive/code/src/config/codec.ts:98-115 | Character by character where a comment starts: a backslash keeps the next character in a string and out of it, a quote goes in and out |
| `ConfigReading.TrimIsExact` | archive/code/src/config/codec.ts:31-31 | Trimming takes white space off both ends and leaves none there |
| `ConfigReading.SectionIsRead` | archive/code/src/config/codec.ts:33-37 | A line opens a section if and only if it is a name in brackets, and its path is the name cut at every dot |
| `ConfigReading.AssignmentSays` | archive/code/src/config/codec.ts:38-42 | What every other line with an equals sign assigns, a malformed string included |
| `ConfigReading.LinesEndEitherWay` | archive/code/src/config/codec.ts:30-30 | A line feed ends a line and takes one carriage return before it along |
| `ConfigSchema.PatchThenRead` | archive/code/src/config/store.ts:172-239 | Writing a patch and reading gives the patched fields and the old values elsewhere if and only if every patched model name reads back and no date from the legacy key alone is left unpatched |
| `ConfigSchema.DefaultIsNoModelName` | archive/code/src/config/codec.ts:69-77 | An input for the other case: a patch that names a model `default` |
| `ConfigSchema.PatchedModels` | archive/code/src/config/store.ts:217-226 | The model part of it, exactly when no patched model is "", "default" or "null" |
| `ConfigSchema.PatchedSync` | archive/code/src/config/store.ts:228-236 | The sync date part of it |
| `ConfigFile.ConfigFile.WriteConfig` | archive/code/src/config/store.ts:74-87 | The same over the file's text: missing, blank and malformed files count as empty, and the written text reads as the patched configuration under exactly those conditions |
| `ConfigFile.ConfigFile.ReadSingleConfig` | archive/code/src/config/store.ts:145-159 | What the raw reader reads, normalised; and so the defaults for a missing, blank or malformed file |

## Left out

- Storage: SQLite, WAL, busy timeouts and JSON encoding of records; a transaction is one atomic step on maps and sequences, and a crash inside one is not modelled.
- Run records: page changes, repository filters, list queries and `has_active_run`; identifiers of new runs are inputs, fresh where the store expects it.
- Serialised provider events: the store never looks into them, the projector takes them decoded.
- QueueDrain.NoRunIsStranded: no process is killed, releasing the lease does not raise, and no lock is taken over as stale; execution of a run by its child process is a sequence of store calls by anyone.
- JobProtocol.NoWakeupIsLost: background jobs only, since foreground jobs release the lock without a recheck; enqueuers do not crash before their spawn; taking the lock from a dead holder is one step, so the races between the file operations of a takeover, the grace period of a lock without an owner file, reused process identifiers and the lock under the legacy `runs/` path are not modelled.
- JobStore.JobStore.RunJobWorker: others act between a release and the recheck, not during a drain, and its writes succeed; what arrives during a drain and writes that fail are in `JobProtocol`.
- JobRest.MarkedRecordAtRest: a canceller that has marked a job goes on to write its record; one that is killed in between is not modelled.
- JobRecords: page changes, operation output, failure details, provider and target fields; record files are read and written whole.
- SyncLedger.DoneJobsTile: append-only files, and no crash between the start of a job and the ledger write.
- SyncLedger.RewritesAreDetected: the hash is a parameter; that it does not collide with the absorbed prefix is a hypothesis, as in FlaggedExactly and CursorsDescribe that it tells a file from a longer beginning of it.
- SyncCursors.InitialLedgerCursor: reading a time stamp out of a transcript line is a parameter.
- SyncSweep: time stamps and error texts of ledger entries, the discovery of candidates, and exceptions other than unreadable files and failing starts.
- ProcessFreeze.ProcessTable.FreezeProcessTree: the schedule of forks, exits and denials is any finite one; continuing of frozen processes by others, subreapers inside the tree and reuse of a pid with an equal creation time are not modelled, and signals after the freeze are left out.
- RunSteps: title case follows ASCII.
- TomlEdits.UpdateSetsValue: bodies of single-line scalars, plain headers and unique keys, as these editors write; other line separators, multi-line values and headers with comments or inner spaces are not read by the model.
- IndexProjection.IndexIsCurrent: that path and content hash fix a page's indexed fields is a hypothesis; Markdown parsing, title texts, search ranking and snippets are opaque.
- ConfigCodec.RoundTrip: the TOML form only; configuration files in JSON, text that begins with a brace and is read by `JSON.parse`, and `Date.parse` are parameters or left out; half surrogate pairs and the key `__proto__` are not modelled.
- ConfigObjects.SetThenLookup: the nested objects that `setObjectPath`, `setStoredValue`, `removeStoredValue` and `pruneEmptyObjects` walk and mutate are values here, so update in place and aliasing between nested JavaScript objects are not captured.
- ConfigSchema.StoredAt: the patch builder is a function of the settings in their order, not a sequence of writes to one object.
- ConfigFile.ConfigFile.WriteConfig: the temporary file and rename are one step; origins, project configuration, migration of old paths and `ensureAutomationSyncSince` are left out.
- Command line, setup wizard, viewer, HTTP server, prompts, telemetry delivery, launchd and packaging: no state of their own worth a proof.
