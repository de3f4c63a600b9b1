# Andera: verified models of the run machinery

Andera runs an audit task over many samples: rows are put on a claim-lease
queue, workers take them, a graph of agent nodes plans, acts, verifies, extracts
and judges each one, and what came of it goes to `samples.jsonl`, a hash-chained
audit log, a content-addressed store and a manifest. This project models those
mechanisms in Dafny and proves what every run of them keeps.

`dafny verify dfyconfig.toml` checks everything. The modules follow the
program's files:

| module | models |
|---|---|
| `TaskQueue` | the queue both backends stand for: a status and an attempt count per item |
| `SqliteQueue`, `RedisQueue` | the two backends as classes, refining `TaskQueue` |
| `SampleLog` | `samples.jsonl` and the counters and completed ids kept beside it |
| `RunLoop` | the embedded run as a state machine: N workers, stop, crash, resume |
| `RunHistory` | what a run records of one item, which input rows it gets to, and witness runs |
| `EmbeddedWorker` | enqueueing, N gathered workers, stop and resume as imperative code that runs that state machine |
| `PoolLog`, `PoolWorker` | worker containers that append without looking at the file, and the loop of one |
| `SampleReport`, `AggregateCsv`, `Finalizer` | the summary, the CSV and the totals made from the file |
| `AgentGraph` | nodes, routers and budgets of the per-sample graph |
| `AuditLog`, `AuditLogPg` | the hash chain, in one table and as one chain per run |
| `ArtifactStore`, `Manifest` | blobs, readable folders, and the manifest over them |
| `RateLimiter` | the per-host token bucket |
| `Observations`, `Descriptors`, `EventBus` | history compaction, descriptor replay, drop-oldest publish |

Code that changes objects is written as classes and loops whose contracts give
the new state as a function of the old one; the lemmas then say what those
functions mean over whole runs. Model replies, tool results, the clock, the
regex engine, JSON and SHA-256 are parameters; nothing is assumed of the hash
but its hexadecimal form, so tampering is stated as "or two texts collide".

## What the code does not do

Properties that the code or its documentation suggests and that are false are
stated with the exact condition under which they hold, and with a run or input
on which they fail:

- The docstring of the Redis `dequeue` says `reclaim_stale` recovers an item
  whose worker dies between `RPOP` and the pipeline. It does not: whichever
  workers die while the others go on, of their items exactly those whose claim
  was stamped can ever be handed out again
  (`RedisQueue.DeathLosesExactlyTheUnstamped`, `RecoverableIffNotLost`,
  `LostIsLostForEver`; a losing run is `DequeueCanLoseAnItem`). Such an item is
  in neither count, so a queue that looks drained has finished every item
  exactly when none is in that gap and none was lost in it
  (`LooksDrainedMeansFinishedIff`).
- A resume in front of worker containers reclaims the claims of all of them, also
  of those that are alive. An item two of them hold can then be reported by a
  line it was not acknowledged on (`PoolLog.RescuedLiveClaimMisreports`); as long
  as nothing a live worker holds is rescued it never is
  (`SummaryReportsTheAckedLine`), and the rescues that keep queue, hands and file
  in agreement are exactly those of a claimed or done item that no live worker
  holds (`RescueKeepsInvIff`).
- A done item can have a failing line. Its line passes exactly when the first
  outcome recorded for it passed, and is the acknowledged outcome exactly when
  the item was acknowledged on its first recorded outcome
  (`RunHistory.LineIsFirstRecorded`). It fails without any retry when the judge
  failed the sample, which still counts as done (`JudgedFailIsDone`), and after
  a retry that passed (`DoneItemCanHaveAFailingLine`).
- A resumed process enqueues nothing, and a crash can lose an item. In a drained
  run every input row comes to an end exactly when all rows were enqueued before
  the first crash, nothing was lost and no claim is stranded
  (`RunHistory.EveryRowFinishesIff`, `RunLoop.DrainedRunFinishesEverythingIff`;
  a run that leaves a row out is `RowsAreLeftOut`).
- One bad item stops the finalization of the whole run: it succeeds exactly when
  no recorded list holds a value that is neither empty nor an object
  (`Finalizer.FinalizeSucceedsIff`, `OneBadItemStopsFinalize`).
- An acknowledged sample need not have been judged. The checkpoint of a thread
  keeps its verdict, so a sample is acknowledged exactly when this invocation
  reached the judge or an earlier one left a passing verdict; whatever else the
  thread holds, such a verdict is what lets it be acknowledged unjudged
  (`AgentGraph.AckedIffJudged`, `AckedWithoutJudging`, `PassedThreadExists`).
- Retries share one budget: over all attempts of a sample at most three plans
  are installed, and a thread that has used them is never judged again
  (`AgentGraph.ThreadStaysInBudget`, `SpentThreadIsNotJudged`).
- The result's counters take a sample's first line and the manifest its last:
  they count the same passes if and only if as many samples recovered as fell
  back (`SampleReport.CountersAgreeWithSummaryIff`,
  `RetriedSampleSplitsTheTotals`).
- Resuming reclaims only claims stamped strictly before its clock reading
  (`SqliteQueue.ReclaimFreesEveryClaimIff`, `FreshClaimIsNotFreed`); with a later
  one than every claim's a crashed run finishes (`EmbeddedWorker.CrashAndResume`).
- Retries go to the front of the SQLite queue and to the back of the Redis one
  (`SqliteQueue.RetryGoesFirst`, `RedisQueue.RetryGoesLast`).
- A tool error is never cleared and is counted twice, so its step is not
  retried; a step that is not an object raises in the verifier instead of being
  replanned; a failed snapshot goes unnoticed (`AgentGraph.ToolErrorSticks`,
  `ToolErrorReplansAtOnce`, `BadStepCrashes`, `SnapshotErrorIsInvisible`).
- The recursion limit of 200 visits cannot be exceeded exactly for plans of at
  most twenty steps (`AgentGraph.RecursionLimitIsSafeIff`, `BoundIsMet`).
- Compacting after every step abstracts abstracts again
  (`Observations.SameAsOnceIff`, `SevenEntriesDiffer`).
- Separators inside ids make the hashed text ambiguous, and run and sample ids
  are not hashed (`AuditLog.JoinIsUnambiguousIff`, `SeparatorInIdsIsAmbiguous`,
  `RunIdsAreNotCovered`).
- `verify_chain(None)` succeeds exactly on single-run tables
  (`AuditLogPg.VerifyAllIffSingleRun`, `TwoRunsAreNotOneChain`).
- A put leaves its bytes in the readable folder unless both its names hold other
  bytes, and it never gets them there later (`ArtifactStore.PutFilesItIff`,
  `FiledAtTheEndIff`, `EvidenceCanBeLost`). A blob path disappears when content
  stored with the suffix `.tmp` is stored again without one, and then the
  manifest no longer verifies (`ArtifactStore.PathStandsIff`, `BlobStaysIff`,
  `BlobCanDisappear`, `Manifest.ManifestSurvivesPutIff`, `ManifestCanBreak`).
- A configured rate below 0.1 per second is raised to 0.1, so it is the bound on
  every trace exactly from 0.1 on (`RateLimiter.ConfiguredRateIsRespectedIff`,
  `RateIsExact`).
- Where no hard link can be made, a put made again leaves a second copy beside
  the first (`ArtifactStore.PutTwiceIff`).

## Model

| member | source | states |
|---|---|---|
| `TaskQueue.ApplyKeepsBounded` | src/andera/queue/sqlite_queue.py:132-156 | live items always have fewer than max_attempts failed attempts, dead ones at most that |
| `TaskQueue.ClaimsAccountedFor` | src/andera/queue/sqlite_queue.py:95-191 | over every legal run each claim of an item is a failed attempt, a reclaim, a dead letter, or the claim still held or acknowledged |
| `TaskQueue.ClaimsAreBounded` | src/andera/queue/sqlite_queue.py:132-156 | an item is handed out at most max_attempts times, plus once per reclaim |
| `TaskQueue.DeadIffExhausted` | src/andera/queue/sqlite_queue.py:132-156 | over every legal run the attempts of an item are its nacks, and it is dead if and only if it was dead-lettered or got max_attempts of them, no fewer |
| `TaskQueue.WorkLowersTotalRank` | src/andera/queue/sqlite_queue.py:95-164 | every claim, ack, nack and dead letter lowers a measure over the whole queue |
| `TaskQueue.WorkTerminates` | src/andera/orchestrator/runner.py:448-456 | without enqueues and reclaims at most 2 * max_attempts operations per item can follow |
| `SqliteQueue.SqliteQueue.Enqueue` | src/andera/queue/sqlite_queue.py:83-93 | the abstract enqueue; every other row is untouched, and no row that is no younger loses its turn |
| `SqliteQueue.SqliteQueue.Dequeue` | src/andera/queue/sqlite_queue.py:95-122 | claims a pending row of least created_at and stamps it with the clock reading, so that it is stale for exactly the cutoffs after it; returns nothing exactly when none is pending |
| `SqliteQueue.SqliteQueue.Ack` | src/andera/queue/sqlite_queue.py:124-130 | the abstract ack; the rest of the table unchanged |
| `SqliteQueue.SqliteQueue.Nack` | src/andera/queue/sqlite_queue.py:132-156 | the abstract nack: dead at the limit, otherwise pending, with payload and created_at kept |
| `SqliteQueue.SqliteQueue.DeadLetter` | src/andera/queue/sqlite_queue.py:158-164 | the abstract dead letter: never the next dequeue, payload, attempts and created_at kept, an unknown id ignored |
| `SqliteQueue.SqliteQueue.ReclaimStale` | src/andera/queue/sqlite_queue.py:176-191 | the abstract reclaim of exactly the claims stamped before the cutoff, which keep payload, attempts and place in time; returns how many rows it freed |
| `SqliteQueue.EveryOperationRefines` | src/andera/queue/sqlite_queue.py:83-191 | each table operation is the abstract operation, whatever id is named |
| `SqliteQueue.ClaimIsFreedIff` | src/andera/queue/sqlite_queue.py:109-113 | a dequeued row is freed by exactly the reclaims whose cutoff is after the dequeue, and waits as before it |
| `SqliteQueue.ReclaimFreesEveryClaimIff` | src/andera/queue/sqlite_queue.py:176-191 | a reclaim with age 0 frees every claim if and only if each was stamped strictly before the clock reading |
| `SqliteQueue.FreshClaimIsNotFreed` | src/andera/queue/sqlite_queue.py:176-191 | a claim stamped at the clock reading itself stays claimed |
| `SqliteQueue.RetryGoesFirst` | src/andera/queue/sqlite_queue.py:132-156 | a nacked row older than the pending ones is the one and only next dequeue |
| `SqliteQueue.DequeueTakesTheNext` | src/andera/queue/sqlite_queue.py:95-122 | with growing timestamps a dequeue takes the first row not yet handed out |
| `SqliteQueue.FirstInFirstOut` | src/andera/queue/sqlite_queue.py:83-164 | without nack and reclaim the dequeued ids are a prefix of the enqueued ids |
| `RedisQueue.RedisQueue.Enqueue` | src/andera/queue/redis_queue.py:91-106 | the abstract enqueue; a new id keeps the structures consistent and waits behind all others |
| `RedisQueue.RedisQueue.Dequeue` | src/andera/queue/redis_queue.py:108-140 | pops the last list entry, stamps it with token and clock reading, and returns its payload and attempts; from a consistent state it is a legal abstract claim that keeps it consistent |
| `RedisQueue.RedisQueue.Ack` | src/andera/queue/redis_queue.py:142-148 | of a known id the abstract ack; of a held one it keeps the structures consistent and no orphan appears; nothing else changes |
| `RedisQueue.RedisQueue.Nack` | src/andera/queue/redis_queue.py:150-172 | of a known id the abstract nack; of a held one it keeps the structures consistent; the next dequeue is unchanged and the payload kept |
| `RedisQueue.RedisQueue.DeadLetter` | src/andera/queue/redis_queue.py:174-181 | of a known id the abstract dead letter; of a held one it keeps the structures consistent; attempts and payload kept |
| `RedisQueue.RedisQueue.StaleIds` | src/andera/queue/redis_queue.py:207-210 | lists each claim with a score from 0 to the cutoff, once |
| `RedisQueue.RedisQueue.ReclaimStale` | src/andera/queue/redis_queue.py:198-223 | releases exactly the stale claims, one pipeline each, and counts them |
| `RedisQueue.EveryItemIsInOnePlace` | src/andera/queue/redis_queue.py:7-15 | pending list, claims, dead set, done hashes and orphans partition the known ids |
| `RedisQueue.EnqueueKeepsRepIff` | src/andera/queue/redis_queue.py:91-106 | the four structures stay consistent if and only if the id is not waiting, claimed or dead |
| `RedisQueue.StampKeepsRepIff` | src/andera/queue/redis_queue.py:118-140 | stamping keeps them consistent if and only if the id is off the list and not dead |
| `RedisQueue.AckKeepsRepIff` | src/andera/queue/redis_queue.py:142-148 | likewise for ack |
| `RedisQueue.NackKeepsRepIff` | src/andera/queue/redis_queue.py:150-172 | likewise for nack, which may also meet a dead id when it exhausts the attempts |
| `RedisQueue.DeadLetterKeepsRepIff` | src/andera/queue/redis_queue.py:174-181 | dead_letter keeps them consistent if and only if the id is not waiting |
| `RedisQueue.ReleaseKeepsRepIff` | src/andera/queue/redis_queue.py:212-222 | one turn of the reclaim loop keeps them consistent if and only if the id is off the list and not dead |
| `RedisQueue.StampSimulatesIffKnown` | src/andera/queue/redis_queue.py:118-140 | the stamp is the abstract claim if and only if the id has a hash |
| `RedisQueue.FinishSimulatesIffKnown` | src/andera/queue/redis_queue.py:142-181 | ack, nack and dead_letter are the abstract operations if and only if the id is known |
| `RedisQueue.ReclaimLoopRefines` | src/andera/queue/redis_queue.py:198-223 | the whole loop is one abstract reclaim and leaves orphans where they are |
| `RedisQueue.NextKeepsConsistent` | src/andera/queue/redis_queue.py:91-223 | every event of every worker keeps the structures consistent, orphans being exactly the unstamped and the lost |
| `RedisQueue.EveryRunRefines` | src/andera/queue/redis_queue.py:91-223 | every run, with workers dying at any time, is a legal run of the abstract queue |
| `RedisQueue.RunTellsHash` | src/andera/queue/redis_queue.py:91-223 | over every run an item keeps the payload it was enqueued with, and a claim carries token and clock reading of its last stamp, the score that reclaim_stale compares |
| `RedisQueue.LostIsLostForEver` | src/andera/queue/redis_queue.py:108-140 | an orphan is never handed out, claimed or finished by any later run, against what the docstring says |
| `RedisQueue.RecoverableIffNotLost` | src/andera/queue/redis_queue.py:91-223 | an item neither done nor dead is handed out by some later run if and only if it is not one whose worker died between pop and stamp |
| `RedisQueue.DeathLosesExactlyTheUnstamped` | src/andera/queue/redis_queue.py:118-137 | when any set of workers dies, some later run hands an item taken by then out again if and only if its claim was stamped or its worker lives on, and otherwise it is lost |
| `RedisQueue.ClaimIsRecoverable` | src/andera/queue/redis_queue.py:198-223 | a stamped claim can be reclaimed and handed out again |
| `RedisQueue.LooksDrainedMeansFinishedIff` | src/andera/orchestrator/runner.py:460-465 | a consistent queue with nothing waiting and nothing claimed has finished every item if and only if none is popped and unstamped and none was lost so |
| `RedisQueue.DequeueCanLoseAnItem` | src/andera/queue/redis_queue.py:118-137 | a run in which a popped item is lost for good |
| `RedisQueue.RetryGoesLast` | src/andera/queue/redis_queue.py:163-172 | a retry is behind everything that waits |
| `RedisQueue.HandedOutInPushOrder` | src/andera/queue/redis_queue.py:103-118 | ids handed out followed by ids waiting are the ids pushed, in order |
| `RedisQueue.FirstInFirstOut` | src/andera/queue/redis_queue.py:103-118 | without nack and reclaim items leave in enqueue order |
| `RedisQueue.NothingStarves` | src/andera/queue/redis_queue.py:103-118 | an item with k ahead of it is handed out by pop k + 1 whatever is pushed meanwhile |
| `SampleLog.RunLog.LoadCompleted` | src/andera/orchestrator/runner.py:160-181 | counters and completed ids are those of the readable lines; false exactly when a line is JSON but no object |
| `SampleLog.RunLog.RecordResult` | src/andera/orchestrator/runner.py:338-349 | a known sample changes nothing, a new one is counted and appended |
| `SampleLog.CompletedAreMentioned` | src/andera/orchestrator/runner.py:160-181 | a sample is complete if and only if some line names it |
| `SampleLog.LoadCountsFirstRows` | src/andera/orchestrator/runner.py:160-181 | the counters count each sample once, by its first line, as passed if and only if its verdict is "pass" |
| `SampleLog.FirstRowsAreFirst` | src/andera/orchestrator/runner.py:160-181 | the lines counted are exactly those that name a sample no earlier line names |
| `SampleLog.FileReadsBack` | src/andera/orchestrator/runner.py:338-349 | the file the workers wrote reads back as the rows they recorded |
| `RunLoop.StepKeepsInv` | src/andera/orchestrator/runner.py:160-201 | the invariant of queue, file, memory and workers is kept by every step, crash and resume included |
| `RunLoop.EveryRunIsSafe` | src/andera/orchestrator/runner.py:338-372 | in every reachable state: one line per sample, a line for every done item, memory equal to what the file would load, no item in two hands, every claim held or stranded |
| `RunLoop.MemorySurvivesCrash` | src/andera/orchestrator/runner.py:412-416 | crash and resume rebuild exactly the counters and completed ids that were lost |
| `RunLoop.FirstLineStands` | src/andera/orchestrator/runner.py:338-349 | the file only grows |
| `RunLoop.NoRowsAfterEnqueuing` | src/andera/orchestrator/runner.py:673-694 | once enqueueing has ended, by the workers starting or by a crash, no run adds a row |
| `RunLoop.DrainedMeansFinished` | src/andera/orchestrator/runner.py:448-456 | when all workers have returned unstopped, an item is done or dead if and only if no crash lost it and the last resume did not skip it |
| `RunLoop.DrainedRunFinishesEverythingIff` | src/andera/orchestrator/runner.py:448-456 | such a run has every item done or dead if and only if nothing was lost and nothing is stranded |
| `RunLoop.CleanDrainedRunsFinishEverything` | src/andera/orchestrator/runner.py:448-456 | if no crash fell between pop and stamp and every resume reclaimed every claim, all items end done or dead |
| `RunLoop.WorkersTerminate` | src/andera/orchestrator/runner.py:351-372 | under every schedule, every outcome and every stop signal the workers take at most 6 * max_attempts steps per item and two each |
| `RunLoop.SomeWorkerCanStep` | src/andera/orchestrator/runner.py:351-372 | no deadlock: a worker that has not returned can step |
| `RunLoop.GatherDrains` | src/andera/orchestrator/runner.py:448-456 | a schedule that runs as long as any worker can step ends with all returned and, unless a stop signal was among its steps, nothing left to dequeue |
| `RunLoop.RecordedRowIsWrittenIff` | src/andera/orchestrator/runner.py:338-349 | an attempt writes its line if and only if its sample has none, and otherwise leaves the file |
| `RunHistory.LineIsFirstRecorded` | src/andera/orchestrator/runner.py:338-365 | over every run: the line of a done item is the first outcome recorded for it, it passes if and only if that one did, the item was acknowledged once, on the last, and that one is in the file if and only if it was also the first |
| `RunHistory.LineIffRecorded` | src/andera/orchestrator/runner.py:338-349 | over every run and for every item: it has a line if and only if an outcome was recorded for it, and then the first one |
| `RunHistory.TotalsCountRecordedItems` | src/andera/orchestrator/runner.py:160-181 | over every run: the counters, and what the file would load, count the items an outcome was recorded for, as passed those whose first one passed |
| `RunHistory.JudgedFailIsDone` | src/andera/orchestrator/runner.py:362-363 | a run of one attempt that ends with a done item whose line failed |
| `RunHistory.DoneItemCanHaveAFailingLine` | src/andera/orchestrator/runner.py:338-365 | a run that ends so after a failed attempt and a retry that passed |
| `RunHistory.EveryRowFinishesIff` | src/andera/orchestrator/runner.py:185-201 | in a drained run every input row has a done or dead item if and only if all rows were enqueued before the first crash, no item was lost and no claim is stranded |
| `RunHistory.CleanRunFinishesEveryRowIff` | src/andera/orchestrator/runner.py:185-201 | if no crash fell between pop and stamp and every resume reclaimed every claim, only rows not enqueued before the first crash are left out |
| `RunHistory.RowsAreLeftOut` | src/andera/orchestrator/runner.py:673-694 | a run that crashes between two rows, resumes and drains, and never runs the second |
| `EmbeddedWorker.TakeNext` | src/andera/orchestrator/runner.py:351-358 | the head of the loop: when stopped it returns without a dequeue, otherwise it claims an oldest row under this clock reading, or returns when nothing is pending, as steps of the state machine |
| `EmbeddedWorker.AckOrNack` | src/andera/orchestrator/runner.py:362-372 | the item is done if and only if it did not raise and its verdict is "pass" or its status done, every other row is kept |
| `EmbeddedWorker.Advance` | src/andera/orchestrator/runner.py:351-372 | from one await of a worker to the next, table, counters and file change as in the state machine |
| `EmbeddedWorker.Gather` | src/andera/orchestrator/runner.py:448-449 | N workers interleaved in any order, with any outcomes and signals, all return unless the process dies first; what they did is a run of the state machine that dequeues nothing after a signal, and every claim in the table carries the clock reading of a turn |
| `EmbeddedWorker.Drain` | src/andera/orchestrator/runner.py:446-456 | the drain loop ends after one round; unstopped, exactly the items that are not stranded are done or dead |
| `EmbeddedWorker.EnqueueAll` | src/andera/orchestrator/runner.py:185-201 | one item per row under its own id, waiting with the row's payload and the timestamp of its turn |
| `EmbeddedWorker.Execute` | src/andera/orchestrator/runner.py:388-456 | a fresh run from an empty queue and file is a run of the state machine from its start, after which, unless stopped, every row has come to an end |
| `EmbeddedWorker.Resume` | src/andera/orchestrator/runner.py:412-416 | memory is rebuilt from the file and the stale claims are reclaimed |
| `EmbeddedWorker.ResumeMirrors` | src/andera/orchestrator/runner.py:412-416 | the resumed objects are the state machine's resume step |
| `EmbeddedWorker.ResumeAndDrain` | src/andera/orchestrator/runner.py:388-458 | a resumed run with N workers ends, unless stopped, with every item done, dead or claimed, and claimed exactly those that were and were not stamped before the clock reading |
| `EmbeddedWorker.ExecuteUntilCrash` | src/andera/orchestrator/runner.py:388-449 | a process that dies at any turn leaves a table whose claims carry the clock readings of earlier turns, and the file and queue of a run of the state machine |
| `EmbeddedWorker.CrashAndResume` | src/andera/orchestrator/runner.py:388-456 | a run that dies at any turn and is resumed with a later clock reading than any claim's ends, unless stopped, with nothing claimed and every row finished |
| `PoolLog.StepKeepsInv` | src/andera/worker.py:142-182 | with appends that never look, pops and stamps apart, and workers that die anywhere, every step but a rescue of what is in a live hand keeps queue, hands and file in agreement: each item in one hand, what runs claimed, and the last line of a done item the outcome it was acknowledged on |
| `PoolLog.RescueKeepsInvIff` | src/andera/queue/redis_queue.py:212-222 | one turn of a reclaim loop keeps that agreement if and only if the item is claimed or done and in no live hand |
| `PoolLog.SummaryReportsTheAckedLine` | src/andera/worker.py:399-437 | however containers interleave and die, if no claim of a live one is rescued, the summary reports a completed item by the line it was acknowledged on |
| `PoolLog.RescuedLiveClaimMisreports` | src/andera/orchestrator/runner.py:412-416 | a run that rescues one live claim and ends with the item done and reported by a failing line it was not acknowledged on |
| `PoolWorker.Process` | src/andera/worker.py:166-172 | one job: its line appended, then the abstract ack or nack on a consistent Redis state, done if and only if it passed or its status is done |
| `PoolWorker.JobMirrors` | src/andera/worker.py:163-173 | a job on queue and file is a run of the container state machine and lowers the rank of the queue |
| `PoolWorker.RunNode` | src/andera/worker.py:142-182 | alone on the queue the loop ends whatever its jobs return, at the first signal or after the third empty round with nothing waiting, and is a run of the container state machine that keeps its invariant |
| `SampleReport.SamplesSummary` | src/andera/orchestrator/runner.py:541-563 | the loop over the lines computes the summary function |
| `SampleReport.SummaryIsLastLinePerSample` | src/andera/orchestrator/runner.py:541-563 | one entry per named sample, its last line, ordered by row index, a missing one counting as 0 |
| `SampleReport.SummaryBreaksTiesByFirstLine` | src/andera/orchestrator/runner.py:541-563 | samples of one row index come in the order in which the file first names them |
| `SampleReport.CountersAgreeWithSummaryIff` | src/andera/orchestrator/runner.py:160-181 | on any file counters and summary count the same samples, and the same passes if and only if recoveries and relapses balance |
| `SampleReport.UniqueLinesAgree` | src/andera/orchestrator/runner.py:541-563 | with one line per sample they agree on everything |
| `SampleReport.RetriedSampleSplitsTheTotals` | src/andera/worker.py:329-332 | a retried sample in an undeduplicated file is failed for the counters and passed for the manifest |
| `AggregateCsv.CollectKeys` | src/andera/orchestrator/runner.py:580-598 | the keys of all items in order of first appearance; raises exactly when a list holds a value that is neither empty nor an object |
| `AggregateCsv.RebuildCsv` | src/andera/orchestrator/runner.py:565-625 | both passes compute the rendered CSV, or raise; without samples the file is empty |
| `AggregateCsv.CsvIsRectangular` | src/andera/orchestrator/runner.py:600-625 | every line has as many cells as the header |
| `AggregateCsv.ColumnsCoverItems` | src/andera/orchestrator/runner.py:580-598 | the item columns are distinct and cover every key |
| `AggregateCsv.ColumnsInFirstSeenOrder` | src/andera/orchestrator/runner.py:576-604 | the header columns after the verdict are the keys of the items and no others, in the order in which the file first shows them |
| `AggregateCsv.LinesFollowSamples` | src/andera/orchestrator/runner.py:606-625 | the lines come in the order of the samples, each sample with as many as it has items |
| `AggregateCsv.EveryCellIsNamed` | src/andera/orchestrator/runner.py:600-625 | on every line the cells under sample_id, row_index, item_index and verdict are the sample's, and every later cell is the item's value of the name in the header; item_index is there if and only if some sample has a list |
| `AggregateCsv.CsvRecoversEveryItem` | src/andera/orchestrator/runner.py:565-625 | when no item raises, grouping lines by sample id and reading them under the header gives back max(1, items) items in order, up to missing keys and empty texts |
| `Finalizer.Finalize` | src/andera/orchestrator/runner.py:467-524 | the report of the file, or the error of a line or an item that raises |
| `Finalizer.ReportIsOfTheSummary` | src/andera/orchestrator/runner.py:467-563 | whatever file is finalized, samples, passes and CSV are those of one line per named sample, the last, in one order |
| `Finalizer.FinalizeSucceedsIff` | src/andera/orchestrator/runner.py:580-598 | over every run: finalizing succeeds if and only if no recorded list holds a value that is neither empty nor an object |
| `Finalizer.OneBadItemStopsFinalize` | src/andera/orchestrator/runner.py:589-594 | a run with one passed and done sample that cannot be finalized |
| `Finalizer.FinalizeReportsTheRun` | src/andera/orchestrator/runner.py:467-524 | after every embedded run that can be finalized the result's totals equal the manifest's and those in memory, every recorded item is in the CSV, every done item in the summary |
| `AgentGraph.StepKeepsShape` | src/andera/agent/nodes.py:381-1081 | every node visit keeps the shape of the state and lowers the visits left |
| `AgentGraph.VisitsAreBudgeted` | src/andera/agent/graph.py:51-74 | a run and the visits its end state has left fit in the budget of its start |
| `AgentGraph.GraphTerminates` | src/andera/agent/graph.py:51-84 | for all replies and plans of at most L steps a run makes at most 9 * L + 20 visits |
| `AgentGraph.BoundIsMet` | src/andera/agent/nodes.py:827-855 | for every L >= 2 some run of a fresh thread makes exactly that many |
| `AgentGraph.RecursionLimitIsSafeIff` | src/andera/agent/graph.py:84 | no run makes more than 200 visits if and only if plans have at most twenty steps |
| `AgentGraph.VerifiedInOrder` | src/andera/agent/nodes.py:775-855 | the steps verified since the current plan was installed are exactly 0, 1, ... up to the step index |
| `AgentGraph.ExtractionIsEarned` | src/andera/agent/nodes.py:1045-1081 | extraction starts only at a done step, on an empty plan, or with every step verified once in order |
| `AgentGraph.NoWayBack` | src/andera/agent/nodes.py:1068-1081 | extract and judge never lead back to plan or act |
| `AgentGraph.RunsStayInBudget` | src/andera/agent/nodes.py:381-479 | of any invocation: the plans of the thread stay at three, four judge visits, and three reflections once a plan is installed, none visited without one |
| `AgentGraph.AckedIffJudged` | src/andera/agent/nodes.py:975-1040 | of any invocation that ends: done if and only if the judge was reached; acknowledged if and only if that, or the thread was left with a passing verdict |
| `AgentGraph.JudgeEndsIff` | src/andera/agent/nodes.py:994-1014 | over every run the verdict is the judge's last; a run ends in doubt - fail, uncertain or unreadable - only with its three reflections used, any other verdict ends it at once, so that every earlier one was in doubt |
| `AgentGraph.JudgeGoesBackIff` | src/andera/agent/nodes.py:1005-1014 | one visit goes back to extract if and only if it leaves doubt and a reflection is left, and uses one; otherwise the sample is done |
| `AgentGraph.PlanInstallsIff` | src/andera/agent/nodes.py:388-479 | a plan is installed, with its counters reset, if and only if fewer than three were made and the planner gave steps, or the cache did for the first one; otherwise the sample fails |
| `AgentGraph.ActGoesTo` | src/andera/agent/nodes.py:1058-1066 | only an unknown action ends the sample, only done or the end of the plan goes to extract |
| `AgentGraph.StepIsPassedIff` | src/andera/agent/nodes.py:776-829 | a step of the eight trusted actions is passed without asking, every other one if and only if the model says so, none after a tool error |
| `AgentGraph.FailedStepGoesTo` | src/andera/agent/nodes.py:835-855 | a failed step is tried again once, then replanned, and the third reflection ends the sample |
| `AgentGraph.AttemptStartsWhereTheLastEnded` | src/andera/agent/graph.py:78-119 | a retry starts with the plan, counts, verdict and error flag the thread was left with, and only the status reset |
| `AgentGraph.ThreadStaysInBudget` | src/andera/agent/graph.py:78-119 | over all attempts on one thread, retried and resumed: at most three plans, and four judge visits per plan |
| `AgentGraph.SpentThreadIsNotJudged` | src/andera/agent/nodes.py:388-394 | a thread that has used three plans installs none and is not judged again |
| `AgentGraph.AckedWithoutJudging` | src/andera/orchestrator/runner.py:294-311 | from any start some run is acknowledged without judging if and only if the thread was left with a passing verdict; a rerun that gets no plan is one |
| `AgentGraph.PassedThreadExists` | src/andera/agent/graph.py:78-119 | a fresh thread can be left so |
| `AgentGraph.ToolErrorSticks` | src/andera/agent/nodes.py:711-719 | after a tool error the flag stays and the step index never grows |
| `AgentGraph.ToolErrorOutlivesAttempts` | src/andera/agent/graph.py:78-119 | a thread with a tool error keeps it through every later attempt |
| `AgentGraph.AfterToolErrorOnlyDoneExtracts` | src/andera/agent/nodes.py:795-797 | from then on extraction needs a done step or an exhausted plan |
| `AgentGraph.ToolErrorReplansAtOnce` | src/andera/agent/nodes.py:835-855 | a tool error is counted by act and by verify, so the step is not retried |
| `AgentGraph.SnapshotErrorIsInvisible` | src/andera/agent/nodes.py:755-772 | a failed snapshot changes nothing that follows |
| `AgentGraph.BadStepCrashes` | src/andera/agent/nodes.py:493-511 | a step that is not an object ends in an exception of the verifier |
| `AuditLog.JoinIsUnambiguousIff` | src/andera/storage/audit_log.py:33-35 | the hashed text has one reading if and only if no field contains the separator |
| `AuditLog.JoinInjective` | src/andera/storage/audit_log.py:33-35 | with clean leading fields the text determines all five fields, whatever the payload |
| `AuditLog.AuditLog.Append` | src/andera/storage/audit_log.py:91-130 | the new row says the event, field by field, and is linked to the previous root; a known event id is refused and changes nothing |
| `AuditLog.AuditLog.VerifyChain` | src/andera/storage/audit_log.py:147-163 | intact exactly when every row is linked and hashes to what it says; then each row's hash is that of previous hash, event id, kind, timestamp and canonical payload, joined |
| `AuditLog.Walk` | src/andera/storage/audit_log.py:147-163 | the loop computes the recursive verification |
| `AuditLog.VerifyMeansChainOk` | src/andera/storage/audit_log.py:147-163 | a walk from any verified prefix accepts exactly the linked continuations |
| `AuditLog.FirstBadRowDecides` | src/andera/storage/audit_log.py:147-163 | the first row that is not as it should be makes the check raise if it is linked and its payload is no JSON, and fail otherwise |
| `AuditLog.AppendedLogsVerify` | src/andera/storage/audit_log.py:91-130 | what one instance wrote verifies, and its rows say the events appended, in order |
| `AuditLog.RootPinsTheLog` | src/andera/storage/audit_log.py:132-163 | two verified logs with one root have, row by row, the same event id, kind, timestamp and canonical payload, or a hash collision or a preimage of genesis is at hand |
| `AuditLog.TamperedRowIsFound` | src/andera/storage/audit_log.py:147-163 | putting another event id, kind, timestamp or payload in one row of a verified log makes the check fail or changes the root, or gives a hash collision |
| `AuditLog.SeparatorInIdsIsAmbiguous` | src/andera/storage/audit_log.py:33-35 | two different verified logs with one root under every hash, when ids may contain the separator |
| `AuditLog.RunIdsAreNotCovered` | src/andera/storage/audit_log.py:91-130 | rewriting run and sample ids changes neither verdict nor root |
| `AuditLogPg.AuditLogPg.RootHash` | src/andera/storage/audit_log_pg.py:134-147 | the last row of the run, or of the whole table without a run id, or genesis |
| `AuditLogPg.AuditLogPg.ReadTail` | src/andera/storage/audit_log_pg.py:104-116 | what append links to: the last row of the run, the rows without a run id being one of their own |
| `AuditLogPg.AuditLogPg.Append` | src/andera/storage/audit_log_pg.py:91-132 | the run's chain grows by the event, and the result is its new root |
| `AuditLogPg.AuditLogPg.VerifyChain` | src/andera/storage/audit_log_pg.py:149-179 | intact exactly when the rows selected, all of them without a run id, are a chain from genesis |
| `AuditLogPg.CommitExtendsOneRun` | src/andera/storage/audit_log_pg.py:104-132 | an append extends its own run and leaves every other run's rows and verdict |
| `AuditLogPg.StepKeepsInv` | src/andera/storage/audit_log_pg.py:53-132 | under locks of any key function, collisions included, a tail read is still the tail at commit |
| `AuditLogPg.EveryRunVerifies` | src/andera/storage/audit_log_pg.py:104-179 | from any consistent state, for every interleaving of transactions, commits and aborts, every run stays its own chain |
| `AuditLogPg.EveryRunOfTheLogVerifies` | src/andera/storage/audit_log_pg.py:91-179 | from the empty log and any number of writers: every run's rows verify and say exactly the events committed for it, in order, and its root is what its last append returned |
| `AuditLogPg.VerifyAllIffSingleRun` | src/andera/storage/audit_log_pg.py:149-179 | the check without a run id succeeds if and only if all rows are of one run |
| `AuditLogPg.TwoRunsAreNotOneChain` | src/andera/storage/audit_log_pg.py:149-179 | one append to each of two runs: both verify and the whole table does not |
| `ArtifactStore.ArtifactStore.Put` | src/andera/storage/artifact_store.py:60-111 | blob and folder entry as the store function says, still valid, and the blob's key returned |
| `ArtifactStore.ArtifactStore.Get` | src/andera/storage/artifact_store.py:113-121 | some file of the shard of two digits whose name starts with the digest, or nothing exactly when there is none |
| `ArtifactStore.BlobsPinContent` | src/andera/storage/artifact_store.py:60-72 | what a digest leads to after a put is the content, or a collision |
| `ArtifactStore.BlobStaysIff` | src/andera/storage/artifact_store.py:63-71 | a blob path survives a put unless it is the path taken for the temporary file |
| `ArtifactStore.BlobCanDisappear` | src/andera/storage/artifact_store.py:63-71 | two puts of one content after which the first blob path is gone |
| `ArtifactStore.FilesKeepBytes` | src/andera/storage/artifact_store.py:75-103 | short of a collision, a put leaves every existing file its bytes |
| `ArtifactStore.PutFilesItIff` | src/andera/storage/artifact_store.py:75-103 | the folder holds the bytes afterwards if and only if one of the two names was free or already held them |
| `ArtifactStore.EvidenceCanBeLost` | src/andera/storage/artifact_store.py:85-103 | three puts to one folder after which the third is nowhere in it |
| `ArtifactStore.DisambiguatedIsInjective` | src/andera/storage/artifact_store.py:92-98 | a disambiguated name determines the name and the eight digits |
| `ArtifactStore.SecondName` | src/andera/storage/artifact_store.py:92-98 | the second name has the first eight digits of the digest behind the stem, or behind a name without a dot |
| `ArtifactStore.LinkedOrCopied` | src/andera/storage/artifact_store.py:99-103 | under a free name the file is the blob itself, or a copy of its bytes where no link can be made |
| `ArtifactStore.PutTwiceIff` | src/andera/storage/artifact_store.py:60-103 | a put made again changes nothing if and only if the file under its name is the blob itself or its second name is taken |
| `ArtifactStore.EveryPutIsFiled` | src/andera/storage/artifact_store.py:60-111 | over any sequence of puts with distinct prefixes and plain names every file is there at the end with its bytes |
| `ArtifactStore.FiledAtTheEndIff` | src/andera/storage/artifact_store.py:75-103 | over any sequence of puts without digest collisions, the bytes of a put are in its folder at the end if and only if one of its two names was free or held them when it was made |
| `ArtifactStore.PathStandsIff` | src/andera/storage/artifact_store.py:60-72 | over any sequence of puts a blob path is there at the end if and only if some put returned it and no later one took it as its temporary file; without digest collisions it then holds the content of every put that returned it |
| `ArtifactStore.GetReturnsWhatWasPut` | src/andera/storage/artifact_store.py:113-121 | after any sequence of puts `get` finds every digest put and can return only content that was put and has that digest, which is the content put unless two contents put share a whole digest |
| `Manifest.WriteManifest` | src/andera/storage/manifest.py:31-80 | records every blob's digest and size, in the order listed, and its own digest |
| `Manifest.VerifyManifest` | src/andera/storage/manifest.py:83-113 | the report's verdict, hash flag and list of faults; not ok without a manifest |
| `Manifest.FaultsAreExact` | src/andera/storage/manifest.py:98-106 | an artifact is reported missing or mismatched exactly when it is |
| `Manifest.WrittenVerifiesIff` | src/andera/storage/manifest.py:31-113 | a written manifest verifies over a later tree if and only if every blob is there with its digest |
| `Manifest.VerifiedManifestPinsBlobs` | src/andera/storage/manifest.py:83-113 | over the same tree it verifies; verifying over another pins every blob's bytes, or two contents collide |
| `Manifest.OtherFilesAreNotCovered` | src/andera/storage/manifest.py:41-51 | files outside the blob tree can change unnoticed |
| `Manifest.DigestPinsManifest` | src/andera/storage/manifest.py:72-75 | two verified manifests with one recorded digest are equal, or collide |
| `Manifest.ManifestSurvivesPutIff` | src/andera/storage/artifact_store.py:63-71 | storing one more artifact keeps a manifest valid if and only if no blob path is taken for the temporary file |
| `Manifest.ManifestCanBreak` | src/andera/storage/artifact_store.py:63-71 | a manifest that a later put makes fail |
| `RateLimiter.HostBucket.DoRefill` | src/andera/browser/rate_limiter.py:31-50 | tokens earned since the last update, up to the capacity |
| `RateLimiter.HostBucket.TimeUntilToken` | src/andera/browser/rate_limiter.py:31-50 | refills, and returns 0 exactly when a token is there |
| `RateLimiter.HostRateLimiter.TryAcquire` | src/andera/browser/rate_limiter.py:66-79 | one turn of the loop: the limiter after it, and whether it admitted |
| `RateLimiter.HostRateLimiter.Acquire` | src/andera/browser/rate_limiter.py:66-79 | the loop is the fold of its turns; an empty host is let through |
| `RateLimiter.AttemptTouchesOneBucket` | src/andera/browser/rate_limiter.py:66-79 | tokens stay in [0, capacity] and other hosts' buckets are untouched |
| `RateLimiter.AdmissionsWithinAllowance` | src/andera/browser/rate_limiter.py:31-79 | from any state, admissions up to an instant stay within the bucket's allowance |
| `RateLimiter.RateIsBounded` | src/andera/browser/rate_limiter.py:31-79 | in every trace over all hosts and every window of length d, one host is admitted at most capacity + max(0.1, rps) * d times |
| `RateLimiter.BoundIsMet` | src/andera/browser/rate_limiter.py:31-79 | for every rate, burst and n some trace on a fresh limiter has exactly burst + n admissions of one host in a window of length n / max(0.1, rps) |
| `RateLimiter.RateIsExact` | src/andera/browser/rate_limiter.py:31-50 | a rate bounds every trace and window if and only if it is at least max(0.1, rps) |
| `RateLimiter.ConfiguredRateIsRespectedIff` | src/andera/browser/rate_limiter.py:31-50 | capacity + rps * d bounds every trace and window if and only if rps is at least 0.1 |
| `RateLimiter.AdmittedOnceWaitedIff` | src/andera/browser/rate_limiter.py:47-50 | a refused caller alone at its host is admitted later if and only if it waited the time returned |
| `RateLimiter.AcquireIsATrace` | src/andera/browser/rate_limiter.py:66-79 | a caller's loop is a trace of attempts, all but the last refused, the last admitted if and only if the caller gets through |
| `Observations.CompactObservations` | src/andera/agent/state.py:20-41 | the loops compute extracts, abstracts and window |
| `Observations.CompactSays` | src/andera/agent/state.py:20-54 | extracts first and whole, the last five others whole, and of each older one its kind and a line naming the page of a snapshot or counting the keys |
| `Observations.IncrementalClosedForm` | src/andera/agent/nodes.py:768-770 | compacting after each entry gives all extracts, then each other entry abstracted once per compaction since it left the window |
| `Observations.IncrementalKeepsWhatMatters` | src/andera/agent/state.py:20-41 | extracts, the last five other entries and the entry count are those of the whole history |
| `Observations.SameAsOnceIff` | src/andera/agent/state.py:20-41 | it equals compacting once if and only if no entry has been abstracted twice |
| `Observations.SevenEntriesDiffer` | src/andera/agent/nodes.py:768-770 | on every history of seven or more entries without extracts the two differ |
| `Observations.CompactTwiceIff` | src/andera/agent/state.py:20-41 | compaction is idempotent if and only if nothing is outside the window |
| `Descriptors.FilterByDescriptor` | src/andera/agent/nodes.py:160-198 | exactly the marks whose role and region are those set and in which every set pattern that compiles is found, in order |
| `Descriptors.DescriptorAsksFor` | src/andera/agent/nodes.py:282-300 | a descriptor takes the hint's patterns and the mark's own role, or the hint's if it has none |
| `Descriptors.UnfittingIsCountedByRole` | src/andera/agent/nodes.py:303-312 | a mark that does not fit its own pattern is recorded by its position among the marks of its role |
| `Descriptors.MatchFits` | src/andera/agent/nodes.py:201-218 | a mark found fits every field set, and none is found exactly when the position is out of range |
| `Descriptors.ReplayFindsTheMarkIff` | src/andera/agent/nodes.py:282-313 | on its own page a descriptor finds the chosen mark if and only if the mark is there and fits its own pattern |
| `Descriptors.ReplayAcrossPages` | src/andera/agent/nodes.py:201-218 | on a page of the same shape the mark at the same position is found |
| `EventBus.EventBus.Subscribe` | src/andera/api/ws.py:20-23 | a new empty queue is registered |
| `EventBus.EventBus.Unsubscribe` | src/andera/api/ws.py:25-28 | the queue is removed exactly when its own key is named |
| `EventBus.EventBus.Publish` | src/andera/api/ws.py:30-47 | every matching queue ends with the event, having lost its oldest if full; the others are unchanged; each queue stays the newest part of its matching events since it subscribed |
| `EventBus.EventBus.Receive` | src/andera/api/routes/events.py:20-27 | a subscriber takes the oldest event its queue holds, and every queue still holds the newest part of its matching events |
| `EventBus.EventsAreConserved` | src/andera/api/ws.py:30-47 | offered events are given, held or dropped, and those held are the newest, within the size |
| `EventBus.GivenInOrder` | src/andera/api/ws.py:30-47 | a consumer gets offered events in order, each at most once |
| `EventBus.MissesNothingIff` | src/andera/api/ws.py:30-47 | it misses nothing if and only if no event came while the queue held maxsize events |
| `EventBus.OfferDropsOldestIff` | src/andera/api/ws.py:37-47 | a queue gives up its oldest event if and only if it holds maxsize events |

## Left out

- The coordinator with the agent pool as one system: the run-scoped queue and the global one are different queues.
- `EmbeddedWorker.Gather`: workers change over at the awaits of their own loop, and the process dies between two turns.
- `RunLoop.DrainedMeansFinished`: queue calls and file appends are atomic and succeed; a fresh start over an existing file is not modelled.
- `PoolWorker.RunNode`: one container alone on the queue, each job whole; several of them, interleaved and dying, are the state machine of `PoolLog`.
- `RedisQueue.ReclaimLoopRefines`: no other event falls between the turns of the loop; single turns under interleaving are covered by `RedisQueue.NextKeepsConsistent`.
- `RedisQueue.RedisQueue.Nack`: the read of the attempts and the pipeline are one step, which matters only when two workers hold the item.
- `PoolLog.SummaryReportsTheAckedLine`: the read of the attempts and the pipeline of a nack are one step; polling back-off is not modelled.
- Display timestamps (`updated_at`, `created_at` in Redis, `claimed_at` in the hash), trace events and audit payloads of the run.
- `AgentGraph.GraphTerminates`: prompts, tools, recipes and the plan cache are arbitrary replies; checkpoint merging is modelled by letting a run start with leftover counters, error flag and verdict.
- `AuditLogPg.EveryRunVerifies`: the advisory lock is exclusive and the transaction atomic; the digest that makes the lock key is any function.
- Several processes appending to one SQLite audit file, whose lock is in-process.
- `AuditLog.RootPinsTheLog`: the payload is compared as its canonical text; numbers are integers.
- `ArtifactStore.EveryPutIsFiled`: no crash inside `put`; sanitizing names, MIME types and folders that collide with directories are not modelled.
- `Manifest.WriteManifest`: the sorted listing is a parameter, and the JSON file holds the manifest it was given.
- `RateLimiter.RateIsBounded`: real numbers for floats, and a clock that never goes back; reading the host out of a URL is not modelled.
- `Descriptors.ReplayFindsTheMarkIff`: a missing role and an empty one are the same, which matters only to the same-role fallback.
- `AggregateCsv.CsvRecoversEveryItem`: cells are values; quoting and the text form of a null are the CSV writer's.
- Plan cache, URL patterns and schema synthesis from field lists, which would add easy members.
- Browser control, model adapters, login, profiles, routes, HTML and evaluation code.
