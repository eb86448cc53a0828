# Aegra run execution, streaming and scheduling: a verified model

Aegra executes agent runs on a pool of workers. A run is a row of the `runs`
table. Workers claim pending rows with a lease, renew it with a heartbeat and
release it. Reapers reset rows whose lease ran out and charge a retry budget.
While a run executes, its events go to a broker, and clients follow them over
server-sent events, reconnecting with the id of the last event they received. A
scheduler fires recurring runs from a second lease protocol over the `crons`
table. Three algorithms have exact specifications of their own: the overlapping
text chunker, the batched embedding, and the accumulation of streamed messages.

How the model is built:

- **Lease protocol** (`RunRow`, `LeaseProtocol`). One run as a labelled state
  machine. Every committed transaction is one step; between two of them any other
  step may happen. Any number of attempts, reaper passes, queue entries and API
  interrupts interleave. `Valid`, `Exec` and `Run` give the runs; `RowColumns`
  says column by column what each step writes, and `LeaseInvariants`, `LeaseLife`,
  `LeaseExclusion`, `LeaseRecovery`, `LeaseSweep`, `LeaseFencing`, `LeaseNames`,
  `LeasePublication` and `RetryBudget` hold the theorems. History counters (`resets`,
  `exhausted`, `charged`, `pushed`) exist for the statements only.
- **The same rows updated in place** (`RunTable`, `RunExecution`, `WorkerLoop`).
  Classes with the workers' and reapers' statements, `execute_run` as one process
  performs it, and the dequeue loop with its permits. `TableProtocol` says what it
  means that a statement is a protocol step; every statement of `RunTable.Table`
  promises which one it is, so a table that executes the steps of a run goes through
  that run's rows.
- **Event log** (`EventLog`, `EventId`, `Broker`, `Streaming`, `StreamLoop`,
  `RedisReplay`). The log of a run as a value, the broker classes that realise it,
  a client that connects, disconnects and reconnects as a state machine, the sending
  loop on arbitrary contents, and the Redis list.
- **Wire text** (`UnicodeEscapes`, `SseText`). The formatter and a parser that
  follows sections 9.2.5 and 9.2.6 of the WHATWG HTML Living Standard.
- **Cron** (`Cron`, `CronTable`), **chunker** (`Chunker`), **embedding**
  (`Embedding`), **messages** (`Messages`).

Time is an integer read from one clock. A statement's time stamp may be older than
the moment its transaction commits, so every transaction that carries a stamp takes
it as a parameter bounded by the clock. An edit of a cron reads its row with a lock,
so its stamp is also no older than the row's last write.

## Where the code does less than it seems to promise

Each item is a theorem with a concrete run or an exact condition.

- Heartbeats at most k intervals apart exclude double execution if and only if the lease
  is at least k intervals (`LeaseExclusion.LeaseLengthIsExact`), so a run survives m
  missed beats in a row if and only if the lease is at least m + 1 intervals. The
  validator asks for more than two, and its error text promises two missed beats. An
  accepted lease keeps that promise if and only if it reaches three intervals
  (`LeaseExclusion.AcceptedSurvivesTwoMissedIff`); 2 * heartbeat + 1 does not, for every
  heartbeat interval of at least two (`LeaseExclusion.AcceptedLeaseTooShort`).
- A run is acquired at most BG_JOB_MAX_RETRIES + 1 times if and only if no acquisition
  comes when the resets so far exceed the budget, counting those the stored count does
  not show: overwritten, exhausted and in-flight charges
  (`RetryBudget.AcquiredWithinBudgetIff`). The code looks at the stored count alone and
  only after a reset. Workers that wait for outstanding charges and marks stay within
  the bound (`RetryBudget.AcquiredWithinBudget`), and so do uninterrupted reaper passes
  (`RetryBudget.WholePassesStayWithinBudget`). Otherwise one acquisition before the
  failure mark lands exceeds every budget (`RetryBudget.HastyAcquisitionExceedsBudget`),
  and if reapers die between a pass's reset and its charge there is no bound
  (`RetryBudget.UnchargedResetsAreUnbounded`).
- The retry count is read and written in two statements. It accounts for all resets if
  and only if no stored charge overwrote another (`LeaseInvariants.CountIsCompleteIff`),
  and two overlapping charges store one (`RetryBudget.OverlappingChargesLoseOne`).
- Two steps can leave a row that is running and held by nobody, which no reaper finds
  (`LeaseRecovery.OrphanIsForever`): the unguarded mark of permanent failure when it
  hits a run that was acquired again (`LeaseRecovery.OrphanByMark`), and the release,
  which does not look at the status, after a final write that failed in the handler
  (`LeaseRecovery.OrphanByRelease`). There is no third way with punctual heartbeats
  (`LeaseRecovery.ClaimHeldIff`), and without these steps every crash is recovered in
  bounded time (`LeaseRecovery.RecoveredUnlessStripped`).
- The guards compare worker names. When a name that lost the row acquires it again, its
  old attempt's heartbeat succeeds and reports no loss, for every setting
  (`LeaseNames.SameNameDefeatsFencing`); that is the only way a fence ends
  (`LeaseNames.FencedThroughoutIff`).
- A lost lease silences an attempt if and only if the cancellation finds it in the try
  body, or silenced already. In a handler or later, the finally block still cleans up the
  broker and sets the done key (`LeaseFencing.CancellationSilencesIff`), which the comment
  in the code says a lost lease does not do.
- A BLPOP that times out does not poll the database, so while Redis is up a lost queue
  message waits for the reaper's scan for stuck runs, which does find it
  (`LeaseSweep.LostRunIsPushedAgain`).
- A stream opened on a run that was terminal when the endpoint read it returns
  without entering the live loop when the broker is finished by then. Whatever was
  published during the replay is lost (`Streaming.EarlyReturnIsCompleteIff`), and that
  can be the end event (`Streaming.EndEventCanBeMissed`).
- The replay creates a broker, so the check for a missing broker that follows never
  sees one. A client that reconnects with a Last-Event-ID to a terminal run whose broker
  is gone waits on a blank broker (`Streaming.BlankBrokerHangs`); without that header
  the endpoint answers such a run at once. In general the server can close an open
  stream if and only if the log is finished (`Streaming.ServerClosesIff`). A run that
  succeeds without having published anything has no broker and never closes a log
  (`RunExecution.ClosesLogIff`).
- An API cancel that ends the log while the run still executes fixes what clients are
  told; the row gets the execution's own status, and the two can differ
  (`RunExecution.CancelRace`).
- Event ids of a run whose id ends with an odd number of `_event` blocks all read as
  0 (`EventId.RoundTrip`). UUIDs are not affected.
- With Redis the numbers of a run's events rise by two: allocating an id and storing its
  event both increment the counter (`RedisReplay.RedisRunBroker.PublishAll`).
- The early exit of the unicode pass looks for a lower-case `\u`, although the pair
  pattern ignores case. It is sound if and only if the text has such a mark or no
  escaped pair (`UnicodeEscapes.EarlyExitIsSoundIff`); upper-case pairs alone are left as
  they are (`UnicodeEscapes.UpperPairIsLeft`).
- A cron occurrence can fire twice when a poller creates the run and dies before
  advancing (`Cron.CrashAfterFiringRepeats`), and, without any crash, when a firing
  outlives its claim (`Cron.SlowFiringRepeats`). Firings are in order if every claim is
  taken with no firing on its way and the stored occurrence above all that fired
  (`Cron.ClearClaimsFireInOrder`), and any other claim can break the order
  (`Cron.UnclearClaimRepeats`).

## Model

| member | source | states |
|---|---|---|
| RowColumns.StatusLaw | src/services/run_status.py:50-52 | which steps write the status and what: acquisition and start `running`, final writes theirs, API interrupt `interrupted`, an expiring reset `pending`, failure mark and missing params `error`; every other step keeps it |
| RowColumns.ClaimLaw | src/services/worker_executor.py:361-373 | which steps write the claim and its lease and what: acquisition and an owner's beat the stamp plus the lease length, an owner's release, an expiring reset and a failure mark NULL; every other step keeps both |
| RowColumns.ParamsLaw | src/services/lease_reaper.py:161-190 | only a charge within the budget writes the params, with the count it read plus one |
| RowColumns.ChargeReadsStoredCount | src/services/lease_reaper.py:168-170 | a charge reads the stored count, or zero where there is none |
| LeaseInvariants.StepKeepsRowShape | src/services/worker_executor.py:361-373 | no step of any worker, reaper or API call leaves a pending row claimed, splits the two claim columns, or leaves the row claimed by any name but the latest acquirer's |
| LeaseInvariants.StepKeepsAcquisitions | src/services/lease_reaper.py:119-136 | every acquisition after the first needs a reset of its own and every reset ends a claim of its own, so two reapers never both reset one expiry |
| LeaseInvariants.StepKeepsCharges | src/services/lease_reaper.py:152-194 | every reset's charge is in exactly one place: committed as stored, judged exhausted, being committed, or unread |
| LeaseInvariants.RunKeepsSound | src/services/worker_executor.py:352-373 | row shape, acquisition count, charge accounting and time stamps hold in every state of every run |
| LeaseInvariants.RetryAccounting | src/services/lease_reaper.py:60-76 | over all interleavings, each acquisition after the first, and the pending state, is paid for by a charge of its own: stored, exhausted or still in flight |
| LeaseInvariants.CountIsCompleteIff | src/services/lease_reaper.py:161-190 | the row's retry count never exceeds what was charged, and it accounts for all resets if and only if every stored charge met the count it was computed from; a lost charge is never made up for |
| LeaseInvariants.SerialChargesAreExact | src/services/lease_reaper.py:161-190 | charges that never overlap all meet the count they read |
| LeaseInvariants.SerialRetryAccounting | src/services/lease_reaper.py:152-194 | when no two charges of the run overlap, resets are exactly stored count, exhausted charges and charges in flight |
| LeaseInvariants.StepRefines | src/services/worker_executor.py:249-268 | each protocol step changes the row by at most one enabled action of a machine without queue, memory or reapers |
| LeaseInvariants.QueueIsAHint | src/services/worker_executor.py:249-268 | for any queue contents, losses, duplicates and stale entries, the row's whole history is a run of the queue-less machine ending in the same row |
| LeaseInvariants.PendingStaysAcquirable | src/services/worker_executor.py:249-268 | in every reachable state a pending row can be acquired by any worker whose BLPOP fails and whose poll picks this run, whatever the queue holds |
| LeaseLife.PendingRunCanFinish | src/services/worker_executor.py:249-309 | from every reachable state any worker can pop a pending run and bring it to every final status, by the try body or a handler: row released, and exactly the statuses and publications of an undisturbed execution |
| LeaseLife.LostAttemptUnwinds | src/services/worker_executor.py:438-449 | for every setting an attempt that lost its row is told by its next beat, falls silent and is over with nothing made visible |
| LeaseLife.RowWithoutParamsFails | src/services/worker_executor.py:378-394 | a pending row without params ends as error, free, once it is acquired |
| LeaseLife.BeatsUntilJobEnds | src/services/worker_executor.py:278-301 | the heartbeat runs from the first step of the job to its end, handlers and clean-up included |
| LeaseLife.EnvironmentIsFree | src/api/runs.py:464-483 | in every state the API can interrupt the run, a message can be queued and lost without a trace, and any live process can die |
| LeaseSweep.LostRunIsPushedAgain | src/services/lease_reaper.py:108-115 | a run free at some point, still pending and not acquired since, has been pushed again once the threshold and a reaper interval have gone by, if Redis takes the pushes and passes complete within the interval |
| LeaseSweep.RunKeepsAwaiting | src/services/lease_reaper.py:96-115 | as long as nobody acquires it, a pending run is seen by every stuck scan past the threshold, and pushed by every one that ends |
| LeaseSweep.StuckRunCanBePushed | src/services/lease_reaper.py:108-115 | from every state with a run free for longer than the threshold, one pass pushes it and changes nothing in its row |
| LeaseExclusion.NoResetOfLive | src/services/lease_reaper.py:119-136 | with beats at most k intervals apart and a lease of at least k intervals, no reset hits a row that has a live attempt |
| LeaseExclusion.StepKeepsGuarded | src/services/worker_executor.py:414-452 | a live attempt is the latest one, keeps the row from being pending and holds the lease it last wrote, unless a reset hits it |
| LeaseExclusion.Exclusion | src/services/worker_executor.py:352-373 | in every state of every run with such beats and such a lease at most one attempt is live and no next step can reset its row, for any number of workers and reapers and with API interrupts |
| LeaseExclusion.ShortLeaseBreaksExclusion | src/settings.py:374-383 | for every k and every lease shorter than k intervals there is a run with beats at most k intervals apart and two live attempts |
| LeaseExclusion.LeaseLengthIsExact | src/settings.py:374-383 | for every k, beats at most k intervals apart exclude double execution if and only if the lease is at least k heartbeat intervals |
| LeaseExclusion.MissedBeatsSurvivedIff | src/settings.py:363-370 | any number of beats missed in a row is harmless if and only if the lease is at least that many intervals plus one |
| LeaseExclusion.AcceptedSurvivesTwoMissedIff | src/settings.py:374-383 | every accepted setting survives one missed beat, and two in a row if and only if the lease reaches three intervals |
| LeaseExclusion.AcceptedLeaseTooShort | src/settings.py:378-382 | for every heartbeat interval of at least two, the shortest accepted lease allows two live attempts after two missed beats |
| LeaseExclusion.CrashAndReset | src/services/lease_reaper.py:96-106 | from any idle pending state a worker can acquire, crash and be reset, with the budget untouched |
| LeaseRecovery.ClaimHeldIff | src/services/worker_executor.py:290-303 | a timely run keeps every running or starting run claimed if and only if no failure mark hits a new attempt and no release leaves `running` behind |
| LeaseRecovery.StrippedRunsUnclaimed | src/services/lease_reaper.py:196-211 | from any state, each of those two steps leads to a running row that nobody holds |
| LeaseRecovery.RunKeepsRecovering | src/services/lease_reaper.py:89-117 | after a crash with no attempt left live, until somebody acquires the run, no completed pass began after the dead lease could end, and every open pass that did has seen the row |
| LeaseRecovery.BoundedRecovery | src/services/lease_reaper.py:49-58 | with no hypothesis on heartbeats: a lease and a reaper interval after a crash that leaves no live attempt, the row is acquirable, acquired again or terminal, unless it ran under no claim at the crash already |
| LeaseRecovery.RecoveredUnlessStripped | src/settings.py:363-383 | with punctual heartbeats and no stripping step before the crash, those three outcomes are all |
| LeaseRecovery.OrphanByMark | src/services/lease_reaper.py:196-211 | for every retry budget and every non-negative timing there is a timely run in which the late failure mark makes an orphan |
| LeaseRecovery.OrphanByRelease | src/services/worker_executor.py:402-411 | and one in which a release after a failed final write does, without crash, reset or mark |
| LeaseRecovery.OrphanIsForever | src/services/lease_reaper.py:96-106 | no worker and no reaper ever changes an orphaned row again; only an API interrupt can |
| LeaseFencing.StepKeepsFenced | src/services/worker_executor.py:432-449 | an attempt without its claim cannot change the row by heartbeat, release or missing-params mark, and its heartbeat query reports the loss |
| LeaseFencing.LeaseLossFrame | src/services/worker_executor.py:402-411 | the same after any continuation in which its worker name has not acquired the run again |
| LeaseFencing.LossStaysSeen | src/services/worker_executor.py:438-449 | once a heartbeat has seen the loss, that heartbeat never extends a lease again |
| LeaseFencing.MutedForever | src/services/run_executor.py:73-97 | an attempt silenced by a lease-loss cancellation makes nothing visible in any continuation |
| LeaseFencing.Fencing | src/services/run_executor.py:73-97 | the first heartbeat query after the loss sees it, and if its cancellation finds the attempt in the try body, the attempt writes no status, sends no end event, cleans up no broker and sets no done key afterwards |
| LeaseFencing.CancellationSilencesIff | src/services/run_executor.py:73-97 | a lease-loss cancellation silences an attempt for good if and only if it finds it in the try body or silenced; otherwise broker cleanup and done key still follow |
| LeaseNames.FencedThroughoutIff | src/services/worker_executor.py:430-437 | a fenced attempt stays fenced exactly as long as its worker name does not acquire the run again |
| LeaseNames.ReturningNameRevives | src/services/worker_executor.py:430-437 | in any state: when the name acquires the run while its old attempt still beats, the old attempt's heartbeat succeeds, moves the new attempt's lease and reports no loss |
| LeaseNames.SameNameDefeatsFencing | src/services/worker_executor.py:432-449 | for every setting such a state is reachable after the attempt was fenced |
| LeaseFencing.OnlyRunningWriteRevives | src/services/run_executor.py:52 | of all steps of the system only a `running` write leads out of a terminal status |
| LeaseFencing.RevivedOnlyByEarlierAttempt | src/services/run_executor.py:52 | that write belongs to an attempt that acquired the run before it became terminal and had not yet written `running` |
| LeaseFencing.TerminalAbsorbs | src/services/run_status.py:26-52 | a terminal run without a live attempt stays terminal and is never acquired again in any continuation |
| LeasePublication.RunKeepsDisciplined | src/services/run_executor.py:51-97 | in every reachable state each attempt's visible effects are at most one leading `running`, then terminal statuses, then publications, and none of these before its final write |
| LeasePublication.LostAttemptPublishesNothing | src/services/run_executor.py:73-97 | an attempt whose lease-loss cancellation lands in the try body publishes nothing in its whole life, before or after |
| RetryBudget.ReapIsItsTransactions | src/services/lease_reaper.py:60-76 | the transactions of one uninterrupted pass compose to the stated outcome: untouched, failed with its claim gone, or pending again and charged once |
| RetryBudget.PatientRunKeepsBudget | src/services/lease_reaper.py:152-211 | while no acquisition falls between a reset and the end of its charge, at most one charge is open and exact, the stored count stays within the budget, and a spent budget leaves the row free |
| RetryBudget.AcquiredWithinBudgetIff | src/services/lease_reaper.py:152-194 | over all interleavings, a run is acquired at most BG_JOB_MAX_RETRIES + 1 times if and only if no acquisition comes when stored, overwritten, exhausted and in-flight charges together exceed the budget |
| RetryBudget.AcquiredWithinBudget | src/services/lease_reaper.py:60-87 | for any number of concurrent reapers: if no acquisition falls between a reset and the end of its charge, none overdraws, and the bound holds |
| RetryBudget.WholePassesArePatient | src/services/lease_reaper.py:60-76 | a run of worker steps and whole passes is such a run of transactions |
| RetryBudget.WholePassesStayWithinBudget | src/services/lease_reaper.py:60-87 | so the bound holds with each pass as one step |
| RetryBudget.HastyAcquisitionExceedsBudget | src/services/lease_reaper.py:70-76 | for every budget, one acquisition before the outstanding failure mark lands makes BG_JOB_MAX_RETRIES + 2 |
| RetryBudget.HastyCanBeHarmless | src/services/lease_reaper.py:70-76 | that is not necessary: with a retry to spend, an acquisition before the outstanding charge need not overdraw |
| RetryBudget.UnchargedResetsAreUnbounded | src/services/lease_reaper.py:70-76 | for every n there is a timely run with n acquisitions and a retry count of 0 when passes die before charging |
| RetryBudget.OverlappingChargesLoseOne | src/services/lease_reaper.py:161-190 | two overlapping charges of one run leave a retry count of 1 after two resets |
| TableProtocol.TableFollowsRun | src/services/worker_executor.py:352-452 | a table whose statements are the steps of a protocol run holds, after every statement, the row of that run |
| TableProtocol.TerminalRowStaysTerminal | src/services/run_status.py:26-52 | on such a table the row of a terminal run without a live attempt never leaves its terminal statuses |
| TableProtocol.LiveRowIsNotExpired | src/services/lease_reaper.py:119-136 | and the reset's WHERE clause never matches the row of a live attempt with punctual heartbeats |
| RunTable.Table.AcquireAndLoad | src/services/worker_executor.py:352-399 | loaded exactly when the row was pending, unclaimed and has params, and then running under this worker until now plus the lease; a taken row without params ends as error, free; it is the protocol's acquisition, followed by its missing-params step in the second case; nothing else changes |
| RunTable.Table.Heartbeat | src/services/worker_executor.py:430-437 | held exactly when the row names this worker, and then only the lease moves, status and params stay; in every protocol state with this row it is the beat of any attempt of this worker and reports a loss exactly when the beat does |
| RunTable.Table.ReleaseLease | src/services/worker_executor.py:402-411 | clears claim and lease of a row that names this worker, keeping status and params; in every protocol state with this row it is the release of any attempt of this worker |
| RunTable.Table.WriteStatus | src/services/run_status.py:50-52 | in every protocol state with this row it is the status write of any attempt of any worker, or an API interrupt: no guard but the run id |
| RunTable.Table.PollPostgres | src/services/worker_executor.py:311-322 | None exactly when nothing is acquirable, otherwise an acquirable run none of which is older |
| RunTable.Table.FindRecoverable | src/services/lease_reaper.py:89-117 | exactly the running rows whose lease lies in the past and exactly the unclaimed pending rows created before the threshold, each once; the same runs the protocol's two SELECTs find |
| RunTable.Table.ResetToPending | src/services/lease_reaper.py:119-136 | returns exactly the given rows that are running with a lease in the past, and leaves them pending, free, params kept; for every given run it is the reset step of a pass that found it |
| RunTable.Table.CheckRetryLimits | src/services/lease_reaper.py:152-194 | each run charged once and reported retryable, or reported exhausted and left as it is, as the read and commit steps of the protocol do it; deleted runs are skipped |
| RunTable.Table.MarkPermanentlyFailed | src/services/lease_reaper.py:196-211 | leaves the given rows as error and free, params kept, whatever their state has become, as the unguarded mark of the protocol |
| RunTable.Table.Reenqueue | src/services/lease_reaper.py:138-150 | pushes in order, and only a prefix when Redis fails part way |
| RunTable.Table.RecoverCrashed | src/services/lease_reaper.py:67-76 | every crashed row is failed or pending and charged; the retryable ones are pushed, up to a Redis failure |
| RunTable.Table.Reap | src/services/lease_reaper.py:60-87 | every row is left as the source promises, column by column, which is what the protocol's one-run pass makes of it; only recovered and stuck runs are pushed, and all of them unless Redis fails |
| RunExecution.Executor.ExecuteRun | src/services/run_executor.py:41-97 | for every way out of the try body: the statuses committed, the operations on the run's log, the done key, the discarded bookkeeping, and that no other run's log changes |
| RunExecution.Executor.Signal | src/services/run_executor.py:73-91 | which handler or else branch writes and signals what; a lease-loss cancellation does neither |
| RunExecution.WritesAre | src/services/run_executor.py:51-97 | the statuses committed by every course, spelled out: running, then success or interrupted; the handler adds interrupted or error unless the cancellation is a lease loss or its write fails |
| RunExecution.OutcomeIsReported | src/services/run_executor.py:57-97 | success gives `success` in row and end event, an interrupt and an honoured cancel `interrupted`, an exception `error` after an error event with its kind; before it, all the graph's events |
| RunExecution.LostExecutionLeavesOnlyItsBody | src/services/run_executor.py:73-80 | a lease-loss cancellation leaves the log open with just the graph's events, and the row with the `running` of the try body |
| RunExecution.EndEventNamesTheStatus | src/services/run_executor.py:57-97 | unless silenced or stuck, an execution leaves a terminal status in the row and a closed log whose last event is the end event naming that very status, after all the graph's events |
| RunExecution.ClosesLogIff | src/services/run_executor.py:89-97 | exactly when an execution closes the run's log, and exactly when that log tells clients the run is over |
| RunExecution.ClosedLogIsFrozen | src/services/run_executor.py:89-97 | on a log that was closed before, an execution changes nothing a client can see |
| RunExecution.CancelRace | src/services/broker.py:133-146 | when an API cancel ends the log during the run, clients are told `interrupted` last, the row gets the execution's own status, and the two agree if and only if the execution was cancelled or interrupted itself |
| WorkerLoop.Worker.constructor | src/services/worker_executor.py:155-157 | a worker starts with all its permits free |
| WorkerLoop.Worker.Step | src/services/worker_executor.py:148-194 | on every path (no job, invalid id, exception, job started, job ended) free permits, unfinished jobs and the permit in hand keep their sum; only a cancellation between acquire and hand-over loses the one in hand |
| WorkerLoop.Worker.Run | src/services/worker_executor.py:148-243 | over any schedule the sum stays N_JOBS_PER_WORKER until the loop exits, and never more jobs than that run at once |
| WorkerLoop.StartWorker | src/services/worker_executor.py:149-157 | a non-positive limit starts no loop |
| WorkerLoop.ValidRunIdIff | src/services/worker_executor.py:39-44 | the valid run ids are exactly the printed lower-case UUIDs, also with a final newline |
| EventId.LastPieceOfPrinted | src/utils/sse_utils.py:14-26 | the left-to-right split puts the number last exactly when the run id ends with an even number of `_event` blocks |
| EventId.RoundTrip | src/utils/sse_utils.py:1-26 | for every run id and n, extraction gives n back if the id ends with an even number of blocks, and 0 otherwise |
| EventId.UuidRoundTrip | src/utils/sse_utils.py:1-26 | every run id without an underscore round-trips for every n |
| EventId.BlockBreaksRoundTrip | src/utils/sse_utils.py:14-26 | one block at the end of an otherwise harmless run id makes every number read as 0 |
| EventId.ForeignIdsAreRead | src/utils/sse_utils.py:14-26 | ids of another form are read as their number, with its sign, and as 0 if they are none |
| EventId.UnderscoreIsNotRead | src/utils/sse_utils.py:14-26 | a single underscore between digits is skipped, as int() does |
| EventLog.RunCodecInverts | src/services/broker.py:148-152 | the ids allocated for such a run parse back to their numbers, hence distinct and increasing |
| EventLog.FirstIndexIs | src/services/broker.py:69-76 | replay resumes after the first event with the id, and only a truly unknown id counts as unknown |
| EventLog.OpKeepsWellFormed | src/services/streaming_service.py:52-82 | success, error, cancel and cleanup each keep numbers 1..k and an end event only last, append in order, append nothing once finished, and finish the log |
| EventLog.EndOfLog | src/services/broker.py:36-48 | the same over any sequence of publishers, whichever of them races |
| EventLog.ReplayAfterReceived | src/services/broker.py:63-76 | replay after the m-th event is the log from m on |
| Broker.RunBroker.Put | src/services/broker.py:36-48 | a finished broker refuses; otherwise the event is queued, and stored if resumable, and an end event finishes the broker |
| Broker.RunBroker.Replay | src/services/broker.py:63-76 | index-and-slice returns the events after the first occurrence of the id, all for none or an unknown one |
| Broker.RunBroker.Iterate | src/services/broker.py:50-61 | hands out the queue in order, stops right after an end event or when a finished broker is empty, and never by itself on an unfinished one |
| Broker.BrokerManager.GetOrCreateBroker | src/services/broker.py:100-104 | creates at most this run's broker and changes no run's log |
| Broker.BrokerManager.PublishEvent | src/services/streaming_service.py:41-50 | allocate and put extend this run's log by one numbered event and leave every other run's log alone |
| Broker.BrokerManager.CleanupBroker | src/services/broker.py:109-112 | finishes this run's log, if any, and touches no other |
| Broker.BrokerManager.RemoveBroker | src/services/broker.py:114-119 | forgets broker and counter together, so a later broker starts a new log at 1 |
| Broker.BrokerManager.SignalEndEvent | src/services/run_executor.py:207-220 | publishes one end event unless the broker is missing or finished |
| Broker.BrokerManager.SignalRunCancelled | src/services/streaming_service.py:52-64 | realises the cancel operation of the log model, creating the broker if needed |
| Broker.BrokerManager.SignalRunError | src/services/streaming_service.py:66-82 | error event, end event and finish as one operation of the log model |
| Broker.BrokerManager.RequestCancel | src/services/broker.py:133-146 | does nothing unless the run's job is active here; otherwise tells it to stop and ends the log as a cancel does |
| Streaming.RunKeepsNoGap | src/services/streaming_service.py:84-125 | in every reachable state the client holds a prefix of the log and what it lacks is about to be replayed or still queued |
| Streaming.TakeLaw | src/services/streaming_service.py:155-164 | one round of the live loop: the oldest event is sent if its number is new, and an end event closes the stream at once, sent or not |
| Streaming.ExactlyOnce | src/services/streaming_service.py:84-164 | whatever publishes, disconnects and reconnects happened, the client holds a gap-free, duplicate-free prefix in order, nothing after an end event, and the whole finished log once the live loop closes |
| Streaming.ExactlyOnceForUuids | src/services/streaming_service.py:84-164 | the same for the real event ids of every run whose id has no underscore |
| Streaming.SecondStreamIsTheRest | src/services/streaming_service.py:96-112 | the events held before a reconnect followed by those of the second stream alone are the run's full event list |
| Streaming.EarlyReturnIsCompleteIff | src/services/streaming_service.py:149-150 | a stream that skips the live loop is complete if and only if nothing was published since its replay was fetched |
| Streaming.EndEventCanBeMissed | src/services/streaming_service.py:146-150 | a reconnect between the success commit and the end event can lose the end event |
| Streaming.ServerClosesIff | src/services/streaming_service.py:141-164 | from every reachable open stream, some continuation without publishing ends with the server closing it if and only if the log is finished |
| Streaming.UnfinishedStreamWaits | src/services/streaming_service.py:141-164 | until someone publishes, an unfinished stream delivers nothing beyond what was stored, whatever the client does |
| Streaming.BlankBrokerHangs | src/services/streaming_service.py:132-153 | a client whose events came from a broker that is gone receives nothing more and is never closed by the server, in any continuation without publishing |
| StreamLoop.RecordsRise | src/services/streaming_service.py:155-164 | what passes the sequence filter is strictly increasing and above everything replayed |
| StreamLoop.RecordIsSent | src/services/streaming_service.py:155-164 | no arrival above all earlier numbers is left out, end events included |
| StreamLoop.SendStored | src/services/streaming_service.py:96-112 | forwards every stored event and ends with the highest number among the reconnect id and the stored events |
| StreamLoop.SendLive | src/services/streaming_service.py:155-164 | delivers exactly the arrivals above all earlier numbers, up to the first end event |
| StreamLoop.StreamEvents | src/services/streaming_service.py:84-125 | for any buffer and queue, sorted or not, the live part is strictly increasing, above everything replayed, and misses no arrival that is |
| RedisReplay.RedisRunBroker.Put | src/services/redis_broker.py:84-119 | the list is always the last 10000 stored events; an end event finishes the broker even when Redis is down |
| RedisReplay.RedisRunBroker.PublishAll | src/services/redis_broker.py:322-338 | k payloads published one after the other get the numbers c+1, c+3, ... and leave the counter at c+2k, each event stored once in order |
| RedisReplay.RedisRunBroker.Replay | src/services/redis_broker.py:195-226 | the replay of the window, by the same rule as the in-memory broker, and nothing when Redis cannot be read |
| RedisReplay.FlagLoop | src/services/redis_broker.py:205-226 | the one-pass flag loop equals index-and-slice on every list and id, repeated and unknown ids included |
| RedisReplay.WindowReplayAgreesIff | src/services/redis_broker.py:101-108 | windowed and unbounded replay give the same events if and only if nothing was trimmed, or the id's first occurrence is in the window or is the last event trimmed without recurring |
| UnicodeEscapes.PassAddsNoAscii | src/core/sse.py:40-60 | every ASCII character of the decoded text was in the input, so the pass never adds CR, LF or a quote |
| UnicodeEscapes.CombineInvertsUtf16 | src/core/sse.py:50-54 | the surrogate arithmetic inverts the UTF-16 encoding of section 2.1 of RFC 2781 on every supplementary code point |
| UnicodeEscapes.FirstPass | src/core/sse.py:50-54 | the first pass turns exactly the surrogate pairs of an escaped text into their characters and leaves the other escapes |
| UnicodeEscapes.SecondPass | src/core/sse.py:56-60 | the second pass restores every remaining non-ASCII character and leaves the rest |
| UnicodeEscapes.EscapeRoundTrip | src/core/sse.py:47-60 | every text without an escape mark of its own, other backslashes included, is recovered from its literally escaped form, whichever case the digits have |
| UnicodeEscapes.KeptEscape | src/core/sse.py:56-60 | an escape of an ASCII character or a surrogate is copied by the second pass, whatever follows |
| UnicodeEscapes.LoneEscapeIsKept | src/core/sse.py:40-60 | the decoder leaves such an escape alone |
| UnicodeEscapes.EarlyExitIsSoundIff | src/core/sse.py:47-60 | the decoder equals its two passes if and only if the text has a lower-case escape mark or no escaped surrogate pair |
| UnicodeEscapes.UpperPairIsLeft | src/core/sse.py:40-50 | every supplementary character whose pair is escaped with upper-case marks is left undecoded although the first pass would decode it |
| SseText.JoinedLines | src/core/sse.py:114-148 | joining one-line fields and parsing the stream into lines gives the fields back |
| SseText.MessageIsOneEvent | src/core/sse.py:114-148 | the lines of a message dispatch exactly one event with its name, data and id |
| SseText.HeartbeatIsNothing | src/core/sse.py:19-23 | a heartbeat comment changes nothing a client sees |
| SseText.SseRoundTrip | src/core/sse.py:114-148 | parsing the concatenated output of any list of messages and heartbeats returns exactly the messages' events |
| SseText.ClientReadsMessages | src/core/sse.py:114-148 | the client reads, for every message in order, its name, its id, and as data the JSON itself, the text whose escaped form the JSON is, or nothing for none; heartbeats are invisible |
| Cron.ClaimsAreSpaced | src/services/cron_service.py:448-481 | two claims of a cron without a release in between are at least the claim duration apart, for any number of pollers |
| Cron.TimelyRunKeepsOnce | src/services/cron_scheduler.py:165-230 | while firings end inside their claims, at most one is in flight and everything fired lies below the occurrence it holds |
| Cron.AtMostOncePerOccurrence | src/services/cron_scheduler.py:195-230 | the occurrences of successful firings strictly increase whatever API edits interleave, so by any time there are no more firings than stored occurrences up to then |
| Cron.CrashAfterFiringRepeats | src/services/cron_scheduler.py:195-230 | a poller that dies between creating the run and advancing lets one occurrence fire twice |
| Cron.SlowFiringRepeats | src/services/cron_scheduler.py:165-230 | so does a firing that outlives its claim, with no crash, for every claim duration |
| Cron.ClearClaimsFireInOrder | src/services/cron_service.py:448-481 | if every claim is taken with no firing on its way and the stored occurrence above all fired ones, occurrences fire in strictly rising order, with no hypothesis on timing, crashes or edits |
| Cron.UnclearClaimRepeats | src/services/cron_service.py:448-481 | any other claim, in any state, can be followed by firings that repeat or precede an occurrence |
| Cron.TimelyRunClaimsClear | src/services/cron_scheduler.py:132-158 | runs whose firings end inside their claims take only such claims |
| Cron.ClaimableIff | src/services/cron_service.py:466-481 | a cron can be claimed if and only if it is enabled, its occurrence has come and its claim is absent or lapsed, whatever its end time |
| Cron.DueCronFires | src/services/cron_scheduler.py:132-158 | from every such state a poller can claim the cron and fire its occurrence |
| Cron.FiredCronMovesOn | src/services/cron_service.py:483-504 | after firing, a cron whose end time has not come stays enabled, is free and waits for the next occurrence; otherwise it is disabled |
| Cron.ClaimCanEndWithoutFiring | src/services/cron_scheduler.py:171-190 | a claim can end without a firing: given back, due again at once; disabled when its owner is gone; or abandoned |
| Cron.ColumnLaw | src/services/cron_service.py:343-354 | what every step writes into enabled, next_run_date, claimed_until and end_time, edits included |
| Whitespace.WhiteSpaceIs | src/services/rag_service.py:277 | the white space that is stripped, by code point |
| CronTable.Table.GetDueCrons | src/services/cron_service.py:431-481 | returns only unlocked crons that are enabled, due and unclaimed or lapsed, at most a batch, earliest first, none twice; all of them unless the batch is full, and then none later than one left behind; writes nothing but their claims |
| CronTable.Table.FinishFiring | src/services/cron_scheduler.py:195-230 | the claim is always cleared; a fired cron before its end time keeps enabled and gets the next occurrence, past it keeps its occurrence and is disabled; a failed firing keeps both |
| CronTable.Table.UpdateCron | src/services/cron_service.py:343-372 | an edit stores enabled and end time if given, moves the occurrence exactly when the schedule changes or an overdue cron is re-enabled, and never touches a claim |
| Chunker.CollapseLeavesNoGap | src/services/rag_service.py:277 | normalization leaves no three newlines in a row |
| Chunker.CollapseKeepsText | src/services/rag_service.py:277 | it removes nothing but newlines |
| Chunker.CollapseFixesClean | src/services/rag_service.py:277 | it changes no text that has no such run |
| Chunker.RunsBecomeAtMostTwo | src/services/rag_service.py:277 | every maximal run of newlines, anywhere in the text, becomes a run of at most two, and the rest is collapsed by itself |
| Chunker.NormalizedKeepsNonBlanks | src/services/rag_service.py:277 | the normalized text has all visible characters of the document, in order |
| Chunker.NormalizedKeepsText | src/services/rag_service.py:277 | and, newlines aside, everything between them |
| Chunker.ChunkText | src/services/rag_service.py:276-291 | for every size and overlap, also meaningless ones, the loop terminates with the non-blank stripped windows, in order, of the text with its newline runs collapsed and its blank ends cut; a text without either is chunked as it is |
| Chunker.SliceIsPythons | src/services/rag_service.py:284-285 | a window cuts as a Python slice does, negative ends counting from the back |
| Chunker.CeilDivRoundsUp | src/services/rag_service.py:282-290 | the quotient used in the count is division rounded up |
| Chunker.CountWindows | src/services/rag_service.py:282-290 | the window count is 1 + ceil(max(n - size, 0) / max(size - overlap, 1)) |
| Chunker.WindowStartsAt | src/services/rag_service.py:282-290 | window j starts after j steps and is full unless it is the last |
| Chunker.WindowIsExact | src/services/rag_service.py:282-290 | consecutive windows are one step apart and only the last reaches the end |
| Chunker.WindowsRebuildText | src/services/rag_service.py:282-290 | dropping each later window's min(overlap, size - 1) prefix and concatenating rebuilds the text exactly |
| Chunker.WindowsCover | src/services/rag_service.py:282-290 | every position lies in some window |
| Chunker.EveryNonBlankIsChunked | src/services/rag_service.py:282-290 | every non-blank character lies, at its place, inside one of the chunks |
| Chunker.EveryCharacterIsChunked | src/services/rag_service.py:276-291 | every visible character of the document stands, as the same one in order, in the normalized text, and there inside a chunk |
| Chunker.ChunksAreTrimmed | src/services/rag_service.py:284-286 | no chunk is empty or begins or ends with white space |
| Embedding.SortSorts | src/services/rag_service.py:197-197 | sorting by batch index orders the results and keeps each exactly once |
| Embedding.EmbeddingOrder | src/services/rag_service.py:165-200 | for every batch size of at least one and every completion order, one vector per chunk, vector i the embedding of chunk i |
| Embedding.SlicesFit | src/services/rag_service.py:169-173 | no batch is empty or larger than the limit |
| Embedding.MeaninglessBatchSizes | src/services/rag_service.py:169-173 | a batch size of zero is refused and a negative one embeds nothing |
| Messages.Accumulator.Process | src/services/graph_streaming.py:373-422 | keeps the dictionary equal to the fold of each id's chunks and produces what the history of that id calls for |
| Messages.Accumulator.ProcessAll | src/services/graph_streaming.py:370-422 | the whole stream's output as a function of its inputs |
| Messages.Projection | src/services/graph_streaming.py:370-422 | the output about one id equals processing that id's chunks alone, for any interleaving |
| Messages.AccumulationIsPerId | src/services/graph_streaming.py:400-422 | each id gets exactly one metadata event, first, and its k-th message event carries the fold of its first k + 1 chunks |
| Messages.KthEventCarries | src/services/graph_streaming.py:404-422 | for each way a chunk arrives: the content is the fold so far, converted unless the chunk was a raw one, and the event partial unless the message was complete |
| Messages.MetadataIsAdjacent | src/services/graph_streaming.py:404-422 | a metadata event is immediately followed by a message event of its own id |

## Left out

- PostgreSQL, SQLAlchemy sessions, Redis and asyncio themselves: a guarded UPDATE, a pipeline or a SKIP LOCKED claim is one atomic step; a commit counts from the moment it is sent.
- The BG_JOB_TIMEOUT_SECS branch of the worker: its effect depends on how `wait_for` treats a cancellation swallowed further down.
- Deletion of run rows in the lease protocol (`RunTable` has the missing-row branches), and the thread row and output columns written with a final status.
- Two attempts of one run in one process sharing `active_runs` and `_lease_loss_cancellations`: kept per attempt in the protocol, per process in `RunExecution`.
- Clock skew between processes: one clock, with stamps that may be old when they are used.
- LeaseExclusion.Exclusion: assumes that a live attempt which still owns the row wrote its lease at most k heartbeat intervals ago; the code does not enforce it.
- LeaseFencing.LeaseLossFrame: assumes that the worker name does not acquire the run again, because the guards compare names and not attempts (see `LeaseNames.SameNameDefeatsFencing`).
- LeaseSweep.LostRunIsPushedAgain: assumes that passes complete within the reaper interval and that Redis takes the pushes; a push that is lost again is pushed again by the same theorem.
- RunExecution.Executor.ExecuteRun: one process without interleaving; interleavings are the protocol's subject. The signals are those of the in-memory broker, which cannot raise, so the branch that swallows a raising signal is not modelled.
- Streaming.ExactlyOnce: one live consumer at a time, since consumers of one in-memory broker share its queue, and no removal of the broker while the stream is open.
- Gapless live delivery through Redis, the expiry of its keys, the timestamp ids it falls back to and its pub/sub loop: the code does not guarantee delivery there.
- The event converter, JSON encoding, and the error message of a stream that raises.
- EventId.RoundTrip: int() is modelled on ASCII digits, without the limit on very long numerals.
- UnicodeEscapes.EscapeRoundTrip: the case-insensitive match of the pair pattern is modelled on ASCII.
- croniter and time zones: the next occurrence is any time after the one it is computed from. Creation and deletion of crons.
- Messages.Projection: message addition and the conversion of chunks to messages are parameters; the other stream modes are not modelled.
- Failing embedding requests and responses with a wrong number of vectors.
- Authentication, routing, CRUD services, configuration discovery, migrations, telemetry: plumbing or one-branch facts.
