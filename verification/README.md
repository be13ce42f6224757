# skip-locked: a verified model of the job queue

A Dafny model of the Postgres job queue: the statements that claim, lease, reap, retry,
bury and finish jobs, the fair claim, the worker loop with its drain, and the idempotent
handler. `dafny verify dfyconfig.toml` checks everything.

## How it is built

- `schema.dfy`: rows, and the WHERE and SET clause of every statement, written once.
- `queue.dfy`: the atomic machine. One committed statement is one step that names the rows it
  wrote. A step need not write every matching row, since a concurrent statement can miss rows
  that began to match after its snapshot. now() is the start of the statement's transaction
  and may lie before the moment of commit.
- `lifecycle.dfy`, `leases.dfy`, `retries.dfy`: what every run of that machine keeps. The
  history of a job is read off the run, independently of the row's columns.
- `verdicts.dfy`: which rows each statement finds and every column of every row, in terms of
  that history alone.
- `witnesses.dfy`: concrete runs that show where a guarantee ends.
- `fairness.dfy`, `rounds.dfy`: the two claims as selections from one scan order, and
  repeated fair claims on the table.
- `transactions.dfy`: the fine-grained machine with snapshots, row locks, the second check of
  the WHERE clause, staged writes, commit and abort, and its refinement to the atomic machine.
- `fair_choice.dfy`: the promise of the fair claim on rows, and that it leaves one choice.
- `interleavings.dfy`: what follows for every interleaving; `read_committed.dfy`: what each
  transaction can rely on; `overlap.dfy`: one run, with two claims at once.
- `session.dfy`: the calls as methods that change the tables in place, each proved to perform
  one atomic step that misses no row, with the new tables stated column by column.
- `ledger.dfy`, `handler.dfy`, `exactly_once.dfy`: the dedupe ledger under concurrency and
  crashes, `process` in place, and queue and handler together.
- `worker.dfy`, `worker_task.dfy`: `run_worker` as a state machine, and as the loop it is.
- `deployment.dfy`: a worker and the queue it claims from, moving together.

The rules assumed of the database are those of the PostgreSQL 16 documentation, section
13.2.1 (Read Committed, the second check after a concurrent update, ON CONFLICT), section
13.3.2 (row locks) and "The Locking Clause" of the SELECT page; `transactions.dfy` states
them. Also assumed: the inner select of a claim is evaluated once, LIMIT counts the rows that
were locked and passed the second check, and the outer UPDATE writes exactly the ids chosen.
Three statements filter by id alone; their `caller` field is the worker that made the call,
and no WHERE clause reads it.

## Where the code and its documentation differ

The model follows the code in each case.

- src/claim.rs:66-67 promises that no carrier gets more than the cap, which holds
  (`FairQuota`). It does not say how many rows a claim takes; the parameter is called
  `batch`, but `batch` bounds them only when the caps of the carriers about add up to no more
  (`FairStaysWithinBatchExactlyWhen`), and up to four times as many are taken
  (`FairClaimExceedsBatch`).
- src/lease.rs:17-19: a zero-row heartbeat is the sign of preemption. Zero rows do mean that
  all claims were lost, but a lost claim can go unnoticed: the heartbeat is right about a claim
  exactly when the same worker id does not hold the job again by a later claim
  (`HeartbeatIsRightExactlyWhen`, `SameIdHeartbeatCounts`). Worker ids never reused for a job
  are enough (`HeartbeatTellsTheLoss`), but a worker loop that claims its own reaped job does
  reuse its id.
- src/lease.rs:58-60: truncation and the cast of the lease to a signed integer make a reap
  early exactly for the leases that `ReapIsEarlyExactlyWhen` names. The longest possible lease
  becomes minus one second: such a reap releases the running jobs with attempts left that were
  claimed or beaten up to less than a second after its now() (`LongestLeaseReapsAtOnce`), so
  also one claimed at that instant (`LongestLeaseReapsFreshClaim`). `LeaseCastExactlyWhen` says
  for which leases the cast is exact.
- src/worker.rs:118-119: holding all permits means that no task is in flight only if the
  fan-out fits 32 bits (`DrainSoundExactlyWhen`).
- src/retry.rs:53-54: the backoff delays the next attempt. A requeue whose transaction opened
  before the claim it follows can cancel it (`EarlyRequeueSkipsBackoff`), and only such a one
  (`BackoffServedExactlyWhen`). On a delayed job that was never claimed a requeue hastens
  (`RequeueHastensDelayedJob`); `RequeueHastensExactlyWhen` says when one does.
- src/lib.rs:131: a finished job can become ready again, since mark_done and requeue filter by
  id alone (`DoneCanBeUndone`, `DoneStaysExactlyWhen`).

## Model

| member | source | states |
|---|---|---|
| Transactions.Refinement | src/claim.rs:42-57 | every interleaving of the statements at snapshot, lock, second check, stage and commit amounts to a legal atomic run ending in the same tables |
| Transactions.StepRefines | src/claim.rs:94-114 | a fine step changes nothing committed, or is one atomic step in which every row written matches in the newest committed state |
| Transactions.CommitRefines | src/retry.rs:91-101 | installing rows that were staged earlier equals applying the statement to the state it commits to |
| Interleavings.ClaimsAreDisjoint | src/claim.rs:15-18 | two committed claims of one row, however they overlapped, have a committed reap or requeue of it between them |
| Overlap.TwoClaimsShareTheWork | src/claim.rs:42-57 | a run exists in which two claims of one row each overlap, their snapshots saw the same two rows, and they commit one each |
| ReadCommitted.NowIsStart | src/claim.rs:45-51 | now() of a statement is the clock at the moment its transaction opened, and its statement is the one it was opened for |
| ReadCommitted.SnapshotIsCommitted | src/claim.rs:49-51 | a statement searches the tables as they were committed when it took its snapshot |
| ReadCommitted.VisitedRowsAreLocked | src/claim.rs:15-31 | a scan holds every row it has come to until its end, but for those another transaction held or that were gone |
| ReadCommitted.EndReleases | src/claim.rs:28-32 | a transaction that committed or aborted never comes back and holds no row afterwards |
| ReadCommitted.EnqueuesLandTogether | src/lib.rs:50-75 | when a producer commits, every job it enqueued is in the table with the caller's kind, payload and due time and all column defaults |
| ReadCommitted.CommitsComplete | src/claim.rs:42-57 | a statement commits only after it has visited all rows of its snapshot or locked as many as it asked for, a claim only after writing its choice |
| ReadCommitted.StableRowsAreCommitted | src/lease.rs:22-34 | a row that matched in the snapshot of a heartbeat, reap, requeue, completion or dead letter and throughout its scan is in the atomic step it commits |
| ReadCommitted.WaitsOnlyForHeldRows | src/claim.rs:15-18 | a transaction can always abort, can start its scan exactly when its LIMIT fits 64 bits, waits exactly when it is no claim and its next row is held by another, and can commit at the end |
| ReadCommitted.StartsFreely | src/claim.rs:15-18 | new transactions open and time advances in every state, whatever others hold |
| Interleavings.FifoUpToSkipping | src/claim.rs:49-55 | an eligible snapshot row strictly older than a picked one and not picked was held by another transaction or failed the second check when visited |
| Interleavings.OlderUnclaimedWasPassedOver | src/claim.rs:49-56 | the same for what claim_batch finally claims |
| Interleavings.ShortClaimSawEverything | src/claim.rs:49-55 | a claim that locks fewer rows than its LIMIT left no eligible row of its snapshot out but those passed over for the two reasons |
| Interleavings.ClaimNeverWaits | src/claim.rs:15-17 | the next lock attempt of a claim is always enabled, its scan ends within as many attempts as its snapshot has eligible rows, and then it can rank and commit |
| Interleavings.StableRowsAreWritten | src/lease.rs:22-34 | a heartbeat, reap, requeue, completion or dead letter never misses a row that matched in its snapshot and throughout its scan, however long it waited |
| Interleavings.SoloClaimBatch | src/claim.rs:49-55 | run alone, claim_batch writes exactly the first n rows of its scan order |
| Interleavings.SoloFairClaim | src/claim.rs:96-112 | run alone, fair_claim writes exactly the fair choice from the first 4*batch rows of a scan order: each carrier min(cap, its rows), its oldest ones |
| Interleavings.FairInEveryInterleaving | src/claim.rs:96-112 | whatever others hold or skip, what a fair_claim commits is the fair choice among the at most 4*batch rows it locked, ranked by run_at |
| Interleavings.HeldRowsFrozen | src/claim.rs:96-112 | a locked row is passed over by other claims and changed by nobody, at commit only if it was staged, so ranks above the cap stay as they were |
| Interleavings.HeldWhileOpen | src/claim.rs:96-103 | a locked row stays locked, hidden and unchanged over any stretch of a run while its transaction is open |
| Interleavings.RollbackLeavesNoRow | src/lib.rs:50-76 | no id of a rolled-back producer ever reaches jobs or jobs_dead |
| Interleavings.EveryInterleaving | migrations/0001_jobs.sql:7-17 | row invariants, conservation, the attempts ledger and the lease columns hold in every state of every interleaving |
| Lifecycle.StepKeepsDbOk | src/claim.rs:44-51 | every statement keeps: running exactly with both lock columns, ready only with attempts left although claim never tests it, ids conserved |
| Lifecycle.Conservation | src/retry.rs:91-101 | the ids ever committed are the disjoint union of those in jobs and jobs_dead, and each dead id appears once |
| Lifecycle.Immutable | src/retry.rs:91-101 | kind, payload and max_attempts in both tables are those of the insert |
| Lifecycle.HistoryExplainsRow | src/claim.rs:44-48 | attempts, state, locked_by and locked_at are determined by the claims, releases, completions and heartbeats in the run |
| Lifecycle.HistoryExplainsSchedule | src/retry.rs:61-65 | run_at is that of the insert or of the last requeue, its now() plus the capped backoff for the claims so far; last_error is the last requeue's |
| Verdicts.RowIsItsHistory | migrations/0001_jobs.sql:7-17 | a job is in the table exactly when inserted and not dead-lettered, and then each of its nine columns is a function of the run |
| Verdicts.InsertVerdict | src/lib.rs:64-73 | rows can be inserted exactly when their ids are new and all unnamed columns have their defaults, and are stored as they are |
| Verdicts.ClaimVerdict | src/claim.rs:49-55 | both claims find exactly the live jobs that are ready, due and of an asked kind, however often claimed before, and may take any of them within the LIMIT |
| Verdicts.FinishVerdict | src/lib.rs:133-138 | mark_done finds the job exactly when it is live, whatever its state and holder, and leaves it done |
| Verdicts.BuryVerdict | src/retry.rs:91-95 | dead_letter finds the job exactly when it is live, whatever its state and holder |
| Lifecycle.BuriedAsItWas | src/retry.rs:91-101 | every row of jobs_dead is the live row at the moment of its dead letter, with state, error and time set |
| Lifecycle.ClaimedWhenDue | src/lib.rs:78-80 | no claim takes a job before its due time or of a kind it did not ask for |
| Lifecycle.AttemptsLedger | src/claim.rs:48 | attempts is the number of committed claims, for live and dead jobs; no job is claimed more than 20 times |
| Lifecycle.TotalClaimsBound | src/lease.rs:63-67 | all claims of a run hand out at most 20 rows per committed enqueue |
| Lifecycle.HandoutsAreDistinct | src/claim.rs:48-56 | two claims of one job return different attempt numbers |
| Leases.SingleLease | src/lease.rs:63-67 | between two committed claims of a job a reap or requeue of it committed, whoever calls the id-only statements |
| Leases.DoneStaysExactlyWhen | src/lib.rs:133-138 | a finished job stays finished exactly as long as no requeue and no dead letter of it commits |
| Leases.DoneIsFinalUnderDiscipline | src/lib.rs:131-138 | done is final when only the lease holder finishes, requeues or buries the job |
| Witnesses.DoneCanBeUndone | src/retry.rs:61-65 | claim, reap, claim by another, stale mark_done, requeue: the done job is ready again |
| Leases.ReapVerdict | src/lease.rs:63-67 | in terms of history: a reap releases only held jobs with an expired lease and fewer than 20 claims, and all of them if it misses no row |
| Leases.LeaseSafety | src/lease.rs:10-14 | a job whose last claim or heartbeat is in time at every reap is never reaped |
| Witnesses.ReapIsEarlyExactlyWhen | src/lease.rs:58-70 | some legal run has a reap that releases a job before its lease is over, exactly for the leases of a Duration with more than a microsecond beyond whole seconds and those of 2^63 seconds or more |
| Leases.EarlyReapBound | src/lease.rs:58-70 | in every legal run such a reap, for a lease below 2^63 seconds, comes early by less than a second |
| Leases.LeaseCastExactlyWhen | src/lease.rs:60 | the cast keeps the whole seconds exactly when they fit 63 bits and is negative otherwise; it is the signed 64-bit number equal to them modulo 2^64 |
| Leases.LongestLeaseReapsAtOnce | src/lease.rs:58-67 | with the longest lease a reap that misses no row releases exactly the held jobs with fewer than 20 claims whose last claim or heartbeat is less than a second after its now() |
| Witnesses.LongestLeaseReapsFreshClaim | src/lease.rs:58-67 | a legal run in which that reap can take a job at the instant of its claim |
| Leases.HeartbeatVerdict | src/lease.rs:16-34 | the rows a heartbeat updates are asked jobs whose last event is a claim by this worker, and all of them if it misses no row |
| Leases.PreemptedHeartbeatIsZero | src/lease.rs:16-20 | zero rows when this worker holds none of the asked jobs any more, however it lost them |
| Leases.HeartbeatIsRightExactlyWhen | src/lease.rs:16-34 | a heartbeat that misses no row is right about a claim (updated if and only if not lost) exactly when the worker does not hold the job again by a later claim; zero rows always mean all lost, and all lost gives zero rows exactly when none is held again |
| Leases.HeartbeatTellsTheLoss | src/lease.rs:16-34 | so with worker ids never reused for a job the heartbeat updates exactly the asked jobs not lost since their claim; zero rows exactly when all were lost |
| Witnesses.SameIdHeartbeatCounts | src/lease.rs:22-27 | after a reap and a claim under the same worker id the count is not zero |
| Retries.FailureProtocolEnds | src/retry.rs:44-87 | a transient error of a live job with fewer than 20 claims ends ready for later with the error recorded; a permanent error, or a transient one otherwise, ends dead exactly once, with anything committing in between |
| Retries.PermanentErrorBuries | src/retry.rs:44-48 | a permanent error is never retried: the job is buried as the statements before left it, with the error |
| Retries.RequeueVerdict | src/retry.rs:58-73 | one row exactly for a job in the table with fewer than 20 claims, which is then ready for a later time |
| Retries.StrandedExactlyUntil | src/retry.rs:55-57 | a job running on its last attempt stays so through every claim, heartbeat, reap and requeue, exactly until a mark_done or dead letter of it |
| Retries.WholeLifeBackoff | src/retry.rs:61-65 | the m-th claim of a job only ever retried starts at least TotalBackoff(m) seconds after the first, whatever extra requeues come |
| Retries.TotalBackoffClosedForm | src/retry.rs:53-54 | 2^m - 2 up to the twelfth claim, then an hour more per claim, 32,894 seconds for 20 |
| Witnesses.EarlyRequeueSkipsBackoff | src/retry.rs:63 | a requeue older than the claim it follows lets the next claim start at once |
| Witnesses.RequeueHastensDelayedJob | src/retry.rs:61-65 | a legal run in which a requeue makes a delayed job that was never claimed due an hour earlier but a second |
| Retries.BackoffServedExactlyWhen | src/retry.rs:61-65 | after a requeue of a claimed job no claim can come before the last claim plus the backoff, exactly when the requeue opened no earlier than that claim |
| Retries.RequeueHastensExactlyWhen | src/retry.rs:61-65 | a requeue makes a job due earlier exactly when it was due later than the backoff from now; never a held job whose claim the requeue opened after |
| Fairness.Sandwich | src/claim.rs:96-112 | claim_batch(min(cap, 4*batch)) is within fair_claim(batch, cap), which is within claim_batch(4*batch), with equality for large caps |
| Fairness.FairQuota | src/claim.rs:104-112 | of the rows a fair claim takes each carrier, the missing one included, has exactly min(cap, its rows in the window) |
| Fairness.FairTakesOldest | src/claim.rs:106-112 | with a row of the window a fair claim takes every earlier row of its carrier, and nothing outside the window |
| Fairness.OldestOfCarrierKept | src/claim.rs:106-107 | so nothing a fair claim leaves in its window is older than a row of the same carrier that it takes |
| FairChoice.KeptIsFairChoice | src/claim.rs:104-112 | on rows: row_number() with the cap gives each carrier exactly min(cap, its locked rows), its oldest ones |
| FairChoice.FairChoiceIsUnique | src/claim.rs:104-112 | only one set of rows keeps that promise |
| Fairness.FairSize | src/claim.rs:102-112 | the number of rows is the sum, over the carriers in the window, of min(cap, rows of the carrier); hence at most 4*batch and at most cap per carrier |
| Fairness.FairSizeIsQuotaSum | src/claim.rs:102-112 | the same sum over the carriers in whatever order they are listed |
| Fairness.FairStaysWithinBatchExactlyWhen | src/claim.rs:66-76 | with at most c carriers in the window every fair claim takes at most batch rows, exactly when batch is 0 or c * cap <= batch |
| Fairness.FairStaysWithinBatchForAllExactlyWhen | src/claim.rs:66-76 | with no bound on the carriers, exactly when batch or cap is 0 |
| Fairness.FairClaimExceedsBatch | src/claim.rs:102-112 | a full window of distinct carriers is claimed whole: 4*batch rows for any batch and cap of at least one |
| Fairness.BoundedWaiting | src/claim.rs:69-72 | over any rounds in which nothing new comes ahead of it, a row with k eligible rows ahead that stays eligible until claimed is claimed within floor(k / min(cap, 4*batch)) + 1 rounds |
| Fairness.BacklogBoundedWaiting | src/claim.rs:69-72 | the same for the rounds of fair claims on a backlog, with no assumption on the rounds |
| Fairness.DrainBound | src/claim.rs:94-114 | n rows drain in at most ceil(n / min(cap, 4*batch)) rounds, whatever the carriers |
| Fairness.DrainBoundIsTight | README.md:210-216 | a flood of one carrier drains no faster than that |
| Rounds.NextRound | src/claim.rs:110-112 | a fair claim on the table leaves exactly the rest of its scan order to the next one |
| Rounds.BacklogDrains | src/claim.rs:94-114 | so many fair claims in a row leave no eligible row in the table |
| Rounds.RowIsClaimedInTime | src/claim.rs:94-114 | on the table: the row in place k of the scan order is leased, once, by the first floor(k / min(cap, 4*batch)) + 1 fair claims |
| Session.JobTables.Enqueue | src/lib.rs:59-100 | inserts one fresh row with the caller's kind, payload and due time, or now(), and every default; nothing else changes |
| Session.JobTables.Claim | src/claim.rs:36-64 | leases exactly the first n of the ready, due, unlocked rows of the asked kinds, oldest first and however often claimed before; their four lease columns change, nothing else does, and they are returned |
| Session.JobTables.ClaimFairly | src/claim.rs:80-122 | leases exactly the fair choice from the first 4*batch such rows (each carrier min(cap, its rows), its oldest ones), changes nothing else and returns them; refuses a window beyond 64 bits |
| Session.JobTables.RankWindow | src/claim.rs:104-112 | one pass counting per carrier keeps exactly the ids whose row number is within the cap, the fair choice |
| Session.JobTables.ScanReady | src/claim.rs:50-54 | lists exactly the rows that are ready, due, of an asked kind and not held by others, oldest first |
| Session.JobTables.HeartbeatJobs | src/lease.rs:22-34 | sets locked_at of exactly the asked running rows locked by this worker and counts them; nothing else changes |
| Session.JobTables.ReapExpired | src/lease.rs:58-74 | makes exactly the running rows past the truncated lease with attempts left ready and unlocked and counts them; nothing else changes |
| Session.JobTables.Retry | src/retry.rs:58-73 | if the row has attempts left: ready, unlocked, due after the capped backoff, error recorded, counted; else nothing |
| Session.JobTables.Finish | src/lib.rs:133-139 | the row, if it exists, becomes done and unlocked whatever its state and holder; nothing else changes |
| Session.JobTables.Bury | src/retry.rs:88-109 | moves the row to jobs_dead in one step, with state, error and time set and all else kept, and counts it |
| Session.JobTables.HandleFailure | src/retry.rs:44-49 | a transient error with attempts left ends ready for later, any other dead with the row buried as it was; no other row changes |
| Ledger.ExactlyOnce | examples/demo_idempotency.rs:63-86 | over every run with concurrency and crashes: at most one effect per key, in the ledger exactly when it landed, exactly one after any Ok, at most one caller told Applied |
| Ledger.RepliesAreTruthful | examples/demo_idempotency.rs:77-85 | whoever hears of a commit is told Applied, whoever hears of a rollback Duplicate, about the event it was called for; every effect has its own commit |
| Ledger.EventCanBeAnswered | examples/demo_idempotency.rs:63-86 | from every such state an event can be processed to an answer |
| Ledger.WaitsOnlyForSameKey | examples/demo_idempotency.rs:67-70 | runs start and crash at any time, and one waits exactly while another holds an uncommitted row with its key |
| Ledger.KeyCollision | examples/demo_idempotency.rs:66 | two events share a key exactly when they are equal or one carrier id runs through the other's separator |
| Ledger.KeysInjectiveExactlyWhen | examples/demo_idempotency.rs:66 | keys identify events exactly when no carrier id extends another past the separator |
| Ledger.ColonFreeCarriersAreSafe | examples/demo_idempotency.rs:66 | carrier ids without a colon never collide |
| Handler.EffectTables.Process | examples/demo_idempotency.rs:63-86 | both rows land or neither, for every point of failure, and the result tells which |
| ExactlyOnceEffect.DoneMeansExactlyOneEffect | examples/demo_idempotency.rs:77-85 | with reaped, repeated and crashed runs, a job marked done after process returned Ok has exactly one effect |
| ExactlyOnceEffect.OnlyRuleIsForMarkDone | examples/demo_idempotency.rs:77-85 | both parts are complete runs of their machines, and mark_done before an Ok is the only thing excluded |
| ExactlyOnceEffect.DoneIsReachable | examples/demo_idempotency.rs:63-86 | from every reachable world every live job that names its carrier can be processed and marked done |
| WorkerLoop.Backpressure | src/worker.rs:61-64 | free permits and running handlers make up the fan-out in every state; received and unfinished jobs never exceed it by more than a batch |
| WorkerLoop.DrainSoundness | src/worker.rs:118-121 | after a complete drain every job of every received claim was handed out once and has finished; everything else committed was lost once |
| WorkerLoop.DrainSoundExactlyWhen | src/worker.rs:120-121 | the drain never succeeds over a running handler exactly when the fan-out fits 32 bits or nothing is claimed |
| WorkerLoop.DrainCanEndExactlyWhen | src/worker.rs:118-121 | the drain can succeed exactly when no more handlers run than the part of the fan-out that the cast to 32 bits cuts off |
| WorkerLoop.NoPermitsNoProgress | src/worker.rs:105-106 | with a fan-out of zero a received batch blocks the loop for ever, whatever happens and whether or not the token fires |
| WorkerLoop.OtherExitsLeaveHandlersRunning | src/worker.rs:93-121 | neither the timeout nor the claim error waits for handlers |
| WorkerLoop.LostOnlyByDroppedClaim | src/worker.rs:89-92 | unless the loop ended with a claim error, committed jobs are lost only through the claim the cancel arm dropped |
| WorkerLoop.ClaimCanBeLost | src/worker.rs:89-92 | and such a loss does happen, in a run that ends with a complete drain |
| WorkerLoop.CancelStopsClaims | src/worker.rs:87-91 | once the token has fired no claim is started or received |
| WorkerLoop.CancelBeatsClaimError | src/worker.rs:87-93 | once the token has fired the error of a claim in flight no longer ends the worker |
| WorkerLoop.EmptyAnswerWaits | src/worker.rs:94-103 | after an empty answer the loop makes no claim before a notification or the poll interval |
| WorkerLoop.CanAlwaysShutDown | src/worker.rs:86-122 | with permits no reachable state is a dead end: every run not yet returned can go on to a shutdown in which all handlers finish |
| WorkerLoop.CanAlwaysClaim | src/worker.rs:86-114 | and until the token fires, to a claim in flight |
| WorkerLoop.TokenAndHandlersAreFree | src/worker.rs:106-112 | in every state the token may fire and any running handler finish |
| WorkerLoop.ServerIsFree | src/worker.rs:92-93 | a claim in flight may be answered with any fresh batch, or with an error until the token fires |
| WorkerLoop.IdleMayWake | src/worker.rs:97-103 | the idle loop may be woken until the token fires |
| WorkerLoop.GraceMayEnd | src/worker.rs:118-121 | the drain grace may end at any time, whoever still runs |
| WorkerTask.Task.Dispatch | src/worker.rs:105-113 | hands the rest of the batch out in order, one permit each, whether or not the token fires meanwhile |
| WorkerTask.Task.Drain | src/worker.rs:118-122 | returns drained exactly when it got all permits, and then (with a 32-bit fan-out) every handed job has finished; times out only after the grace |
| WorkerTask.Task.Run | src/worker.rs:86-122 | the loop is a run of the machine with the token firing at any await: every job of every received claim is handed out once and in order, all answers are received if the token does not fire early and none is an error, at most one answer is lost, to the cancellation, an error ends the loop, a complete drain leaves no handler running |
| Deployment.PartsAreRuns | src/worker.rs:86-114 | a worker whose claims are committed claims of the queue, among any other statements: the queue's part is a legal run, the worker's part a run of the loop, and no claim brings a job it had before |
| Deployment.PartsAreComplete | src/worker.rs:86-114 | neither part drops a step, and other sessions may commit whatever the queue allows |
| Deployment.EveryClaimCanBeAnswered | src/claim.rs:42-57 | whatever the queue lets a claim of the loop take can be the answer to the claim in flight |
| Deployment.ClaimIsFresh | src/claim.rs:42-57 | a claim returns at most batch jobs, each with an attempt number this worker never got for it |
| Deployment.DrainSoundnessInDeployment | src/worker.rs:118-121 | after a complete drain each job that any claim of this worker returned was handed out and finished once or lost once, and no other job was |
| Deployment.AnswersAreHandouts | src/claim.rs:42-57 | the answers to claims at increasing places of a legal run, with errors anywhere among them, are disjoint batches of at most batch jobs, as Run needs them |

## Left out

- Connection pools, PgBouncer, sockets and the SQL driver: configuration of libraries.
- LISTEN/NOTIFY delivery: a wake-up may happen at any time and nothing depends on it.
- A failing LISTEN connection before the loop starts: it only returns an error.
- The planner, the partial index, fillfactor, HOT updates and autovacuum: database internals.
- JSON: the payload is opaque but for the carrier id and the event id.
- Tokio scheduling: handlers and the token may act at any step. A panic of the semaphore
  constructor above its library limit is not modelled.
- Negative limits, batches and caps, which the database rejects or which select nothing.
- Timestamps out of the database's range, including intervals of more microseconds than 63
  bits: a lease of that size is only followed through the cast to seconds.
- WorkerTask.Task.Run: requires that with a fan-out of zero no answer has jobs, because the
  call then never returns (`NoPermitsNoProgress`).
- Session.JobTables.Claim: what others hold stays fixed during the call and the rows it sees are
  the newest; stale snapshots and the second check are in the fine-grained machine only.
- Rows edited by hand outside the protocol, which the tests do to age a lease.
- Benchmarks, the webhook normalizer, the partitioning example and signal wiring: they would
  add only easy members. Error messages are kept only as the text stored in last_error.
