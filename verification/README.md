# Chronoverse: a verified model of its replay-safety core

Chronoverse runs scheduled jobs on a fleet of workers. Commands may be retried, records may be
redelivered, replies may be lost and processes may stop at any point; none of this may run a job
twice, lose it, or report it twice. This project models the parts that carry that promise and
proves what they guarantee over whole runs. `dafny verify dfyconfig.toml` checks all of it.

## What is modelled

**Jobs, leases and runtime slots.** `JobTables` has the tables and the effect of each
transaction; `JobDatabase` adds the command ledger, every other operation on the database and runs
of operations in any order. `JobsRepository` is the repository itself, statement by statement over
mutable tables, and each of its methods commits exactly the step of `JobDatabase`.
`JobInvariants` proves what every operation keeps. `JobTheorems`, `JobReplays` and `JobProgress`
draw the conclusions: exact slot counters, terminal absorption, paired effects, leases that never
revive, exactly-once commands, invisible clean-up, ordering that cannot deadlock. `ClaimAnswers` and
`JobAnswers` say for every command and every other operation what it answers and what it changes,
both ways, over the columns of the tables; `JobRequests` when two commands are the same and what a
repeated one is answered.

**The executor.** `DispatchGrants` says what a caller may conclude from replies. `ExecutorSteps`
is one executor process together with the database and everyone else: calls are applied or not,
replies seen or lost. `ExecutorSafety` is the joint invariant of registry, tasks, slots and
database, `ExecutorTheorems` its consequences, and `ExecutorRetention` a run at their limit.
`HandoffRegistry` and `ExecutorWorker` are the code; `Handoffs` is the registry on values.
`DispatchDelivery` proves that no dispatch is lost: its record is acknowledged only when it is over.
`RetryBudget` says what a failed claim comes to and bounds retries over a fleet.

**The Kafka partition runner.** `PartitionLanes` is the machine of interleaved critical sections,
`PartitionSafety`, `PartitionPauses` and `PartitionFilling` its guarantees, `KafkaRunner` and
`PartitionLifecycle` the code.

**The transactional outbox.** `OutboxTables` is the table, its relays and the Kafka log;
`OutboxOrder` the guarantees; `OutboxProgress` which rows a claim takes, and that a lane without a
dead event can always be drained; `OutboxRelay` the code.

**Supporting cores.** `CommandLedger` and `CommandKeys` (the durable ledger), `LogCounters`,
`LogKeys`, `LogCounterTheorems` and `LogCounterOrder` (replay-safe counters), `Keyset`, `Cursors` and
`JobPages` (pagination), `JsonValues`, `CanonicalJson` and `JsonDecoder` (canonical JSON), `Utf8`
(truncated error messages), `Ordering` (string order and sorting), `Prelude` (shared value types).

## What turned out to be conditional

Six properties hold only under a condition. Each has the exact condition, over all runs where the
property is about runs, and a concrete input or run in which it fails.

* Throughout a run every started command is registered or has lost its lease, and no verdict to give
  up stands against an active lease, exactly when reconciliation never asks about a grant that is as
  old as the retention of claims (and whose command conflicts with nothing stored):
  `ExecutorTheorems.HandoffsCoverExactly`, `GivesUpActiveLeaseExactly`. Asking too late gives the
  verdict; the entry leaves with the eviction that follows it. A run that comes to both is
  `ExecutorRetention.AnActiveLeaseIsGivenUp`. Even then nothing is executed twice
  (`ExecutorTheorems.NeverStartedTwice`).
* The poller puts records in a lane's queue and pauses the partition in two critical sections. If
  the lane drains its queue and makes its last check in between, its partition stays paused until a
  rebalance or a shutdown. No lane is ever stranded like that exactly when no pause comes that late
  (`PartitionPauses.StrandsExactlyWhenLate`, `StrandedForever`, `ALateRunStrands`); with both in one
  step it cannot happen (`NeverWaitsPaused`).
* A batch may wait to fill while its own backlog keeps the partition paused, until its timer ends the
  wait. Over all runs this can happen exactly when batches are of two records or more
  (`PartitionFilling.FillsPausedAtAllExactly`). With each delivery in one step it can happen exactly
  when the batch size is at least half the buffer plus two (`FillsPausedExactly`). Below that size a
  run never leads to such a wait, or to a wait for a first record, exactly when no separate pause
  reaches a live lane that holds less than a batch and has no check before it would wait
  (`WaitsExactlyWhenLate`, `LatePauseWaits`).
* Lanes of the outbox keep their shape exactly when no row is inserted before a row of its lane that
  was touched (`OutboxOrder.LanesKeepTheirShapeExactly`), and first occurrences come in order
  exactly when no row is inserted before an event of its lane that is in the log or being produced
  (`OutboxOrder.LogKeepsOrderExactly`). A run that breaks both is `ALateRowIsOvertaken`.
  Transactions take their creation time when they begin, so the database does not by itself rule
  such rows out.
* Log pagination is complete exactly when every page after the first starts at a log with a stream
  and an event id: other cursors are refused, or encoded as no cursor
  (`JobPages.LogWalkCompletesExactly`, `AWalkEndsEarly`).
* Counters per workflow are exact in every history. They are the same for all histories of the same
  logs, whatever the order, batches and repeats, exactly when no other workflow has a log with a key of
  the workflow's logs (`LogCounterOrder.TotalFixedExactly`). How a workflow's count is split over
  users is the same for all of them exactly when moreover all its logs are one user's
  (`RowsFixedExactly`); `RowsDependOnBatches` gives two histories whose rows differ.

## How to read a specification

Identifiers are numbers whose order is the column's order; a drawn token or job identifier is the
next number, so it is new. Request hashes are injective, so a request stands for its hash. Every
operation of a machine is total: disabled, it changes nothing. `After(s, ops)` is the state after a
run, and theorems quantify over all runs. A method of a class states its whole new state as a
function of the old one; the theorems are about that function.

## Model

| member | source | states |
|---|---|---|
| `JobTheorems.SlotsConserved` | internal/repository/runtime/runtime.go:216-228 | In every reachable database each node's running_jobs is the number of RUNNING jobs placed on it, so reconciling a node changes nothing |
| `JobTheorems.SlotClampNeverFires` | internal/repository/jobs/lease.go:1072-1086 | A running job's node exists and counts it: the decrement is exact and GREATEST(0, ...) never clamps |
| `JobTheorems.ClaimRespectsCapacity` | internal/repository/jobs/lease.go:156-221 | A granted container job is placed on a node with room and leaves it at or below the max_concurrency in force; other jobs get no node |
| `JobTheorems.TerminalIsAbsorbing` | internal/repository/jobs/lease.go:454-646 | Over every run no job disappears, its identity columns never change, its counters never fall, and a terminal job never changes again |
| `JobTheorems.RunningIffLeased` | internal/repository/jobs/lease.go:867-957 | In every reachable database a job is RUNNING exactly when it holds a lease token |
| `JobTheorems.EffectsArePaired` | internal/repository/jobs/lease.go:1112-1160 | A job's analytics event was ever inserted iff it is COMPLETED or FAILED, with exactly the matching outcome event; one dispatch event per dispatch attempt; no event is ever inserted twice, whatever was purged |
| `JobTheorems.StaleTokenChangesNothing` | internal/repository/jobs/lease.go:387-646 | A call under a token the job is not running under changes nothing in jobs, nodes, ledger or outbox; it succeeds only as a replay of a live ledger row |
| `JobTheorems.LeaseNeverRevives` | internal/repository/jobs/lease.go:831-843 | Once the replay predicate of a drawn lease is false, no run of claims, renewals, replays, recoveries, releases and dispatches makes it true again |
| `JobTheorems.RecoveryTakesOldestExpired` | internal/repository/jobs/lease.go:991-1048 | Recovery changes only expired leases, gives them its new token, and takes earlier expiries first |
| `JobTheorems.OccurrenceIsOneJob` | internal/pkg/postgres/migrations/000008_idempotency_outbox_create.up.sql:83-89 | A workflow never has two automatic jobs for one key or for one instant |
| `JobTheorems.ReschedulingFindsTheJob` | internal/repository/jobs/jobs.go:125-290 | Scheduling an automatic occurrence again finds its one job and changes nothing, at any later time, even after the job ended or its ledger row expired |
| `JobProgress.OneInFlightPerWorkflow` | internal/repository/jobs/lease.go:233-259 | At most one job of a workflow is QUEUED or RUNNING in every reachable database |
| `JobProgress.ClaimTakesTheFirst` | internal/repository/jobs/lease.go:199-208 | A claim takes a job with no unfinished sibling that is earlier by (scheduled_at, created_at, id), and no running sibling |
| `JobProgress.OnlyTheFirstIsUnblocked` | internal/repository/jobs/lease.go:233-259 | With none running, of a workflow's unfinished jobs exactly the first one is unblocked |
| `JobProgress.OrderingCannotDeadlock` | internal/repository/scheduler/scheduler.go:78-180 | From any reachable database a live workflow with none running can start its least unfinished job within five operations: ordering alone cannot deadlock |
| `JobProgress.UnfinishedWorkIsStarted` | internal/repository/scheduler/scheduler.go:78-180 | Any unfinished job of such a workflow is enough: there is a least one, and it can be started |
| `JobInvariants.StepSound` | internal/repository/jobs/lease.go:41-1160 | Every operation keeps the joint invariant of jobs, nodes, outbox and ledger, and moves every existing job row by a legal move |
| `JobReplays.ExactlyOnce` | internal/pkg/commandidempotency/ledger.go:177-252 | From completion until expiry the same key with the same request runs no transaction and is answered from the stored response; another request is refused and changes nothing |
| `JobReplays.NeverStillProcessing` | internal/pkg/commandidempotency/ledger.go:241-252 | No committed row is PROCESSING, so the still-processing answer never occurs at a transaction boundary |
| `JobReplays.ReplayChangesOnlyHeldLeases` | internal/repository/jobs/lease.go:802-829 | A replay changes nothing except, for a recovery, the expiry of leases it still holds |
| `JobReplays.CleanupIsInvisible` | internal/repository/outboxrelay/cleanup.go:15-73 | Deleting expired ledger rows and any outbox rows changes no later reply and no later state of jobs, nodes, workflows or inserted events, over every run |
| `JobRequests.SameRequestExactly` | internal/repository/jobs/lease.go:41-101 | Two requests are the same exactly when everything asked for is, lease lengths in whole seconds, batches normalised and messages truncated; for a run neither instant nor key count, nor a manual run's generation |
| `JobRequests.SameKeyExactly` | internal/pkg/commandidempotency/ledger.go:83-97 | Two commands have one key exactly when they are one operation in one scope under one identifier; a run without a key goes by its workflow and instant |
| `JobRequests.KeptFor` | internal/repository/jobs/lease.go:103-154 | Answers are kept for a day, those of cancellations and automatic runs as long as events |
| `JobRequests.RepeatedAnswers` | internal/pkg/commandidempotency/ledger.go:177-252 | While a key lives another request is refused, the same one is told to ask again while the first is under way, and otherwise gets the stored answer; nothing changes |
| `JobRequests.KeptForNoTime` | internal/pkg/commandidempotency/ledger.go:368-413 | A command whose answer would be kept for no time is rolled back |
| `JobRequests.RepeatedClaimAnswers` | internal/repository/jobs/lease.go:1244-1286 | A repeated claim gets its stored answer, a stored grant only while its lease is held by the same worker and process for the dispatch and unexpired, with the expiry it has now |
| `JobRequests.RepeatedRecoveryAnswers` | internal/repository/jobs/lease.go:802-866 | A repeated recovery prolongs exactly the leases it gave that are still held, and answers with exactly those stored entries in order |
| `CommandLedger.AnswersFromStore` | internal/pkg/commandidempotency/ledger.go:233-274 | Until it expires, a completed row replays to every request sharing a hash or alias with it and conflicts with every other, and is changed by neither |
| `CommandLedger.ReserveIgnoresExpired` | internal/pkg/commandidempotency/ledger.go:193-232 | Reserve answers the same, and leaves the same live rows, on tables that differ only in expired rows |
| `CommandLedger.CompletesOwnReservation` | internal/pkg/commandidempotency/ledger.go:368-413 | Completing a reservation made in the same transaction succeeds and stores exactly the replayable row |
| `CommandLedger.CompletesExactly` | internal/pkg/commandidempotency/ledger.go:368-413 | Completion succeeds iff the row is PROCESSING for this request and the response is kept for some time, and never twice |
| `CommandLedger.PurgesExactly` | internal/repository/outboxrelay/cleanup.go:45-73 | A purge drops exactly chosen rows that are completed and have expired |
| `CommandLedger.Ledger.RequestHashMatches` | internal/pkg/commandidempotency/ledger.go:254-274 | True exactly when the stored hash or an alias meets the request's hash or an alias |
| `CommandLedger.Ledger.Reserve` | internal/pkg/commandidempotency/ledger.go:177-252 | The table and the answer of the specification: fresh over absent or expired, else conflict, in progress, or replay |
| `CommandLedger.Ledger.Complete` | internal/pkg/commandidempotency/ledger.go:368-413 | Completes only its own PROCESSING row, with a positive retention, and otherwise changes nothing |
| `CommandLedger.Ledger.CleanupCommandIdempotencyKeys` | internal/repository/outboxrelay/cleanup.go:45-73 | Deletes at most a batch of expired unlocked rows, earliest expiry first, never a live one, and all of them when the batch suffices |
| `CommandKeys.NormalizeKey` | internal/pkg/commandidempotency/ledger.go:147-169 | The loops compute the normalised key of the specification |
| `CommandKeys.NormalizesExactly` | internal/pkg/commandidempotency/ledger.go:147-169 | A key is accepted iff what stands between surrounding spaces is valid UTF-8 of 1 to 255 bytes without control characters, and is that; spellings differing in surrounding spaces are one key |
| `CommandKeys.NormalizingAgain` | internal/pkg/commandidempotency/ledger.go:147-169 | Normalising a normalised key changes nothing |
| `CommandKeys.ControlsExactly` | internal/pkg/commandidempotency/ledger.go:157-166 | A rune is refused as a control character iff it is U+0000 to U+001F or U+007F to U+009F |
| `CommandKeys.AcceptsExactly` | internal/pkg/commandidempotency/ledger.go:294-365 | Legacy identities are accepted iff there are some, each names an operation and 64 lower-case hexadecimal digits, and none is named with two hashes |
| `CommandKeys.LegacyIdentities.SyncLegacyIdentities` | internal/pkg/commandidempotency/ledger.go:294-365 | Refuses empty, malformed or contradictory identities without effect; otherwise adds the new operations, keeps every hash stored before, and starts afresh for a fresh reservation |
| `JobsRepository.Repository.ClaimJob` | internal/repository/jobs/lease.go:41-154 | Commits exactly the claim step: grant with a slot taken, deferral of a blocked job, typed refusal, or replay |
| `JobsRepository.Repository.RejectJobClaim` | internal/repository/jobs/lease.go:1289-1350 | Classifies a missed claim: defer, missing runtime, not found, wrong status, or wrong dispatch, in that order |
| `JobsRepository.Repository.ReplayJobClaim` | internal/repository/jobs/lease.go:1244-1286 | Replays a grant only while its lease is active for the same worker, process and dispatch, with the current expiry |
| `JobsRepository.Repository.RenewJobLease` | internal/repository/jobs/lease.go:349-384 | Extends an unexpired lease under its token, or changes nothing |
| `JobsRepository.Repository.AttachJobContainer` | internal/repository/jobs/lease.go:387-437 | Sets the container of a job running under the token on that node, once per command |
| `JobsRepository.Repository.CompleteJob` | internal/repository/jobs/lease.go:454-514 | Closes the job, frees its slot and inserts its two events in one step, or leaves the database as it was |
| `JobsRepository.Repository.FailJob` | internal/repository/jobs/lease.go:517-585 | The same for a failure, storing the truncated message and the reason |
| `JobsRepository.Repository.CancelClaimedJob` | internal/repository/jobs/lease.go:588-646 | Closes the job as canceled with its reason and frees its slot, without outcome events |
| `JobsRepository.Repository.ReleaseJobForRetry` | internal/repository/jobs/lease.go:653-733 | Returns the job to PENDING with its next attempt time and frees its slot, or cancels it when its workflow is terminated |
| `JobsRepository.Repository.RecoverExpiredJobLeases` | internal/repository/jobs/lease.go:736-795 | Gives the first recoverable leases one new token and lists them; a replay renews and lists only what is still held |
| `JobsRepository.Repository.ActiveRecoveryReplayJobs` | internal/repository/jobs/lease.go:1382-1396 | Keeps, in order, exactly the stored entries whose job was renewed |
| `JobsRepository.Repository.DecrementRuntimeSlotForJob` | internal/repository/jobs/lease.go:1072-1086 | Frees the slot of the job's node, never below zero |
| `JobsRepository.Repository.InsertTx` | internal/pkg/outbox/outbox.go:24-48 | Inserts an event unless its identity is present |
| `JobsRepository.Repository.CancelJob` | internal/repository/jobs/jobs.go:428-517 | Cancels any active job with its reason, freeing the slot of a running one, and answers with the state it found |
| `JobsRepository.Repository.ScheduleJob` | internal/repository/jobs/jobs.go:125-290 | Inserts a manual job, or finds or inserts the one job of an automatic occurrence, with the guards of workflow state and generation |
| `JobsRepository.Repository.UpsertRuntimeNode` | internal/repository/runtime/runtime.go:109-152 | Overwrites status, heartbeat and limit, and rebuilds the slot counter |
| `JobsRepository.Repository.Heartbeat` | internal/repository/runtime/runtime.go:53-97 | Refreshes a known node and rebuilds its counter, or registers an unknown one |
| `JobsRepository.Repository.DispatchJob` | internal/repository/scheduler/scheduler.go:78-180 | Queues a due job whose workflow is live and idle, bumping its dispatch attempt and inserting its dispatch event |
| `JobTables.SelectRuntime` | internal/repository/jobs/lease.go:160-198 | Finds a node iff some node has room; it is the least loaded, then freshest, then first by identifier |
| `JobTables.ToRecover` | internal/repository/jobs/lease.go:991-1030 | Takes each recoverable lease at most once, up to the batch, and all of them when the batch suffices |
| `Utf8.TruncateJobError` | internal/repository/jobs/lease.go:1225-1241 | The backward loop yields the forward specification of the cut |
| `Utf8.RuneIsEncoding` | internal/repository/jobs/lease.go:1225-1242 | What counts as a rune is the encoding of a Unicode scalar value |
| `Utf8.EncodingIsRune` | internal/repository/jobs/lease.go:1225-1242 | Every scalar value's encoding counts as a rune, whatever follows |
| `Utf8.TruncateIsLongestPrefix` | internal/repository/jobs/lease.go:1220-1241 | The stored message is the longest valid UTF-8 prefix of the cleaned one within 4096 bytes, at most three bytes short, and the message itself iff that is valid and fits (section 4 of RFC 3629) |
| `Utf8.CleanKeepsValid` | internal/repository/jobs/lease.go:1225-1226 | Cleaning keeps every valid part, so a genuine U+FFFD is never dropped |
| `Utf8.CleanFixesExactlyValid` | internal/repository/jobs/lease.go:1225-1226 | Exactly the valid strings are left alone by cleaning |
| `Utf8.WholeExactly` | internal/repository/jobs/lease.go:1232-1238 | Looking back from the end finds a whole rune exactly when the string does not end inside one |
| `Utf8.TruncateIsIdempotent` | internal/repository/jobs/lease.go:1225-1241 | Truncating twice is truncating once |
| `DispatchGrants.DispatchGrantedOnce` | internal/repository/jobs/lease.go:199-208 | After a dispatch of a job is spent, no claim transaction of any process under any key grants it, in any later run |
| `DispatchGrants.GrantMeans` | internal/repository/jobs/lease.go:41-154 | A granting reply is either a new grant under a new token, or the stored one while its lease is active |
| `DispatchGrants.DenialMeans` | internal/repository/jobs/lease.go:1244-1286 | While a grant is stored, a reply that does not grant means another request or an inactive lease |
| `DispatchGrants.OutcomeMeansOver` | internal/repository/jobs/lease.go:454-733 | A successful outcome call, fresh or replayed, means the job no longer runs under that token |
| `ClaimAnswers.FreshClaimAnswers` | internal/repository/jobs/lease.go:156-259 | The answer to a claim without a live row, each exactly: deferred iff queued and blocked; then NotFound iff absent or another workflow's; then the status iff not queued; then a mismatch iff of another dispatch; then Unavailable iff a container workflow has no ready fresh node below its limit; then a grant |
| `ClaimAnswers.FreshClaimChanges` | internal/repository/jobs/lease.go:1289-1350 | A failed claim changes nothing, a deferral only the job's status, another denial no table; every other answer is stored for a day |
| `ClaimAnswers.GrantStarts` | internal/repository/jobs/lease.go:173-221 | A grant sets exactly the columns of the running job, under a new lease of the duration in whole seconds, counts one slot on its node, and tells the caller exactly that |
| `ClaimAnswers.AnswerSettles` | internal/repository/jobs/lease.go:41-154 | For a dispatch that happened, stored answers included, the answer is Unavailable exactly while the dispatch is still open; every other answer means it is over |
| `JobAnswers.CompletionAnswers` | internal/repository/jobs/lease.go:454-514 | Succeeds exactly under the token of a running job; ends it, frees its slot by one, inserts the analytics and the completion event, in this order |
| `JobAnswers.FailureAnswers` | internal/repository/jobs/lease.go:517-585 | The same for a failure, with its kind, code, truncated message and reason |
| `JobAnswers.CancellationAnswers` | internal/repository/jobs/lease.go:588-646 | The same for a cancellation by the holder, without events |
| `JobAnswers.ReleaseAnswers` | internal/repository/jobs/lease.go:653-733 | Under the token the job waits for the instant asked for, with its attempts and without node or container; if its workflow was terminated it is canceled for that |
| `JobAnswers.AttachmentAnswers` | internal/repository/jobs/lease.go:387-437 | Sets this container exactly under the token and on the lease's node, and nothing else |
| `JobAnswers.RenewalAnswers` | internal/repository/jobs/lease.go:349-384 | Prolongs exactly an unexpired lease under its token, by the duration in whole seconds, at least one |
| `JobAnswers.RecoveryAnswers` | internal/repository/jobs/lease.go:991-1048 | Takes exactly recoverable leases, all unless a whole batch was taken; earliest expiry first; tells of each its container, node, attempts and whether the node is beyond reach; changes nothing but those leases |
| `JobAnswers.ExpiredIsRecovered` | internal/repository/jobs/lease.go:1018-1040 | A lease that is no longer renewed is taken by a recovery with room once it has expired and its node was silent for the lost-after interval, whatever the node's status |
| `JobAnswers.CancelAnswers` | internal/repository/jobs/jobs.go:428-517 | NotFound iff absent, else the status, container, node and attempts found; only an unfinished job changes, and a running one frees its slot |
| `JobAnswers.ManualAnswers` | internal/repository/jobs/jobs.go:125-290 | Inserted, for the instant asked for, iff the workflow is the user's, built and live; else NotFound |
| `JobAnswers.AutomaticAnswers` | internal/repository/jobs/jobs.go:125-290 | In order: the job with the key answers, to its user and generation only; a refused generation; an unknown workflow; the job with the instant, an error for a keyed call; else the job is inserted |
| `JobAnswers.DispatchAnswers` | internal/repository/scheduler/scheduler.go:78-180 | A job is queued exactly when due, of its user's built live workflow, with nothing in flight and nothing unfinished before it; its dispatch is counted and its event inserted |
| `JobAnswers.UpsertAnswers` | internal/repository/runtime/runtime.go:109-195 | Sets status, limit of at least one, heartbeat only when refreshed, and the counter to the jobs running on the node, whatever it was |
| `JobAnswers.HeartbeatAnswers` | internal/repository/runtime/runtime.go:53-98 | Makes a known node ready and fresh and keeps its limit; registers an unknown one |
| `JobAnswers.CleanupAnswers` | internal/repository/outboxrelay/cleanup.go:15-73 | Drops exactly chosen ledger rows that are completed and expired, or chosen outbox rows, and touches nothing else |
| `JobAnswers.CancelStaleAnswers` | internal/repository/workflows/workflows.go:1067-1101 | Cancels exactly the user's waiting jobs of the workflow, the automatic ones only if so asked |
| `ExecutorSafety.WorldStepSound` | internal/repository/executor/executor.go:177-284 | Every step of the process, of its calls with lost replies, and of everyone else keeps the joint invariant of registry, tasks, slots and database |
| `ExecutorTheorems.NeverStartedTwice` | internal/repository/executor/executor.go:208-269 | However often a dispatch is redelivered and whichever replies are lost, the process starts it at most once |
| `ExecutorTheorems.HandoffsOutliveLeases` | internal/repository/executor/recovery.go:152-175 | Unless reconciliation asks that late, a started command whose lease is still active is in the registry, even when the reply that ended it was lost |
| `ExecutorTheorems.GivesUpActiveLeaseExactly` | internal/repository/executor/recovery.go:155-175 | Reconciliation is told to give up a handoff with an active lease exactly when its grant is no younger than the retention of claims and no live row of its command was stored for another request; a denial stored by an earlier lost reply included |
| `ExecutorTheorems.HandoffsCoverExactly` | internal/repository/executor/recovery.go:152-175 | Throughout a run every started command is registered or has lost its lease, and no verdict stands against an active lease, exactly when reconciliation never asks that late |
| `ExecutorTheorems.StoredWhileYoung` | internal/repository/jobs/lease.go:41-154 | A grant is stored and would be replayed exactly while it is younger than the retention of claims |
| `ExecutorRetention.AnActiveLeaseIsGivenUp` | internal/repository/executor/recovery.go:152-175 | For every lease duration of at least two seconds, a run from a reachable database in which a job runs and renews past the retention, its completion is lost, and reconciliation evicts it while its lease is active |
| `ExecutorTheorems.GivesUpExactly` | internal/repository/executor/recovery.go:155-175 | An awaiting entry is given up exactly when its claim is answered with NotFound or a denial; a grant, another error and silence keep it |
| `ExecutorTheorems.EvictsExactly` | internal/repository/executor/handoff_gate.go:137-143 | An eviction removes this very entry, only while given up and awaiting |
| `ExecutorTheorems.ReportsExactly` | internal/repository/executor/executor.go:472-613 | An outcome that is applied and seen to succeed removes exactly the entries of its lease; one lost or refused removes none |
| `ExecutorTheorems.SlotsMoveExactly` | internal/repository/executor/executor.go:421-435 | A slot is taken while there is one and given back when a goroutine ends; a finished execution's entry awaits |
| `ExecutorWorker.Worker.ReconcileHandoff` | internal/repository/executor/recovery.go:155-175 | One turn of reconciliation asks the entry's claim again and removes this entry only on NotFound or a denial |
| `ExecutorTheorems.SlotsAndPermits` | internal/repository/executor/executor.go:421-435 | In every run slots in use are the tasks holding one, within the limit; a release never hits its default branch; the registry never exceeds its limit |
| `ExecutorTheorems.PlaceholdersHaveOwners` | internal/repository/executor/handoff_gate.go:45-66 | Every placeholder has a task that will resolve it |
| `ExecutorTheorems.ConsumeIsExact` | internal/repository/executor/handoff_gate.go:111-123 | At most one entry has a given lease, so consuming it removes exactly that one |
| `Handoffs.OwnersAlone` | internal/repository/executor/handoff_gate.go:45-92 | A placeholder is given exactly to a command without entry while there is room; only its owner can give it up, leaving no trace, or turn it active, once |
| `Handoffs.AwaitsThenLeaves` | internal/repository/executor/handoff_gate.go:103-143 | An active entry awaits once its execution ends; only an awaiting entry of this serial is removed; a lease matches exactly the entries with its job and token |
| `HandoffRegistry.Registry.GetOrReserve` | internal/repository/executor/handoff_gate.go:45-66 | Finds the entry, or reserves a placeholder while there is room, or reports that the registry is full |
| `HandoffRegistry.Registry.ResolveRemoved` | internal/repository/executor/handoff_gate.go:68-78 | Removes the caller's own placeholder, sets its result and closes its done channel; otherwise changes nothing |
| `HandoffRegistry.Registry.Activate` | internal/repository/executor/handoff_gate.go:80-92 | Turns the caller's own placeholder into an active entry with its claim and closes its done channel; otherwise changes nothing |
| `HandoffRegistry.Registry.MarkAwaiting` | internal/repository/executor/handoff_gate.go:103-109 | Turns an active entry into one awaiting reconciliation, and nothing else |
| `HandoffRegistry.Registry.Consume` | internal/repository/executor/handoff_gate.go:111-123 | Removes one entry whose claim is this lease, if there is any |
| `HandoffRegistry.Registry.AwaitingEntries` | internal/repository/executor/handoff_gate.go:125-135 | Exactly the registered entries that await reconciliation |
| `HandoffRegistry.Registry.RemoveAwaiting` | internal/repository/executor/handoff_gate.go:137-143 | Removes this very entry if it is registered and awaiting |
| `HandoffRegistry.Registry.Size` | internal/repository/executor/handoff_gate.go:145-149 | The size, never above the limit |
| `HandoffRegistry.Registry.NoWaiterHangs` | internal/repository/executor/handoff_gate.go:94-101 | The done channel of an entry that is not a registered placeholder was closed exactly once |
| `ExecutorWorker.Worker.ProcessRecord` | internal/repository/executor/executor.go:177-284 | A slot stays taken exactly when the job is handed off; a malformed record is InvalidArgument and no slot is Canceled; otherwise database, registry and answer are those of the specification |
| `ExecutorWorker.Worker.ProcessDispatch` | internal/repository/executor/executor.go:190-284 | The same from the moment a slot is held |
| `ExecutorWorker.NotClaimed` | internal/repository/executor/executor.go:199-226 | Without authorisation the answer is its error, with another owner that owner's result or Canceled, and with a full registry ResourceExhausted; nothing changes |
| `ExecutorWorker.Claimed` | internal/repository/executor/executor.go:228-247 | After a claim: a seen grant is handed off as an active entry and answered OK, a seen denial is OK, a failed or unseen claim its own code; without a grant the registry is as before |
| `DispatchDelivery.NoDispatchIsLost` | internal/repository/executor/executor.go:177-284 | In every run of a process that reads its dispatches from the topic, the answer to such a record is outside the six codes only if its dispatch is over: the job left the queue or was dispatched again |
| `DispatchDelivery.AcknowledgedIsOver` | internal/repository/executor/executor.go:228-247 | From every sound state, and when the claim is made and answered, the record is acknowledged exactly when its dispatch is over |
| `ExecutorWorker.ProcessRecordIsSteps` | internal/repository/executor/executor.go:177-284 | What processRecord does to database, registry, slots and started commands is what four steps of the process machine do |
| `ExecutorWorker.Worker.EndExecution` | internal/repository/executor/executor.go:248-269 | The goroutine's end marks its entry awaiting and releases its one slot |
| `ExecutorWorker.Worker.RecoverExpiredLeaseBatch` | internal/repository/executor/recovery.go:36-78 | Recovers at most a batch, no job twice, leaves none of them recoverable, and leaves nothing recoverable when the batch is not used up and every call was answered; a call may be applied with its reply lost; what it returns is held under the token told and, when every call was answered, is all that was taken |
| `ExecutorWorker.RecoveryClaimLimit` | internal/repository/executor/recovery.go:262-290 | A wave is the concurrency when that is set and less than the batch, else the batch, and at least one lease |
| `RetryBudget.RetriesAreBounded` | internal/repository/executor/executor.go:490-582 | With one limit of at least one, in every run of a fleet a waiting job has fewer attempts than the limit and a running one at most that many, and holders were told the true attempts |
| `RetryBudget.ExecutorIsAllowed` | internal/repository/executor/recovery.go:250-260 | Whatever failed, a release is issued only under the limit, and for an execution failure only when it is a system failure |
| `RetryBudget.Executor.FailClaimedJob` | internal/repository/executor/executor.go:525-582 | Ends in exactly one call: a release when retryable and under the limit, else a failure; the recursion terminates |
| `RetryBudget.Executor.ReleaseClaimForSystemRetry` | internal/repository/executor/executor.go:490-523 | Ends in exactly one call: a release under the limit, else a failure; the recursion terminates |
| `RetryBudget.Executor.ReleaseOrFailRecoveredSystem` | internal/repository/executor/recovery.go:250-260 | The same choice for a recovered lease |
| `RetryBudget.ClassifyExecutionFailure` | internal/repository/executor/executor.go:632-648 | A failure without a reason of its own is the system's and retryable exactly for Canceled, DeadlineExceeded, Internal, ResourceExhausted and Unavailable; no error at all is a user failure |
| `RetryBudget.FailureReleasesExactly` | internal/repository/executor/executor.go:490-543 | A failed execution is released iff it carries no reason, its code is one of those five, and attempts are below the limit; a failure to get that far iff attempts are below the limit |
| `RetryBudget.FailureComesTo` | internal/repository/executor/executor.go:490-582 | While the lease is held: a release leaves the job waiting for the instant passed, or canceled if its workflow was terminated; otherwise the job is failed with kind, code, message and reason; no other job changes |
| `RetryBudget.RetriedIsDue` | internal/repository/scheduler/scheduler.go:78-180 | A released job is passed over until the instant passed and is due from then on |
| `RetryBudget.FleetIsTheDatabase` | internal/repository/executor/executor.go:490-582 | A fleet's run without a release over the limit is a run of the database, and its holders know every reply |
| `RetryBudget.Executor.RetryAt` | internal/repository/executor/executor.go:650-663 | The instant passed: now plus one, two, four and then eight times the configured backoff |
| `RetryBudget.SystemRetryBackoff` | internal/repository/executor/executor.go:650-663 | Doubles with every attempt, between one and eight times the configured backoff |
| `PartitionSafety.HistoryIsKept` | internal/pkg/kafka/partition_runner.go:415-747 | In every run what entered a lane is its committed records, then those in flight, then its queue, in order; commits never run ahead of acceptance |
| `PartitionSafety.CommitsOnlyAsOwner` | internal/pkg/kafka/partition_runner.go:749-860 | A lane's commits change only in its own commit step, as the owner, by its whole batch, after the batch was accepted |
| `PartitionSafety.FinalAnswers` | internal/pkg/kafka/commit_policy.go:10-31 | A record is committed on an answer exactly when it is not Aborted, Canceled, DeadlineExceeded, Internal, ResourceExhausted or Unavailable |
| `PartitionSafety.AcceptsOnlyFinalAnswers` | internal/pkg/kafka/commit_policy.go:10-31 | A lane accepts records only by an answer of its processor: after one of the six codes the batch stays in flight and the partition is paused, after any other answer the whole batch is accepted |
| `PartitionSafety.CommittedWereAnswered` | internal/pkg/kafka/partition_runner.go:566-747 | In every run a lane has accepted exactly the batches answered with OK or a code outside the six, in order, and what it has committed is a beginning of that |
| `PartitionSafety.AssigningResumes` | internal/pkg/kafka/partition_runner.go:808-827 | An assignment adds its partitions, resumes exactly those without a lane, and touches no lane |
| `PartitionSafety.RevokingForgets` | internal/pkg/kafka/partition_runner.go:829-914 | A revocation removes exactly its partitions, cancels and forgets exactly their lanes and resumes them; stopping cancels and forgets every lane |
| `PartitionSafety.RevokingDetaches` | internal/pkg/kafka/partition_runner.go:829-849 | Revoking a partition detaches and cancels its lane |
| `PartitionSafety.DetachedForever` | internal/pkg/kafka/partition_runner.go:851-895 | A lane that was revoked or replaced never commits, pauses or resumes anything again, whatever is assigned later |
| `PartitionSafety.NoLostWakeup` | internal/pkg/kafka/partition_runner.go:415-516 | However enqueues interleave with pops, fills and drains, a lane waiting with records queued has a pending notification |
| `PartitionSafety.WaitsEndExactly` | internal/pkg/kafka/partition_runner.go:428-516 | A waiting lane goes on exactly when notified, using the notification up; a cancelled lane gives up exactly where it waits, retries or commits |
| `PartitionSafety.DrainsExactly` | internal/pkg/kafka/partition_runner.go:471-516 | A drain fills the batch as far as it can, in order; the batch is popped when full or when it need not wait, and waits when nothing was queued |
| `PartitionSafety.CommitsExactly` | internal/pkg/kafka/partition_runner.go:749-806 | Without the partition a lane gives up with its batch in flight; a commit that works takes the whole batch; one that fails leaves it in flight and paused |
| `PartitionSafety.TimesOutExactly` | internal/pkg/kafka/partition_runner.go:471-493 | The batch timer ends a wait for more records and nothing else; shutting down cancels every lane's work |
| `PartitionPauses.PauseRefinesReasons` | internal/pkg/kafka/partition_runner.go:875-895 | From known assignments, the client has an owned lane's partition paused iff a reason holds, and no retry pause is left at a loop head |
| `PartitionPauses.NeverWaitsPaused` | internal/pkg/kafka/partition_runner.go:380-383 | With each delivery in one step, or each pause in time, no lane waits on an empty queue while its backlog pauses it |
| `PartitionPauses.StrandsExactlyWhenLate` | internal/pkg/kafka/partition_runner.go:380-383 | Throughout a run no lane is stranded exactly when no separate backlog pause reaches a live lane after its last check |
| `PartitionPauses.StrandedForever` | internal/pkg/kafka/partition_runner.go:869-873 | A stranded lane stays paused through any steps but a delivery to it, a rebalance of it, or a shutdown |
| `PartitionPauses.ALateRunStrands` | internal/pkg/kafka/partition_runner.go:357-384 | A concrete run in which a lane is stranded between the poller's enqueue and its pause |
| `PartitionFilling.WaitsExactlyWhenLate` | internal/pkg/kafka/partition_runner.go:357-384 | With batches of at most half the buffer and one: from every moment of a run the lanes by themselves, and likewise anything but a separate pause, leave no live lane waiting for a record that its own backlog pause holds back, exactly when no separate pause reached a live lane that could come to wait before its next check |
| `PartitionFilling.LatePauseWaits` | internal/pkg/kafka/partition_runner.go:449-493 | After such a late pause the lane comes to that wait by its own actions; if it held a record, it waits for its batch to fill |
| `PartitionFilling.FillsPausedAtAllExactly` | internal/pkg/kafka/partition_runner.go:449-493 | Over all runs, a batch can wait to fill while its own backlog pauses it exactly when batches are of two records or more |
| `PartitionFilling.FillsPausedExactly` | internal/pkg/kafka/partition_runner.go:449-493 | With each delivery in one step, a batch can wait to fill while its own backlog pauses it exactly when batchSize is at least channelBuffer/2 + 2 |
| `KafkaRunner.PartitionLane.Enqueue` | internal/pkg/kafka/partition_runner.go:415-426 | Appends, notifies, and reports the queue length |
| `KafkaRunner.PartitionLane.TryPop` | internal/pkg/kafka/partition_runner.go:428-447 | Takes the first record, or finds none and waits |
| `KafkaRunner.PartitionLane.Drain` | internal/pkg/kafka/partition_runner.go:495-516 | Takes up to the room left in the batch, in order |
| `KafkaRunner.PartitionRunner.LaneFor` | internal/pkg/kafka/partition_runner.go:386-413 | Refuses an unassigned partition, and otherwise returns its one lane, made on first use |
| `KafkaRunner.PartitionRunner.DispatchPartition` | internal/pkg/kafka/partition_runner.go:357-384 | Delivers and pauses as one step |
| `KafkaRunner.PartitionRunner.SetPaused` | internal/pkg/kafka/partition_runner.go:875-895 | Sets one reason; the client hears only a change of both together, and only from the owner |
| `KafkaRunner.PartitionRunner.ProcessUntilFinal` | internal/pkg/kafka/partition_runner.go:566-629 | Accepts iff some answer is OK or a code outside the six; pauses iff the first answer is one of the six |
| `KafkaRunner.PartitionRunner.CommitLoop` | internal/pkg/kafka/partition_runner.go:749-806 | Commits iff the lane owns its partition and some attempt works; pauses iff the owner's first attempt fails |
| `KafkaRunner.PartitionRunner.ProcessAndCommit` | internal/pkg/kafka/partition_runner.go:566-806 | Commits the batch iff some answer is OK or a code outside the six, some commit works and the lane is the owner; no retry pause is left and the client's pauses are as before |
| `KafkaRunner.PartitionRunner.Assign` | internal/pkg/kafka/partition_runner.go:808-827 | Adds the partitions and resumes those without a lane |
| `KafkaRunner.PartitionRunner.Revoke` | internal/pkg/kafka/partition_runner.go:829-849 | Removes the partitions, cancels and forgets their lanes, and resumes them |
| `KafkaRunner.PartitionRunner.StopAll` | internal/pkg/kafka/partition_runner.go:905-914 | Cancels and forgets every lane |
| `KafkaRunner.UnwoundStepByStep` | internal/pkg/kafka/partition_runner.go:596-806 | The deferred resumes of both loops are three unwinding steps of the machine |
| `PartitionLifecycle.AddPartitions` | internal/pkg/kafka/partition_runner.go:122-136 | The union of both lists, without introducing duplicates |
| `PartitionLifecycle.RemovePartitions` | internal/pkg/kafka/partition_runner.go:138-162 | The difference, without duplicates and without empty topics |
| `OutboxOrder.LanesKeepTheirShapeExactly` | internal/repository/outboxrelay/outboxrelay.go:118-160 | Throughout a run every lane is published rows, then at most one other, then rows never claimed, exactly when the run inserts no row before a touched row of its lane |
| `OutboxOrder.LogKeepsOrderExactly` | internal/repository/outboxrelay/outboxrelay.go:76-178 | Throughout a run, and whatever stale relays do after any part of it, first occurrences in the log are in outbox order, exactly when the run inserts no row before an event of its lane that is in the log or being produced |
| `OutboxOrder.FirstOccurrencesInOrder` | internal/repository/outboxrelay/outboxrelay.go:76-178 | In such a run, before any occurrence of an event in the log is one of every earlier event of its lane |
| `OutboxOrder.NothingPublishedUnproduced` | internal/repository/outboxrelay/outboxrelay.go:180-199 | In every run whatever is published, or was cleaned up, is in the log |
| `OutboxOrder.DeadStopsItsLane` | internal/repository/outboxrelay/outboxrelay.go:201-225 | In every run a dead event stays dead and no event later in its lane is claimed again |
| `OutboxOrder.DeadSilencesItsLane` | internal/repository/outboxrelay/outboxrelay.go:201-225 | In every run an event after a dead one that was never claimed is never claimed and never produced |
| `OutboxOrder.DeadOnlyAfterLastAttempt` | internal/repository/outboxrelay/outboxrelay.go:201-206 | In every run a failed row has attempts left and a dead one has used the last |
| `OutboxOrder.StaleClaimChangesNoRow` | internal/repository/outboxrelay/outboxrelay.go:184-218 | A relay that no longer holds a row changes no row |
| `OutboxOrder.ALateRowIsOvertaken` | internal/repository/outboxrelay/outboxrelay.go:76-160 | A concrete run from the start in which a row that comes late breaks its lane's shape and is overtaken in the log |
| `OutboxOrder.LateRowIsOvertaken` | internal/repository/outboxrelay/outboxrelay.go:76-108 | A row inserted before an event in the log or being produced is, or by one produce can be, overtaken by it |
| `OutboxProgress.ClaimsExactly` | internal/repository/outboxrelay/outboxrelay.go:118-150 | A row is claimed iff it heads its lane's unpublished rows, is unlocked, is PENDING or FAILED with its next attempt due or PROCESSING for as long as the lease, and has fewer than a batch of such rows before it; it is then taken over as its next attempt, and no other row changes |
| `OutboxProgress.HeadIsClaimed` | internal/repository/outboxrelay/outboxrelay.go:118-150 | A lane's head that is not dead is claimed exactly from the end of its backoff or abandoned lease on, by exactly the claims with room |
| `OutboxProgress.FailureIsRetried` | internal/repository/outboxrelay/outboxrelay.go:201-225 | After a failure that was not the last, the row is claimed again exactly from the end of its backoff |
| `OutboxProgress.LaneDrains` | internal/repository/outboxrelay/outboxrelay.go:61-74 | From every reachable state a lane without a dead event can be drained: a run publishes the event, whatever failed or was abandoned before |
| `OutboxProgress.OutcomesExactly` | internal/repository/outboxrelay/outboxrelay.go:180-245 | Under a claim that still holds its row: a failure waits for the backoff, dead iff attempts are used up; a success is published now; both release the row; a claim that lost its row changes none |
| `OutboxProgress.InsertsExactly` | internal/pkg/outbox/outbox.go:24-48 | An event is inserted exactly when its identifier is new and no row has its topic and key, to wait and be claimable at once |
| `OutboxProgress.CleansExactly` | internal/repository/outboxrelay/cleanup.go:15-43 | Clean-up removes exactly chosen rows published longer ago than the retention |
| `OutboxProgress.ProducesExactly` | internal/repository/outboxrelay/outboxrelay.go:90-108 | The log gets the event exactly when the produce was acknowledged or written all the same |
| `OutboxRelay.Relay.InsertTx` | internal/pkg/outbox/outbox.go:24-48 | Inserts a pending row unless its topic and event key are present |
| `OutboxRelay.Relay.ClaimBatch` | internal/repository/outboxrelay/outboxrelay.go:110-178 | Takes over the ready heads of lanes, oldest first, under one new token, counting an attempt each |
| `OutboxRelay.Relay.PublishEvent` | internal/repository/outboxrelay/outboxrelay.go:76-108 | Produces regardless of the claim, and records the outcome only while the claim holds |
| `OutboxRelay.Relay.PublishTopic` | internal/repository/outboxrelay/outboxrelay.go:61-74 | Publishes the claimed batch in order, others running in between, up to the first event found lost |
| `OutboxRelay.Relay.MarkPublished` | internal/repository/outboxrelay/outboxrelay.go:180-199 | Publishes the row if the claim holds, else reports it lost |
| `OutboxRelay.Relay.MarkFailed` | internal/repository/outboxrelay/outboxrelay.go:201-225 | Fails the row, or kills it at the last attempt, if the claim holds, else reports it lost |
| `OutboxRelay.Relay.CleanupPublishedEvents` | internal/repository/outboxrelay/cleanup.go:15-40 | Deletes only rows published before the retention, oldest first, at most a batch, and all of them when the batch suffices |
| `LogCounterTheorems.CountersAreExact` | internal/repository/joblogs/process_logs_analytics.go:58-207 | After any sequence of batches each workflow's count is the number of distinct keys first inserted for it |
| `LogCounterTheorems.BatchIsIdempotent` | internal/repository/joblogs/process_logs_analytics.go:58-113 | Each batch is idempotent in whatever state |
| `LogCounterOrder.TotalsIgnoreOrder` | internal/repository/joblogs/process_logs_analytics.go:58-207 | If no other workflow has a log with a key of this workflow's logs, its total does not depend on the order, grouping or repetition of logs |
| `LogCounterOrder.TotalFixedExactly` | internal/repository/joblogs/process_logs_analytics.go:58-207 | All histories of the same logs leave a workflow the same total exactly when the keys of its logs are no other workflow's |
| `LogCounterOrder.OneUserOneRow` | internal/repository/joblogs/process_logs_analytics.go:115-138 | If a workflow's logs are one user's, that user's row is its only row and holds the distinct keys |
| `LogCounterOrder.RowsFixedExactly` | internal/repository/joblogs/process_logs_analytics.go:115-207 | All histories of the same logs leave a workflow the same rows exactly when its logs are one user's and their keys are no other workflow's |
| `LogCounterOrder.RowsDependOnBatches` | internal/repository/joblogs/process_logs_analytics.go:191-207 | Two concrete histories of two users' logs of one workflow: one row when the logs share a batch, two rows when they do not |
| `LogCounters.Repository.CollectLogAnalyticsEvents` | internal/repository/joblogs/process_logs_analytics.go:140-189 | The first countable log of each key, sorted by key |
| `LogCounters.Repository.InsertProcessedEvents` | internal/repository/joblogs/process_logs_analytics.go:76-113 | Inserts the keys and returns exactly those that were new |
| `LogCounters.Repository.CountLogAnalyticsEvents` | internal/repository/joblogs/process_logs_analytics.go:191-207 | Per workflow, the user of its first event and the number of new events |
| `LogCounters.Repository.UpdatePartitionLogCounts` | internal/repository/joblogs/process_logs_analytics.go:115-138 | Adds each count to its row and touches no other |
| `LogCounters.Repository.ProcessLogsAnalytics` | internal/repository/joblogs/process_logs_analytics.go:36-74 | The whole transaction is the specified step |
| `LogKeys.OneLogCounts` | internal/repository/joblogs/process_logs_analytics.go:140-189 | A log is counted once, for its user and workflow, iff it names both, has a key and the key is new; otherwise nothing changes |
| `LogKeys.DerivedExactly` | internal/pkg/idempotency/idempotency.go:126-133 | Derived keys are equal exactly for the same job, stream and sequence number, when names have no separator |
| `Keyset.ListingIs` | internal/repository/jobs/jobs.go:681-691 | The full query is in order and has exactly the newest version of every row |
| `Keyset.FetchIsSuffix` | internal/repository/jobs/jobs.go:665-691 | A fetch from a listed row's cursor is the listing from that row on, cut to limit + 1 |
| `Keyset.WalkIsComplete` | internal/pkg/paginate/paginate.go:6-20 | Every request adds the next page of the listing and the walk ends exactly when the listing does |
| `Keyset.Trim` | internal/pkg/paginate/paginate.go:6-11 | At most limit rows, with more reported iff some were cut |
| `JobPages.LogWalkCompletesExactly` | internal/repository/jobs/jobs.go:611-791 | Following log cursors delivers exactly the full listing iff every page after the first starts at a log with a stream and an event id |
| `Cursors.FollowCompletesExactly` | internal/repository/jobs/jobs.go:1040-1158 | For any order, encoding and page limit, following encoded cursors delivers exactly the full listing iff every page after the first starts at a key that decodes to itself |
| `Cursors.BadPageEndsWalk` | internal/repository/jobs/jobs.go:1140-1242 | Before a page whose first key does not, the walk ends early or is refused |
| `JobPages.AWalkEndsEarly` | internal/repository/jobs/jobs.go:1140-1242 | A concrete table of two logs on which a walk is refused, or ends as if complete, after the first |
| `JobPages.CursorRoundTrip` | internal/repository/jobs/jobs.go:1140-1242 | A log cursor decodes to itself iff it has a stream and an event id |
| `JobPages.CursorCondition` | internal/repository/jobs/jobs.go:654-678 | The three-way cursor condition is the cursor's place in the order |
| `JobPages.JobWalkCompletesExactly` | internal/repository/jobs/jobs.go:1040-1119 | Following jobs cursors is complete for every page limit exactly when every page after the first starts at a job whose identifier has no delimiter, as no UUID has |
| `JobPages.JobCursorRoundTrip` | internal/repository/jobs/jobs.go:1103-1119 | A jobs cursor text is never empty and is read back as its key iff the identifier has no delimiter, else refused |
| `JobPages.ReadsExactly` | internal/repository/jobs/jobs.go:1286-1299 | A jobs cursor is read as a key iff it is an identifier, one delimiter and a readable time; everything else but the empty text is refused |
| `JobPages.ListsNewestFirst` | internal/repository/jobs/jobs.go:1085-1090 | Jobs are listed newest first, of equally old ones the greater identifier first |
| `JobPages.ListsInSequence` | internal/repository/jobs/jobs.go:681-691 | Logs are listed by sequence number in the direction asked for, with streams and event ids ascending in both |
| `JobPages.CollectJobLogPage` | internal/repository/jobs/jobs.go:754-791 | Keeps limit rows and the key of the first one left out |
| `JobPages.GetJobLogs` | internal/repository/jobs/jobs.go:611-750 | Refuses a cursor without stream or event id, else answers with the page and the next cursor |
| `JsonValues.DecodeInvertsPrint` | internal/pkg/idempotency/json.go:61-111 | A printed value is accepted, as itself, iff nesting is within 100 and no object repeats a name (section 4 of RFC 8259) |
| `JsonValues.DecodeReadsPrint` | internal/pkg/idempotency/json.go:61-111 | Whatever is accepted is the print of the value returned |
| `CanonicalJson.CanonicalAcceptsExactly` | internal/pkg/idempotency/json.go:26-46 | A value gets a canonical form iff it is acceptable and nothing follows it |
| `CanonicalJson.CanonicalIsIdempotent` | internal/pkg/idempotency/json.go:42-46 | The canonical form of a canonical form is itself |
| `CanonicalJson.CanonicalIgnoresOrderExactly` | internal/pkg/idempotency/json.go:42-46 | Two acceptable values have one canonical form iff they differ at most in member order at any level |
| `CanonicalJson.CanonicalObjectExactly` | internal/pkg/idempotency/json.go:50-59 | With an object required, exactly acceptable objects pass |
| `JsonDecoder.Decoder.DecodeUniqueValue` | internal/pkg/idempotency/json.go:61-111 | The consuming decoder computes the specification, position included |
| `JsonDecoder.Canonicalize` | internal/pkg/idempotency/json.go:26-46 | Decodes one value, requires the end of input, and prints it sorted |

## Left out

- SQL, Kafka, gRPC, Redis, Docker, ClickHouse and Meilisearch clients, authorisation, tracing, logging and configuration loading: plumbing without invariants of its own.
- Read-committed interleavings inside a transaction: every transaction is one step. Rows held by concurrent transactions (SKIP LOCKED) appear only in the outbox claim and the ledger clean-up.
- The difference between transaction time and statement time: there is one monotone clock.
- Spelling of UUIDs, request hashes and derived command keys; a process identity and a command identifier are used by one process and one command.
- Deletion of workflows and users with the rows that hang on them.
- Columns that no modelled branch reads: queued_at, last_heartbeat_at, runtime_endpoint, updated_at, payloads. The four lease columns are one optional value because every statement writes them together.
- Building, updating and terminating workflows beyond their effect on jobs (an arbitrary new workflow row, and cancellation of waiting jobs).
- What an execution does between its handoff and its outcome (loading the workflow, scheduling the next run, running the container, uploading logs): its calls occur at arbitrary moments.
- What recovery does with a container (inspect, terminate, replay logs, remove); lease renewal loops are renewals at arbitrary moments.
- Live log publishing, batching timers and processed-event clean-up after retention, past which counts may repeat.
- Search in logs through the search index; its pages have another order.
- The transport's codes for a call without a reply: such a call is reported as Unavailable. The error of a context that ended, which has no status code, stands as Canceled; the runner's loops look at the context again before they commit.
- Offsets and redelivery order of Kafka: which records a poll returns is arbitrary.
- Nil records, nil clients and nil configurations.
- Tokenising JSON text; a decoder is given tokens.
- pop, popBatch and runLane are steps of `PartitionLanes` rather than loops, because what runs between two critical sections is the point; the class has their critical sections. The durations of retry waits are not modelled.
- KafkaRunner.PartitionRunner.ProcessAndCommit: models the loops without other goroutines running in between; `PartitionSafety` covers every interleaving of their steps.
- KafkaRunner.PartitionRunner.ProcessUntilFinal: models the processing loop without other goroutines running in between, like ProcessAndCommit.
- KafkaRunner.PartitionRunner.CommitLoop: models the commit loop without other goroutines running in between, so ownership does not change inside it; `PartitionSafety.CommitsOnlyAsOwner` covers that it may.
- PartitionPauses.PauseRefinesReasons: assumes that the assigned partitions are known before the first record, and that setting a pause is one step with telling the client.
- ExecutorWorker.Worker.ProcessRecord: models one call without interruption, and a wait by its end; `ExecutorSteps` covers the interleavings, and ProcessRecordIsSteps connects the two.
- ExecutorWorker.Worker.RecoverExpiredLeaseBatch: leaves out the work on the recovered leases, and runs without interruption.
- LogCounterOrder.TotalsIgnoreOrder: assumes that the keys of the workflow's logs are no other workflow's, as the keys of the log writers are; TotalFixedExactly shows that the condition is exact.
- RetryBudget.SystemRetryBackoff: counts in exact integers where the original multiplies in floating point.
- CommandKeys.LegacyIdentities.SyncLegacyIdentities: covers the identities of one command key.
- Utf8.WholeExactly: is about strings that are whole runes and the beginning of one, which is all that cutting a cleaned message gives.
- ExecutorTheorems.HandoffsOutliveLeases: assumes that reconciliation does not ask too late; HandoffsCoverExactly shows that the condition is exact.
- OutboxOrder.FirstOccurrencesInOrder: assumes that no row is inserted before an event that is in the log or being produced; LogKeepsOrderExactly shows that the condition is exact.
- Keyset.ListingIs: assumes that versions of a log agree on sequence and stream; of equally new versions the first stored one is returned.
- ExecutorWorker.Worker.ProcessDispatch: models the call without interruption, like ProcessRecord.
- JobsRepository.Repository.DispatchJob: models the dispatch of one selected job as a step; which jobs one pass selects, and locks that it skips, are left to the order of steps.
- KafkaRunner.PartitionRunner.DispatchPartition: models the delivery and its pause without other goroutines in between; the machine also has them as two steps, and StrandsExactlyWhenLate and WaitsExactlyWhenLate are about those.
- KafkaRunner.PartitionRunner.SetPaused: models the flag, the ownership check and the call of the client as one step.
- DispatchDelivery.NoDispatchIsLost: assumes that issuing a token fails only with Internal, as `Auth.IssueToken` does for this caller, and that the process asks only for dispatches that were inserted into the outbox; ExecutorWorker.NotClaimed says what another error would do.
- DispatchDelivery.AcknowledgedIsOver: assumes the same.
- LogKeys.DerivedExactly: is about job and stream names without the separator, as identifiers and the two stream names are.
