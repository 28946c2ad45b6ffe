# Verified model of the work-distribution core

The repository distributes work through PostgreSQL tables: an outbox of events and a queue of background jobs are leased
by any number of workers that may crash, stall, lose their lease or be reclaimed, while operators cancel, retry and
reconcile. This project models that core and the code that stands on it, and proves what holds in every reachable state.

One database transaction is one atomic step, a row lock is the atomicity of that step, `now` is an argument of the step
(clocks need not agree or run forwards), and a run is any sequence of steps of any processes. Time counts microseconds.
A unique constraint is a map key or a checked condition, a hash used as a key is the tuple it hashes.

Components that update rows or fields in place are classes; each method is proved equal to a step of a specification
state machine, and the properties over whole runs are lemmas about that machine. What the machine's steps mean, in
seconds, columns and numbers, is stated separately, without reference to how a step computes it.

| modules | component |
|---|---|
| `OutboxState`, `OutboxSafety`, `OutboxTimeline`, `OutboxRepository`, `OutboxDispatcher` | transactional outbox with fenced leases, what is due when, and its dispatcher |
| `JobState`, `JobSafety`, `JobProgress`, `JobTimeline`, `JobRepository` | job queue with its numbered attempt audit, and what is due when |
| `MediaState`, `MediaSafety`, `MediaContents`, `MediaRepository`, `MediaProcessor`, `JobWorker` | media generation over the job queue, its handlers, its reconcilers, the worker around them |
| `MediaNumbering`, `MediaEndings`, `MediaBoundaries`, `MediaScenarios` | when a handler can finalise, what is open after a job has ended, other limits, and runs that reach them |
| `Experiments`, `ExperimentRunner`, `OverlappingRuns`, `Comparisons`, `ComparisonRunner` | resumable prompt experiments, two runs of one at once, and provider comparisons |
| `RunOutcomes`, `ReportMeaning` | what a run leaves in each row, and what the numbers in a report say about the executor's results |
| `Prompts`, `PromptService` | prompt versions and activation under stale reads |
| `RateLimiter`, `Alerts`, `AlertStore`, `Rates`, `Acceptance`, `ImpactService`, `Backoff` | rate limiter, alert reconciliation, impact rates, retry delays |
| `Selection`, `Permutations`, `Counting`, `Wrappers` | ordered queries with a limit, order-independent sums, pigeonhole arguments, options |

## Where code and documentation differ

The model follows the code. These promises or expectations do not hold as stated; a lemma gives the exact condition, and
another reaches a failing state from the empty tables.

- docs/media-workflow-guide.md:11 says no media attempt remains STARTED after a terminal job state. From the transaction
  that ends the job on, this holds if and only if no handler of the job had an attempt under way then and no idle
  handler of it starts one afterwards (`MediaEndings.PromiseIsKeptIff`). Three ways break it: a reclaim that finds the
  budget used up, which runs no reconciler (`MediaEndings.JobEndLeavesOpenAttemptIff`, `MediaEndings.DeadJobCanKeepAnOpenAttempt`);
  a slow handler, because a start looks at neither the job nor its lease (`MediaEndings.DeadJobCanOpenAnAttempt`); and a
  worker that dies between the transaction that ends the job and the one that reconciles its media
  (`JobWorker.DeathInBetweenLeavesOpenIff`, `MediaEndings.DyingWorkerLeavesItOpen`).
- A finalisation wants the attempt number of the asset to equal the lease number of the job (app/media/service.py:451-460).
  A handler that holds the lease with content, undisturbed, can therefore finalise if and only if the handlers of all
  earlier leases had started an attempt before it did (`MediaNumbering.CanFinalizeIff`, and before the start
  `MediaNumbering.StartDecidesFinalization`). A late start of an earlier handler does not repair it
  (`MediaNumbering.OvertakenHandlerCannotFinalize`), and a waiting job's asset can still be generated, late starts aside,
  if and only if the handler of every lease so far started an attempt (`MediaNumbering.CompletionStaysPossibleIff`).
- An approved storyboard is restarted by a later handler run, an approved image is not
  (`MediaBoundaries.RestartsReviewedAssetIff`, `MediaBoundaries.ApprovedStoryboardIsRestarted`).
- The consistency check after a handler's return fails an asset that was just finalised when a stale handler's attempt is
  still open (`MediaBoundaries.FinalizedAssetPassesCheckIff`, `MediaBoundaries.StalledHandlerSpoilsSuccess`).
- An accepted cancellation of a running job need not end it: a retryable failure or a reclaim returns it to PENDING with
  the flag set, where no worker touches it again (`JobProgress.FailureStrandsCancelledJobIff`,
  `JobProgress.FlaggedPendingJobIsStranded`, `JobProgress.CancelCanStrandAJob`).
- The job lease carries no attempt number, so an old handler of the same worker id can complete a later attempt
  (`JobProgress.CompletionIsOwnIff`, `JobProgress.StaleHandlerOfSameWorkerCanComplete`).
- A stale run of an experiment that fails a case after its successor completed it overwrites the row; the successor finds
  the rows of an undisturbed run if and only if no row's last write is such a failure
  (`OverlappingRuns.OverlapIsHarmlessIff`, `OverlappingRuns.StaleFailureSpoilsReport`).
- A resumed comparison whose provider client cannot be built overwrites that provider's completed rows
  (`Comparisons.CompletedRowSurvivesIff`, `Comparisons.CompletedRowCanBeOverwritten`).
- A prompt transition that read its version before the template lock can send an approved version back to TESTING
  (`Prompts.TransitionIsLegalIff`, `Prompts.StaleTransitionUndoesApproval`), and activating a version a second time
  announces nothing, because the event's key is computed from its payload (`Prompts.ReactivationIsSilent`,
  `Prompts.ReactivationAddsNoEvent`).
- A media review and feedback both read an impact row without a lock and write only changed columns. Either can fail on
  the first-pass constraint (`Acceptance.ReviewIsRefusedIff`, `Acceptance.RejectionCanBeRefused`,
  `Acceptance.FeedbackIsRefusedIff`, `Acceptance.FeedbackCanBeRefused`) or go through without taking effect
  (`Acceptance.RejectionTakesEffectIff`, `Acceptance.RejectionCanBeLost`, `Acceptance.FeedbackTakesEffectIff`,
  `Acceptance.FeedbackCanBeLost`) when the other commits in between.
- Alert reconciliation reopens an acknowledged alert whose condition persists within the hour
  (`Alerts.AcknowledgementSurvivesIff`, `Alerts.AcknowledgementCanBeLost`), and dead-lettered jobs beyond its limit have
  no condition, so their alerts are resolved (`Alerts.EveryDeadJobIsACondition`, `Alerts.AlertWithoutConditionIsResolvedIff`).
- The cap on the retry delay is not applied to an attempt count below one (`Backoff.CapHoldsIff`); no call site has one.

## Model

| member | source | states |
|---|---|---|
| `OutboxSafety.ExactlyOnceEffect` | app/outbox/dispatcher.py:82-144 | over every interleaving of dispatchers, crashes, expiries and reconciliations, a PROCESSED event has exactly one committed consumer transaction and its one job, any other event none |
| `OutboxSafety.OnlyOneTokenIsLive` | app/repositories/outbox_repository.py:204-214 | among all dispatches of one event, two of the same worker id included, at most one can pass the lease condition, whatever their clocks say |
| `OutboxSafety.SupersededTokenStaysDead` | app/repositories/outbox_repository.py:71-78 | once a later lease exists, an earlier token never renews, processes or fails the event again |
| `OutboxSafety.SupersededDispatchIsInvisible` | app/repositories/outbox_repository.py:82-170 | whatever a superseded dispatch still does, in any interleaving, every run ends as if it had stopped |
| `OutboxSafety.SnapshotAgreesWithRow` | app/repositories/outbox_repository.py:105-148 | when `mark_failed` succeeds, the dead-letter decision and delay computed from the leased snapshot are those of the row, and the delay is between one second and the maximum |
| `OutboxSafety.StatusTellsBudget` | app/repositories/outbox_repository.py:71-78 | attempt count equals lease version and never exceeds the budget; FAILED means attempts remain, DEAD_LETTER that all are used, PROCESSING exactly that the row is locked |
| `OutboxSafety.NoMoreLeasesThanAttempts` | app/repositories/outbox_repository.py:54-80 | an event is leased, and so dispatched, at most max_attempts times over any run |
| `OutboxSafety.TerminalRowsAreFrozen` | app/repositories/outbox_repository.py:54-202 | PROCESSED and DEAD_LETTER rows keep every column through any later run |
| `OutboxSafety.OneEventPerKey` | app/outbox/service.py:28-69 | no two events ever share an idempotency key |
| `OutboxSafety.VersionOnlyGrows` | app/repositories/outbox_repository.py:77 | events are never deleted and their fencing version never falls |
| `OutboxSafety.RunKeepsInv` | app/repositories/outbox_repository.py:54-202 | the invariant tying status, counters, locks, issued tokens, effects and jobs is kept by every run |
| `OutboxSafety.StepKeepsRows` | app/repositories/outbox_repository.py:71-201 | every transaction keeps each row's status, counters and lock columns consistent, and keys unique |
| `OutboxSafety.StepKeepsTokens` | app/outbox/dispatcher.py:67-78 | every transaction keeps each token the snapshot of one lease, one token for each version |
| `OutboxSafety.ConsumeKeepsEffects` | app/outbox/consumers.py:56-73 | the consumer's commit keeps effects, jobs and processed events in step |
| `OutboxSafety.OnlyConsumeHasEffects` | app/outbox/dispatcher.py:105-138 | no other transaction processes an event or enqueues a consumer's job |
| `OutboxTimeline.FailureDelaysRetry` | app/repositories/outbox_repository.py:105-148 | after a recorded failure of attempt n nobody can lease the event for base*2^(n-1) seconds, at most the maximum, and anybody can from then on, if and only if attempts remain; the row names the error and is released |
| `OutboxTimeline.NoLeaseDuringTheWait` | app/repositories/outbox_repository.py:58-69 | and no run leases it before, whatever anybody tries |
| `OutboxTimeline.FailedEventWaits` | app/repositories/outbox_repository.py:58-69 | a FAILED row stays exactly as it is until it is due |
| `OutboxTimeline.LeaseLastsItsTime` | app/repositories/outbox_repository.py:71-78 | a lease counts one attempt, its token holds for exactly the lease time, and the reconciliation can take the row from then on and no sooner |
| `OutboxTimeline.RenewalRestartsTheLease` | app/repositories/outbox_repository.py:150-170 | a renewal starts the lease time again and changes nothing else |
| `OutboxTimeline.HeldOrReconcilable` | app/repositories/outbox_repository.py:172-187 | in every reachable state and at any time an event under way is either held by a dispatch or free for the reconciliation, never both |
| `OutboxTimeline.ReconciledIsDueAtOnce` | app/repositories/outbox_repository.py:188-200 | a reconciled event is due at once if attempts remain, dead otherwise, with the fixed error |
| `OutboxTimeline.NewEventIsDueAtOnce` | app/repositories/outbox_repository.py:20-44 | a new event is due from its creation on with its whole budget |
| `OutboxTimeline.ConsumptionEndsTheEvent` | app/repositories/outbox_repository.py:82-103 | a consumed event is dated, released, without error and never due again |
| `OutboxTimeline.ConsumptionLeavesItsJob` | app/outbox/consumers.py:21-73 | and leaves the job its type asks for, and no other |
| `OutboxRepository.OutboxStore.AddEvent` | app/outbox/service.py:28-69 | a new key inserts the event, a taken key returns the event that holds it, and nothing else changes |
| `OutboxRepository.OutboxStore.LeaseBatch` | app/repositories/outbox_repository.py:54-80 | leases the first `limit` eligible unlocked rows in order, each under a new version with a token |
| `OutboxRepository.OutboxStore.LeaseRow` | app/repositories/outbox_repository.py:71-78 | one row's lease is the lease step |
| `OutboxRepository.OutboxStore.LeaseRows` | app/repositories/outbox_repository.py:70-80 | the loop over the selected rows is the sequence of their lease steps |
| `OutboxRepository.OutboxStore.SelectEligible` | app/repositories/outbox_repository.py:58-70 | PENDING or FAILED rows that are due and not locked elsewhere, in order, up to the limit |
| `OutboxRepository.OutboxStore.MarkProcessed` | app/repositories/outbox_repository.py:82-103 | succeeds exactly under the lease condition and then releases and completes the row; else nothing changes and the reason is classified |
| `OutboxRepository.OutboxStore.MarkFailed` | app/repositories/outbox_repository.py:105-148 | succeeds exactly under the lease condition, with the caller's counters deciding between FAILED after base*2^(n-1) seconds, at most the maximum, and DEAD_LETTER |
| `OutboxRepository.OutboxStore.RenewLease` | app/repositories/outbox_repository.py:150-170 | extends the lease exactly under the lease condition |
| `OutboxRepository.OutboxStore.ClassifyLeaseFailure` | app/repositories/outbox_repository.py:216-225 | not found, not processing, or lost, each exactly when |
| `OutboxRepository.OutboxStore.SelectStale` | app/repositories/outbox_repository.py:177-187 | PROCESSING rows whose lease has expired, in order, up to the limit |
| `OutboxRepository.OutboxStore.ReconcileRow` | app/repositories/outbox_repository.py:188-200 | one expired row goes back to FAILED or to DEAD_LETTER by its own counters |
| `OutboxRepository.OutboxStore.ReconcileRows` | app/repositories/outbox_repository.py:187-201 | the loop is the sequence of reconciliation steps |
| `OutboxRepository.OutboxStore.ReconcileStale` | app/repositories/outbox_repository.py:172-202 | reconciles the first `limit` expired rows and no other |
| `OutboxRepository.QueriesAreOrdered` | app/repositories/outbox_repository.py:66 | the lease and reconcile queries order rows strictly |
| `OutboxRepository.LeaseQueryByColumns` | app/repositories/outbox_repository.py:66 | an eligible event due earlier, or as early and created earlier, is leased before |
| `OutboxRepository.StaleQueryByColumns` | app/repositories/outbox_repository.py:183 | a row locked longer ago, or as long and with a smaller id, is reconciled before |
| `OutboxDispatcher.Dispatcher.LeaseOne` | app/outbox/dispatcher.py:56-80 | takes the next eligible row if there is one and returns the snapshot of exactly that lease |
| `OutboxDispatcher.Dispatcher.RenewOnce` | app/outbox/dispatcher.py:161-183 | true exactly when the renewal committed under a held lease and said so; any database error counts as lost, also when the renewal landed |
| `OutboxDispatcher.Dispatcher.HeartbeatLoop` | app/outbox/dispatcher.py:146-159 | renews until the first renewal that does not succeed, and commits no effect |
| `OutboxDispatcher.Dispatcher.RecordFailure` | app/outbox/dispatcher.py:185-216 | records the failure in its own session if the lease still holds then, and commits no effect |
| `OutboxDispatcher.Dispatcher.CommitConsumed` | app/outbox/dispatcher.py:112-121 | job and fenced update commit together or not at all, exactly when the lease holds and the commit arrives |
| `OutboxDispatcher.Dispatcher.MarkAndCommit` | app/outbox/dispatcher.py:112-138 | state, outcome and commit for each fault and each reply to the commit |
| `OutboxDispatcher.Dispatcher.DispatchEvent` | app/outbox/dispatcher.py:82-144 | state, outcome and commit on every path; at most one commit of its own, none unless the consumer returned and the lease held, and nothing but its own event touched |
| `OutboxDispatcher.DispatchEndsIff` | app/outbox/dispatcher.py:82-144 | which of heartbeats, consumer, renewal, fenced update and commit reply lead to which outcome, state and recorded error |
| `OutboxDispatcher.BeatsGetThroughIff` | app/outbox/dispatcher.py:146-159 | the heartbeats get through exactly if each renewed a held lease |
| `OutboxDispatcher.Dispatcher.ReconcileStale` | app/outbox/dispatcher.py:237-243 | reconciles the first expired rows up to the clamped limit |
| `OutboxDispatcher.Dispatcher.DispatchLeased` | app/outbox/dispatcher.py:52-53 | one turn of the loop dispatches the event it leased |
| `OutboxDispatcher.Dispatcher.DispatchOnce` | app/outbox/dispatcher.py:45-54 | after reconciling, leases and dispatches the next eligible event of each moment until the clamped limit or until none is left; the whole pass is a run of the step machine |
| `JobSafety.AttemptAudit` | app/repositories/job_repository.py:102-147 | attempts of a job are numbered exactly 1 to its attempt count; one is RUNNING exactly while the job runs, and it is the last and owned by the lock's holder; one SUCCEEDED exactly when the job has |
| `JobSafety.AuditIsNeverMissing` | app/repositories/job_repository.py:405-407 | the missing-audit error and a clash of attempt numbers are unreachable |
| `JobSafety.BudgetWithoutACheck` | app/repositories/job_repository.py:112-134 | PENDING has attempts left and RUNNING is within budget although the lease compares nothing; FAILED is never reached |
| `JobSafety.DelaysAreCapped` | app/repositories/job_repository.py:196-204 | every delay ever written is between one second and the maximum |
| `JobSafety.ReclaimKeepsWorkerIff` | app/repositories/job_repository.py:285-292 | a reclaim keeps the attempt's worker id exactly when that is not empty; the fallback name is written in no other case |
| `JobSafety.AttemptKeepsItsWorker` | app/repositories/job_repository.py:386-415 | an attempt is never removed and its worker id, if not empty, never changes |
| `JobSafety.ClosedAttemptIsFrozen` | app/repositories/job_repository.py:398-407 | a closed attempt keeps every column through any later run |
| `JobSafety.OnlyTheHolderFinishes` | app/repositories/job_repository.py:366-384 | completing, failing and cancelling need the live lease, so the attempt closed is the caller's |
| `JobSafety.RunKeepsInv` | app/repositories/job_repository.py:102-309 | audit, budget, lock columns and key uniqueness are kept by every run of all nine transactions |
| `JobSafety.StepIsLocal` | app/repositories/job_repository.py:358-364 | a transaction touches only the job it names and its attempts |
| `JobSafety.FinishKeepsAudit` | app/repositories/job_repository.py:161-210 | completing, failing, cancelling and reclaiming close the open attempt together with the job |
| `JobProgress.RunsAreBounded` | app/repositories/job_repository.py:173-309 | without operator retries 2*(max_attempts - attempt_count) + (1 if RUNNING) bounds the status changes still to come, hence every run |
| `JobProgress.ChangeDecreasesMeasure` | app/repositories/job_repository.py:112-309 | that measure falls strictly at every status change and is otherwise unchanged |
| `JobProgress.TerminalJobIsFrozen` | app/repositories/job_repository.py:212-263 | SUCCEEDED rows never change again; DEAD_LETTER and CANCELLED rows only by an operator's retry |
| `JobProgress.CancelStopsNewAttempts` | app/repositories/job_repository.py:112-116 | after an accepted cancel no new attempt starts until an operator retries |
| `JobProgress.FailureStrandsCancelledJobIff` | app/repositories/job_repository.py:196-207 | a failed or reclaimed attempt leaves a flagged job PENDING exactly when it may be retried |
| `JobProgress.FlaggedPendingJobIsStranded` | app/repositories/job_repository.py:112-116 | a flagged PENDING job is changed by nobody but an operator |
| `JobProgress.CancelCanStrandAJob` | app/repositories/job_repository.py:196-204 | such a job is reachable |
| `JobProgress.LostLeaseStaysLost` | app/repositories/job_repository.py:374-384 | a worker without the lease does not get it back except by a lease of its own |
| `JobProgress.CompletionIsOwnIff` | app/repositories/job_repository.py:374-384 | a handler allowed to complete its job closes its own attempt exactly when no later lease was taken |
| `JobProgress.StaleHandlerOfSameWorkerCanComplete` | app/repositories/job_repository.py:374-384 | with one worker id leasing twice the other case is reachable |
| `JobTimeline.FailureDelaysRetry` | app/repositories/job_repository.py:173-210 | after a failed attempt n nobody can lease the job for base*2^(n-1) seconds, at most the maximum, and anybody can from then on, if and only if it may be retried and is not flagged; job and attempt name the error |
| `JobTimeline.NoLeaseDuringTheWait` | app/repositories/job_repository.py:112-116 | and no run leases it before |
| `JobTimeline.WaitingJobStays` | app/repositories/job_repository.py:112-116 | a waiting job stays exactly as it is until it is due, operators aside |
| `JobTimeline.ReclaimDelaysRetry` | app/repositories/job_repository.py:284-307 | an expired lease counts as a failure that may be retried |
| `JobTimeline.ReclaimNamesWorker` | app/repositories/job_repository.py:287 | the closed attempt names the worker that held the job, a fixed name for an empty one |
| `JobTimeline.LeaseLastsItsTime` | app/repositories/job_repository.py:127-145 | a lease counts one attempt and opens its audit row; its worker alone holds it, for exactly the lease time, and it can be reclaimed from then on and no sooner |
| `JobTimeline.HeartbeatRestartsTheLease` | app/repositories/job_repository.py:149-159 | a heartbeat starts the lease time again and changes nothing else |
| `JobTimeline.EnqueuedJobIsDue` | app/jobs/queue.py:71-82 | a new job is due at its time, or at once, with its priority cut to 0..100 and its budget |
| `JobTimeline.WorkerEndsTheJob` | app/repositories/job_repository.py:161-171 | completion and cancellation by the worker end job and attempt together, dated and released |
| `JobTimeline.CancelByStatus` | app/repositories/job_repository.py:212-226 | an operator ends a waiting job, flags a running one, and leaves an ended one |
| `JobTimeline.RetryGivesAnAttempt` | app/repositories/job_repository.py:243-263 | a retry makes an ended job due at once with an attempt left, adding one only if none was |
| `JobTimeline.AnyWorkerCanLease` | app/repositories/job_repository.py:112-116 | being due, waiting and not flagged is all a lease asks |
| `JobRepository.JobStore.Enqueue` | app/jobs/queue.py:42-106 | a new key inserts a PENDING job with clamped priority, a taken key returns the job that holds it |
| `JobRepository.JobStore.LeaseBatch` | app/repositories/job_repository.py:102-147 | leases the first `limit` leasable unlocked jobs: whatever is ahead by priority, due time, creation or id is taken before; opens an attempt for each and leaves every other job unchanged |
| `JobRepository.JobStore.SelectLeasable` | app/repositories/job_repository.py:110-126 | due, unflagged PENDING jobs, highest priority first, then by due time, creation and id, up to the limit |
| `JobRepository.LeaseSelectionIsDeterministic` | app/repositories/job_repository.py:117-123 | same rows and locks, same jobs in the same order |
| `JobRepository.QueriesAreOrdered` | app/repositories/job_repository.py:117-122 | the lease order is total, the reclaim order strict |
| `JobRepository.LeaseQueryByColumns` | app/repositories/job_repository.py:117-122 | a waiting job of higher priority, or due earlier, or created earlier, or with a smaller id, in this order, is leased before |
| `JobRepository.StaleQueryByColumns` | app/repositories/job_repository.py:279 | a lease that expired earlier, or as early with a smaller id, is reclaimed before |
| `JobRepository.LeasesAreLocal` | app/repositories/job_repository.py:127-146 | a batch leaves every job it did not select as it was |
| `JobRepository.JobStore.LeaseRow` | app/repositories/job_repository.py:127-145 | one job's lease is the lease step, opening the next numbered attempt |
| `JobRepository.JobStore.LeaseRows` | app/repositories/job_repository.py:127-146 | the loop is the sequence of lease steps |
| `JobRepository.JobStore.Heartbeat` | app/repositories/job_repository.py:149-159 | extends the lease exactly when the caller holds it alive |
| `JobRepository.JobStore.FinishAttempt` | app/repositories/job_repository.py:386-415 | closes the attempt numbered by the job's counter if it is open, else changes nothing |
| `JobRepository.JobStore.Complete` | app/repositories/job_repository.py:161-171 | is the completion step, with its answer |
| `JobRepository.JobStore.Fail` | app/repositories/job_repository.py:173-210 | is the failure step, back to PENDING with a delay or to DEAD_LETTER |
| `JobRepository.JobStore.Cancel` | app/repositories/job_repository.py:212-226 | is the cancel step for each status |
| `JobRepository.JobStore.MarkCancelled` | app/repositories/job_repository.py:228-241 | is the worker's cancellation step |
| `JobRepository.JobStore.Retry` | app/repositories/job_repository.py:243-263 | is the operator's retry step, raising an exhausted budget by one attempt |
| `JobRepository.JobStore.SelectStale` | app/repositories/job_repository.py:273-283 | RUNNING jobs whose lease has expired, in order, up to the limit |
| `JobRepository.JobStore.ReclaimRow` | app/repositories/job_repository.py:284-307 | one job's reclaim is the reclaim step |
| `JobRepository.JobStore.ReclaimRows` | app/repositories/job_repository.py:284-308 | the loop is the sequence of reclaim steps |
| `JobRepository.JobStore.ReclaimStale` | app/repositories/job_repository.py:265-309 | reclaims the first `limit` expired leases, all or nothing |
| `Backoff.DelayIsBoundedAndMonotone` | app/jobs/retry.py:37-42 | from the first attempt on, the delay is between one second and the maximum and does not fall |
| `Backoff.CapHoldsIff` | app/jobs/retry.py:40-41 | the cap holds exactly from the first attempt on, or for a base within it |
| `Backoff.TotalWhileUncapped` | app/jobs/retry.py:42 | k uncapped failures wait base*(2^k - 1) seconds in all |
| `Backoff.TotalNeverExceedsCap` | app/jobs/retry.py:42 | k failures never wait more than k times the maximum |
| `MediaSafety.CompletionIsFencedAndAtomic` | app/media/service.py:424-507 | an attempt becomes COMPLETED only in the transaction that makes its asset READY_FOR_REVIEW, its task COMPLETED and its event exist, under the live lease of the very job attempt n it started under; the asset then has exactly attempts 1 to n |
| `MediaSafety.ReadyOnlyByFinalization` | app/media/service.py:626-709 | an asset enters READY_FOR_REVIEW in no other way |
| `MediaSafety.TerminalAttemptIsFrozen` | app/repositories/media_repository.py:256-283 | no cleanup, reconciler or other transaction rewrites a terminal attempt, and none is forgotten |
| `MediaSafety.ReviewableMeansGenerated` | app/media/service.py:272-299 | a reviewable asset has a completed attempt and its ready event |
| `MediaSafety.NoMoreAttemptsThanLeases` | app/repositories/media_repository.py:89-122 | an asset never has more attempts than its job had leases |
| `MediaSafety.OneAttemptPerLease` | app/media/service.py:743-750 | attempts of one asset belong to one job, at most one to each of its leases |
| `MediaSafety.NumberedLikeLeases` | app/media/service.py:451-457 | an attempt numbered like the current lease is the last of attempts 1 to n |
| `MediaSafety.AllocationNeverConflicts` | app/media/service.py:767-777 | the allocation retry on a taken attempt number is unreachable |
| `MediaSafety.RunKeepsInv` | app/media/service.py:356-837 | numbering, origin of attempts, links and evidence of completion are kept by every run of queue, handlers, reconcilers and operators |
| `MediaSafety.StepOnAttempt` | app/repositories/media_repository.py:256-307 | no transaction changes an attempt's job, worker or lease number, nor anything of a terminal attempt, and only a finalisation completes one |
| `MediaSafety.StepOnRun` | app/media/service.py:743-753 | a handler run keeps the attempt it started |
| `MediaSafety.CompletesByFinalizing` | app/media/service.py:490-498 | an attempt that becomes COMPLETED is the one its finalisation names |
| `MediaContents.CompletionCarriesContent` | app/media/service.py:465-498 | the transaction that completes an attempt stores the content its run produced in the image and as the result of the task, leaves a storyboard's own content, and dates all three |
| `MediaContents.ContentIsLastGenerated` | app/media/service.py:465-466 | in every reachable state the content of an asset is what its last successful image run produced, nothing if there was none |
| `MediaContents.ReviewableImageHasContent` | app/media/service.py:272-299 | a reviewable image has content |
| `MediaContents.OnlyFinalizeWritesContent` | app/media/service.py:465-466 | no other transaction writes content |
| `MediaContents.AssetAndTaskAgree` | app/media/service.py:424-507 | in every reachable state asset and task statuses correspond, and a completed task has a result |
| `MediaContents.AssetMoves` | app/media/service.py:281-299 | the status of the asset after each transaction that is about it |
| `MediaContents.AssetErrors` | app/jobs/lifecycle.py:107-126 | the error columns of the asset after each |
| `MediaContents.OthersAreUntouched` | app/repositories/media_repository.py:207-232 | a transaction touches no other asset and no other task |
| `MediaContents.CleanupRecordsReason` | app/repositories/media_repository.py:286-307 | the cleanup closes its attempt with its reason and touches no other |
| `MediaContents.ReconcilerRecordsReason` | app/jobs/lifecycle.py:94-102 | the reconciler closes exactly the open attempts of its asset, with the job's reason or its own words |
| `MediaContents.CheckRecordsReason` | app/jobs/lifecycle.py:169-175 | the consistency check closes exactly them as orphans |
| `MediaContents.StartPutsUnderWay` | app/media/service.py:730-750 | a start opens an attempt of the lease's worker and puts the task under way |
| `MediaRepository.MediaStore.CreateStartedAttempt` | app/repositories/media_repository.py:89-122 | the number it takes is free and the asset's last, no other attempt is touched, and gapless numbers stay 1 to the new one |
| `MediaRepository.MediaStore.StartImage` | app/media/service.py:715-766 | is the start step; idle exactly for a ready or approved asset |
| `MediaRepository.MediaStore.StartStoryboard` | app/media/service.py:519-559 | is the start step; idle exactly for a ready asset, an error without task |
| `MediaRepository.MediaStore.MarkProcessing` | app/media/service.py:740-742 | the task, if any, is PROCESSING and keeps its first start time |
| `MediaRepository.MediaStore.FinalizeSuccess` | app/media/service.py:424-507 | finalises exactly when lease, attempt, asset and task are as expected, with the produced content in the image and in the task; else changes nothing and answers with the first check that failed |
| `MediaRepository.MediaStore.MarkTerminal` | app/repositories/media_repository.py:256-283 | closes an attempt exactly for its owner and from STARTED |
| `MediaRepository.MediaStore.TerminalizeActiveAttempts` | app/repositories/media_repository.py:207-232 | closes exactly the STARTED attempts of the asset and counts them |
| `MediaRepository.MediaStore.EndAsset` | app/jobs/lifecycle.py:113-126 | asset and task end together with the same error |
| `MediaRepository.MediaStore.Reconcile` | app/jobs/lifecycle.py:90-126 | is the terminal reconciliation, after which nothing of the asset is open |
| `MediaRepository.MediaStore.EnsureSuccessConsistency` | app/jobs/lifecycle.py:147-197 | accepts exactly a reviewable asset with nothing open, else fails asset, task and open attempts |
| `MediaRepository.MediaStore.PrepareRetry` | app/jobs/lifecycle.py:207-223 | is the reset of asset and task |
| `MediaRepository.MediaStore.Review` | app/media/service.py:281-299 | decides exactly a ready asset, a rejection only with a comment |
| `MediaProcessor.Handler.FinishAttempt` | app/media/service.py:789-837 | once committed the attempt is terminal, and whether it is COMPLETED is unchanged |
| `MediaProcessor.Handler.Finalise` | app/media/service.py:435-507 | the attempt is COMPLETED exactly when this transaction committed |
| `MediaProcessor.Handler.TryToFinalise` | app/media/service.py:372-401 | gets through exactly when content was produced and the finalisation committed and was acknowledged |
| `MediaProcessor.Handler.ProduceAndFinalize` | app/media/service.py:372-422 | exit, steps and attempt status for every production, fault and cleanup |
| `MediaProcessor.Handler.AfterStart` | app/media/service.py:364-372 | no attempt, no work; else the guarded part |
| `MediaProcessor.Handler.GenerateImage` | app/media/service.py:356-422 | every exit after a start leaves the attempt terminal unless the cleanup did not get through (persistence failed, or the unshielded cleanup after an error was cancelled), COMPLETED exactly when its finalisation committed; each exit happens exactly when it should |
| `MediaProcessor.Handler.GenerateStoryboard` | app/media/service.py:511-624 | the same for storyboards |
| `MediaProcessor.ExitByCase` | app/media/service.py:402-422 | which production, fault and state of the finalisation lead to which exit |
| `MediaProcessor.ReasonByCase` | app/media/service.py:851-858 | which reason the cleanup records when |
| `MediaProcessor.ErrorsByAnswer` | app/media/service.py:437-464 | the reason raised by each failed check of the finalisation |
| `MediaRepository.FinalizeAnswerByCase` | app/media/service.py:437-489 | a lost lease is reported first, then a missing row, then a conflict |
| `MediaProcessor.OnlyTheRunCompletes` | app/media/service.py:451-457 | nobody else's transactions complete the attempt of this run |
| `MediaProcessor.OwnsStays` | app/repositories/media_repository.py:267-273 | a run keeps its attempt, and its worker keeps owning it, through anybody's transactions |
| `MediaNumbering.CanFinalizeIff` | app/media/service.py:437-489 | a started handler can finalise exactly if it holds the live lease of its number, attempt, asset and task are as it left them, and the handlers of all earlier leases started before it |
| `MediaNumbering.StartDecidesFinalization` | app/media/service.py:451-460 | seen before the start: it will be able to finalise, undisturbed, exactly if the lease is its own and every earlier lease started an attempt |
| `MediaNumbering.StartTakesLeaseNumberIff` | app/repositories/media_repository.py:116-122 | a start under the current lease takes the number of the lease exactly if every earlier lease started an attempt |
| `MediaNumbering.OutOfTurnNeverFinalizes` | app/media/service.py:451-460 | a handler that starts otherwise never finalises, whatever happens later |
| `MediaNumbering.CompletionStaysPossibleIff` | app/media/service.py:451-460 | a waiting job can still get its asset generated, without late starts of old handlers, if and only if the handler of every lease so far started an attempt |
| `MediaNumbering.IdleHandlerBlocksCompletion` | app/media/service.py:451-460 | while some handler of the job has started nothing, no attempt of the asset becomes COMPLETED |
| `MediaNumbering.OvertakenHandlerCannotFinalize` | app/media/service.py:715-766 | reachable: a handler with the live lease, all leases started, and no way to finalise |
| `MediaNumbering.LostFirstLeaseIsFatal` | app/media/service.py:451-460 | reachable: after a first lease whose handler starts nothing the asset is never generated |
| `MediaEndings.PromiseIsKeptIff` | app/jobs/lifecycle.py:90-126 | from the end of the job on, short of a retry, no attempt is ever STARTED if and only if none was under way then and no idle handler starts one |
| `MediaEndings.JobEndLeavesOpenAttemptIff` | app/repositories/job_repository.py:284-307 | a queue transaction leaves an ended job with an open attempt exactly if it takes the ending branch, for a reclaim the used-up budget, while a handler has an attempt under way |
| `MediaEndings.EndsIff` | app/repositories/job_repository.py:161-309 | the guards under which each queue transaction ends a job |
| `MediaEndings.OpensIff` | app/media/service.py:715-766 | only a start opens an attempt of an asset, and every start does, whatever the state of the job and its lease |
| `MediaEndings.OpenAtSomeMomentIff` | app/media/service.py:715-766 | over any run an attempt is open at some moment exactly if one was at first or a handler of the job starts one |
| `MediaEndings.WindowIsOpenIff` | app/jobs/worker.py:234-260 | between the transaction that fails or cancels a job and the reconciliation an attempt is open exactly if one was under way or is started; afterwards none is |
| `MediaEndings.ReconcilersCloseEverything` | app/jobs/lifecycle.py:97-102 | after the reconciler or the check no attempt of the asset is open |
| `MediaEndings.DeadJobCanKeepAnOpenAttempt` | app/repositories/job_repository.py:304-306 | reachable: the reclaim of an only attempt leaves a dead job with a STARTED attempt |
| `MediaEndings.DeadJobCanOpenAnAttempt` | app/media/service.py:715-766 | reachable: a job dies with nothing open and its handler starts an attempt afterwards |
| `MediaEndings.DyingWorkerLeavesItOpen` | app/jobs/worker.py:234-248 | reachable: a worker that dies between its last two transactions leaves the attempt STARTED |
| `MediaBoundaries.RestartsReviewedAssetIff` | app/media/service.py:725-730 | a handler run restarts a reviewed asset exactly if it is a rejected image, or a rejected or approved storyboard with its task |
| `MediaBoundaries.ApprovedStoryboardIsRestarted` | app/media/service.py:519-543 | reachable: a takeover restarts an approved storyboard |
| `MediaBoundaries.FinalizedAssetPassesCheckIff` | app/jobs/lifecycle.py:153-183 | right after a finalisation the check keeps the asset ready exactly when no other attempt is open |
| `MediaBoundaries.StalledHandlerSpoilsSuccess` | app/jobs/lifecycle.py:153-183 | reachable: a handler about to finalise beside a stalled one whose attempt is open |
| `JobWorker.Worker.Conclude` | app/jobs/worker.py:150-199 | for every way a handler ends, the outcome, the job and its media: a retryable error with attempts left sends the job back to wait, any other error and every cancellation end it and its media, a lost lease changes nothing, and it succeeds only with consistent media under the live lease |
| `JobWorker.EndingByCase` | app/jobs/worker.py:165-190 | the same of the specification, apart from its steps |
| `JobWorker.Worker.CheckAndComplete` | app/jobs/worker.py:154-164 | the success path and the two failures it can turn into |
| `JobWorker.Worker.CompleteJob` | app/jobs/worker.py:160-164 | completes under the live lease, else fails |
| `JobWorker.Worker.CheckConsistency` | app/jobs/worker.py:154-157 | the check in its own transaction |
| `JobWorker.Worker.FailJob` | app/jobs/worker.py:223-248 | fails the job under its live lease and reconciles the media of a dead one |
| `JobWorker.Worker.CancelJob` | app/jobs/worker.py:250-260 | cancels the job under its live lease and reconciles its media |
| `JobWorker.Worker.ReconcileMedia` | app/jobs/worker.py:242-248 | the reconciliation after other transactions, with nothing left open |
| `JobWorker.FinishAnswerIsLease` | app/repositories/job_repository.py:366-407 | in a reachable state the live lease alone decides whether a job can be finished |
| `JobWorker.DeathInBetweenLeavesOpenIff` | app/jobs/worker.py:234-260 | a worker that dies after ending the job, before reconciling it, leaves an attempt open exactly if a handler of the job had one under way |
| `Experiments.ResumptionConverges` | app/prompt_management/runners.py:51-203 | after any interrupted, failed, cancelled and retried runs, a COMPLETED experiment has exactly one completed row for each case and variant and the report of one uninterrupted run |
| `Experiments.UninterruptedRunFinishes` | app/prompt_management/runners.py:51-116 | an uninterrupted run does finish, with that report |
| `Experiments.ReportIsStable` | app/prompt_management/runners.py:182-191 | a report once written never changes |
| `Experiments.CompleteRowsGiveIdealReport` | app/prompt_management/runners.py:174-181 | however the rows are listed, complete rows give the report computed from the cases alone |
| `Experiments.AggregateIgnoresOrder` | app/prompt_management/execution.py:87-130 | aggregates do not depend on the order of rows |
| `ReportMeaning.ReportSumsTheCases` | app/prompt_management/execution.py:87-130 | in a finished experiment's report every rate is the mean, the cost the sum and every count the sum of whole numbers of the executor's own metric of that name over the sampled cases |
| `ReportMeaning.RatesAreMeans` | app/prompt_management/execution.py:108-123 | rate by rate, for both versions |
| `ReportMeaning.MeanTimesCount` | app/prompt_management/execution.py:108-109 | a mean times the number of cases is the sum |
| `ReportMeaning.FinishedWinnerByLead` | app/prompt_management/execution.py:133-154 | a version wins exactly if its lead, with weights 1, 1/4 and 1/10000, is a thousandth or more |
| `ReportMeaning.WinnerByLead` | app/prompt_management/execution.py:133-154 | the same of any two sets of rows, undecided in between |
| `ReportMeaning.BetterNeverLosesAWin` | app/prompt_management/execution.py:136-153 | more quality, validity, success or first-pass acceptance, or less failure, review, revision, cost or latency, never loses a win |
| `ReportMeaning.ExchangedSidesExchangeWinner` | app/prompt_management/execution.py:149-154 | both versions are treated alike |
| `ReportMeaning.CutsOffTowardsZero` | app/prompt_management/execution.py:111-112 | counts are cut off towards zero |
| `Experiments.WinnerLeads` | app/prompt_management/execution.py:133-154 | a winner leads by at least the margin, in both directions, and exchanging the versions exchanges the verdict |
| `Experiments.RunKeepsInv` | app/prompt_management/runners.py:51-203 | rows hold only sampled cases, completed rows the executor's result, and a report complete rows, over every run |
| `Experiments.WorkedKeepsRows` | app/prompt_management/runners.py:79-115 | working through never loses a completed row, and leaves every row completed when it gets to the end |
| `Experiments.CompleteRowsStay` | app/prompt_management/runners.py:82-85 | completed rows are skipped unchanged |
| `RunOutcomes.ExperimentRowByRow` | app/prompt_management/runners.py:79-115 | a run completes every row it gets past that was not complete, records a failure at the first row whose execution raises, and leaves all others |
| `RunOutcomes.ExperimentFinishesIff` | app/prompt_management/runners.py:79-116 | it gets to the end exactly if it gets past every row |
| `RunOutcomes.WorkOrder` | app/prompt_management/runners.py:79-80 | cases outside, control before candidate inside |
| `RunOutcomes.LifecycleMoves` | app/jobs/lifecycle.py:127-135 | what a dead, cancelled or retried job and an operator do to an experiment |
| `OverlappingRuns.OverlapIsHarmlessIff` | app/prompt_management/runners.py:79-164 | a run that finishes while others write the same rows finds those of an undisturbed run if and only if no row was last written as a failure |
| `OverlappingRuns.HarmlessOverlapReportsIdeal` | app/prompt_management/runners.py:166-191 | and then reports what an undisturbed run reports |
| `OverlappingRuns.WalkLeavesDoneUnlessFailed` | app/prompt_management/runners.py:79-115 | however its walk overlaps others, a row of it is completed afterwards unless a failure was written last |
| `OverlappingRuns.StaleFailureSpoilsReport` | app/prompt_management/runners.py:97-106 | reachable: a stale failure over a completed row |
| `ExperimentRunner.Runner.Step` | app/prompt_management/runners.py:81-115 | one loop body for every incident |
| `ExperimentRunner.Runner.WorkThrough` | app/prompt_management/runners.py:79-115 | the nested loops are the walk over cases outside, variants inside |
| `ExperimentRunner.Runner.Process` | app/prompt_management/runners.py:65-115 | the run before its final transaction |
| `ExperimentRunner.Runner.Write` | app/prompt_management/runners.py:182-202 | writes the report only when there is none |
| `ExperimentRunner.Runner.Complete` | app/prompt_management/runners.py:166-203 | computes the report from the rows as listed, and leaves a cancelled experiment alone |
| `ExperimentRunner.Runner.Run` | app/prompt_management/runners.py:51-116 | one run equals its specification, with each exit exactly when |
| `Comparisons.ReportsAccountForEveryCase` | app/prompt_management/runners.py:339-394 | every report ever produced has one line per provider with attempted = completed + failed = sampled cases, and recommends the first provider of maximal score with a completed case |
| `Comparisons.CompleteRowsAccount` | app/prompt_management/runners.py:348-359 | with a row for every provider and case, each line accounts for every case |
| `Comparisons.Recommend` | app/prompt_management/runners.py:377-384 | the first of maximal score among the successful, none exactly when all failed |
| `Comparisons.RecommendationIsUnique` | app/prompt_management/runners.py:382-384 | the recommendation is determined by the lines |
| `Comparisons.CompletedRowSurvivesIff` | app/prompt_management/runners.py:243-256 | a finished run keeps a completed row exactly when its provider's client could be built |
| `Comparisons.CompletedRowCanBeOverwritten` | app/prompt_management/runners.py:243-256 | reachable: an interrupted and resumed comparison loses a completed row |
| `Comparisons.FinishedRowsAreComplete` | app/prompt_management/runners.py:242-288 | a run that gets to the end has a row for every provider and case and no other |
| `RunOutcomes.ComparisonRow` | app/prompt_management/runners.py:242-288 | what a run does with one row, for each incident and availability |
| `RunOutcomes.ComparisonFinishesIff` | app/prompt_management/runners.py:242-288 | it gets to the end exactly if it can go on after every row; a failed execution is no obstacle |
| `RunOutcomes.ComparisonLifecycleMoves` | app/jobs/lifecycle.py:136-144 | what a dead, cancelled or retried job does to a comparison |
| `ReportMeaning.LineSumsItsRows` | app/prompt_management/runners.py:349-354 | a provider's line sums the metrics of its completed rows |
| `ReportMeaning.RecommendationByScore` | app/prompt_management/runners.py:377-384 | in every report each score is quality + validity + success - failure share - cost - latency/10000, and no provider with a completed case scores above the recommended one |
| `ReportMeaning.ReportsAreScored` | app/prompt_management/runners.py:397-405 | all lines of all reports are scored so, with the failure share of the attempted |
| `Comparisons.RunKeepsInv` | app/prompt_management/runners.py:215-394 | rows stay within providers and cases and reports stay sound over every run |
| `ComparisonRunner.Runner.RecordUnavailable` | app/prompt_management/runners.py:245-255 | a case of an unavailable provider is recorded as failed without a look at its row |
| `ComparisonRunner.Runner.Execute` | app/prompt_management/runners.py:257-288 | one case body for every incident; a failed execution does not stop the run |
| `ComparisonRunner.Runner.WorkThroughCases` | app/prompt_management/runners.py:243-288 | one provider's loop |
| `ComparisonRunner.Runner.WorkThrough` | app/prompt_management/runners.py:242-288 | the loop over providers |
| `ComparisonRunner.Runner.Process` | app/prompt_management/runners.py:225-288 | the run before its final transaction |
| `ComparisonRunner.Runner.Conclude` | app/prompt_management/runners.py:377-394 | writes the report, or raises exactly when every execution failed |
| `ComparisonRunner.Runner.Complete` | app/prompt_management/runners.py:339-394 | the final transaction from the rows as listed |
| `ComparisonRunner.Runner.Run` | app/prompt_management/runners.py:215-289 | one run equals its specification |
| `Prompts.ActiveVersionIsUnique` | app/prompt_management/service.py:192-237 | however calls overlap, at most one version is ACTIVE, and it is the one activated last |
| `Prompts.OneActivationPerTemplateVersion` | app/prompt_management/service.py:203-222 | template version = 1 + committed activations, and no two activations expected the same version |
| `Prompts.LiveVersionsWereApproved` | app/prompt_management/service.py:179-184 | an APPROVED, ACTIVE or RETIRED version was approved by a manager or admin |
| `Prompts.SystemIsRefusedEarlier` | app/prompt_management/service.py:180-181 | the check against SYSTEM approvals never fires, the role check comes first |
| `Prompts.ReactivationIsSilent` | app/prompt_management/service.py:223-232 | an activation adds an outbox event exactly when the version was never active before |
| `Prompts.ReactivationAddsNoEvent` | app/prompt_management/service.py:222-232 | reachable: a retired version is activated again without an event |
| `Prompts.VersionsAreNumberedFromOne` | app/repositories/prompt_repository.py:63-69 | version numbers are 1, 2, ... without gap or repetition although the next one is read without a lock |
| `Prompts.TransitionIsLegalIff` | app/prompt_management/service.py:163-178 | a committed transition follows an edge of the status machine exactly when the status it read is still the row's |
| `Prompts.TransitionsByTable` | app/prompt_management/service.py:163-178 | a transition commits exactly for a manager or admin who named the status read, from DRAFT to TESTING, TESTING to APPROVED or ACTIVE to RETIRED |
| `Prompts.ActivationsByTable` | app/prompt_management/service.py:201-212 | an activation commits exactly for a manager or admin with the current template version, from APPROVED or RETIRED |
| `Prompts.TransitionMoves` | app/prompt_management/service.py:179-187 | it moves its version, names an approver, and touches nothing else |
| `Prompts.ActivationMoves` | app/prompt_management/service.py:213-222 | in every reachable state it makes its version active, retires the one before, and touches no other |
| `Prompts.InsertionDrafts` | app/prompt_management/service.py:125-140 | a new version is an unapproved draft |
| `Prompts.ApprovalNeedsTesting` | app/prompt_management/service.py:168-173 | with atomic calls no version is approved, active or retired without having been in testing |
| `Prompts.AtomicCallsNeverGoBack` | app/prompt_management/service.py:155-237 | with atomic calls no version goes back to an earlier stage |
| `Prompts.StaleTransitionUndoesApproval` | app/prompt_management/service.py:164-186 | overlapping calls can undo an approval |
| `Prompts.RunKeepsInv` | app/prompt_management/service.py:111-237 | the invariant behind these is kept by every run |
| `PromptService.Service.ReadVersionRow` | app/prompt_management/service.py:414-418 | the row as it is before the lock |
| `PromptService.Service.Move` | app/prompt_management/service.py:165-189 | the locked part of a transition, decided on the status read before |
| `PromptService.Service.Promote` | app/prompt_management/service.py:213-221 | retires the previous version first, so that the unique index on ACTIVE never refuses a write |
| `PromptService.Service.Enter` | app/prompt_management/service.py:202-236 | the locked part of an activation |
| `PromptService.Service.TransitionTo` | app/prompt_management/service.py:155-190 | a whole transition with others' transactions between read and lock |
| `PromptService.Service.ActivateVersion` | app/prompt_management/service.py:192-237 | a whole activation with others' transactions between read and lock |
| `PromptService.Service.Rollback` | app/prompt_management/service.py:239-255 | succeeds exactly for a manager, a known version that was approved or retired when read, and the current template version |
| `PromptService.Service.CreateVersion` | app/prompt_management/service.py:111-141 | inserts a draft under the number read before, exactly when nobody took it since |
| `RateLimiter.DecidesLikeFullHistory` | app/operations/rate_limit.py:25-35 | the limiter decides every call as one that remembers every admission |
| `RateLimiter.AllowedIffFewerThanLimit` | app/operations/rate_limit.py:25-35 | a call is allowed exactly if fewer than `limit` admissions of its key lie in the `window` seconds before it |
| `RateLimiter.DequeIsRecentLog` | app/operations/rate_limit.py:29-34 | a key's deque is exactly its admissions newer than the last call's cutoff |
| `RateLimiter.NoWindowExceedsLimit` | app/operations/rate_limit.py:25-35 | no window of the configured length, wherever it starts, holds more than `limit` admissions of a key |
| `RateLimiter.EveryAllowedCallIsLogged` | app/operations/rate_limit.py:34-35 | an allowed call is one admission of its key, a refused one none |
| `RateLimiter.ConfiguredIsOrderly` | app/operations/rate_limit.py:41-50 | one configured limit and window and a clock that does not run backwards suffice |
| `RateLimiter.InMemoryRateLimiter.Allow` | app/operations/rate_limit.py:25-35 | keeps each key's deque equal to its specification over all calls, and answers as specified |
| `Alerts.AgreementIff` | app/operations/alert_rules.py:51-73 | after a reconciliation the active managed identities are exactly those of the conditions, if and only if no lock hid a cleared alert |
| `Alerts.SecondRunAddsNothing` | app/operations/alert_rules.py:51-73 | the same conditions within the hour add no row, resolve none, and count each sighting |
| `Alerts.AddedRows` | app/operations/alerts.py:37-39 | rows are added exactly for conditions not seen in their hour |
| `Alerts.OpeningIsExact` | app/repositories/alert_repository.py:31-66 | opening touches exactly the rows sighted, which are open, unacknowledged and counted |
| `Alerts.SightingColumns` | app/repositories/alert_repository.py:31-66 | a sighting opens a new alert, or reopens that of its hour with one more occurrence and its first date |
| `Alerts.SameAlertIff` | app/operations/alerts.py:37-39 | two sightings share an alert exactly if they share identity and clock hour |
| `Alerts.ResolutionColumns` | app/operations/alerts.py:122-134 | the final pass resolves exactly unlocked active alerts of the five managed types without a condition, in its own name |
| `Alerts.AcknowledgementColumns` | app/operations/alerts.py:86-94 | an acknowledgement names its operator on an unresolved alert only |
| `Alerts.OtherTypesAreUntouched` | app/operations/alert_rules.py:36-42 | alerts of unmanaged types stay as they were |
| `Alerts.AcknowledgementSurvivesIff` | app/repositories/alert_repository.py:49-61 | a persisting condition takes back an acknowledgement exactly within its hour |
| `Alerts.AcknowledgementCanBeLost` | app/repositories/alert_repository.py:49-61 | reachable: a second reconciliation reopens an acknowledged alert |
| `Alerts.AlertWithoutConditionIsResolvedIff` | app/operations/alerts.py:113-135 | an active managed alert without a condition is resolved exactly if it is not locked |
| `Alerts.ConditionsAreManagedAndDistinct` | app/operations/alert_rules.py:75-201 | all conditions are of managed types with distinct identities |
| `Alerts.BacklogsByThreshold` | app/operations/alert_rules.py:134-200 | each backlog is a condition exactly above its threshold, with its severity and text |
| `Alerts.FailuresAreReported` | app/operations/alert_rules.py:77-131 | each dead job and failed action the queries return is a condition, and besides backlogs nothing else |
| `Alerts.LimitIsBetween` | app/operations/alert_rules.py:52 | the limit is cut to 1..500 |
| `Alerts.EveryDeadJobIsACondition` | app/operations/alert_rules.py:77-90 | the conditions cover every dead job exactly when there are no more than the clamped limit |
| `AlertStore.Store.OpenAlert` | app/repositories/alert_repository.py:19-66 | the upsert by identity and hour |
| `AlertStore.Store.ListActive` | app/repositories/alert_repository.py:103-119 | exactly the active managed rows that are not locked |
| `AlertStore.Store.ResolveCleared` | app/operations/alerts.py:113-135 | resolves and counts exactly the listed alerts without a condition |
| `AlertStore.Store.Reconcile` | app/operations/alert_rules.py:51-73 | opens every condition, then resolves the cleared |
| `AlertStore.Store.Acknowledge` | app/operations/alerts.py:86-94 | acknowledges exactly an unresolved alert |
| `Acceptance.FirstPassIsAtMostAcceptance` | app/business_impact/service.py:316-336 | for every selection of rows after any run, 0 <= first-pass rate <= human acceptance rate <= 1, after rounding |
| `Acceptance.RunKeepsInv` | app/business_impact/service.py:104-140 | all three writers keep that acceptance without editing means accepted, no editing and no rework |
| `Acceptance.SharesMakeAWhole` | app/business_impact/service.py:330-332 | accepted and rejected shares add up to one, or one quantum more |
| `Acceptance.Tallies` | app/business_impact/service.py:316-339 | first passes are accepted, known is accepted or rejected, and a first pass was not reworked |
| `Acceptance.TallyCountsRows` | app/business_impact/service.py:316-339 | each tally is the number of rows that say so |
| `Acceptance.RatesAreShares` | app/business_impact/service.py:330-336 | both rates are shares of the rows with known acceptance, to six places |
| `Acceptance.NewRowByCase` | app/business_impact/service.py:104-113 | a new row has the caller's fields, and the review's decision where the caller left it open |
| `Acceptance.CurrentWriteByCase` | app/business_impact/service.py:197-202 | seen by a writer with a current copy, feedback with a decision is the row, a review decides and a rejection takes back "without editing" |
| `Acceptance.ConstraintByColumns` | app/database/models.py:1387-1391 | what the table constraint asks of a row |
| `Acceptance.NewImpactIsNeverRefused` | app/business_impact/service.py:104-140 | a new row never offends the table constraint |
| `Acceptance.CurrentCopyIsNeverRefused` | app/business_impact/service.py:197-202 | a writer with a current copy is never refused and writes what it assigned |
| `Acceptance.AtomicCallsAreNeverRefused` | app/business_impact/service.py:197-202 | with atomic calls the table constraint never fires |
| `Acceptance.ReviewIsRefusedIff` | app/media/service.py:301-309 | a review fails on it exactly when it rejects what feedback accepted unedited in between |
| `Acceptance.FeedbackIsRefusedIff` | app/business_impact/service.py:197-202 | feedback fails on it exactly when it accepts unedited and a column it left as read has changed, or it spoils an unedited acceptance made since |
| `Acceptance.RejectionCanBeRefused` | app/media/service.py:301-309 | reachable: a refused rejection |
| `Acceptance.FeedbackCanBeRefused` | app/business_impact/service.py:197-202 | reachable: refused feedback |
| `Acceptance.RejectionTakesEffectIff` | app/media/service.py:301-309 | a rejection that commits is the row's decision exactly if the copy was not rejected already or the row still is |
| `Acceptance.FeedbackTakesEffectIff` | app/business_impact/service.py:197-202 | feedback that commits is what the row says exactly if no column it left as read has changed |
| `Acceptance.RejectionCanBeLost` | app/media/service.py:301-309 | reachable: a rejection that commits and is not recorded |
| `Acceptance.FeedbackCanBeLost` | app/business_impact/service.py:197-202 | reachable: feedback that commits and is partly not recorded |
| `ImpactService.Service.RecordTaskImpact` | app/business_impact/service.py:81-171 | one row per task, a missing decision taken from the asset's review |
| `ImpactService.Service.RecordFeedback` | app/business_impact/service.py:197-202 | the change of an impact row by feedback with others' transactions between read and write, refused exactly when the copy and the row say so |
| `ImpactService.Service.RecordReview` | app/media/service.py:301-309 | the change of an impact row by a media review with others' transactions in between, refused exactly when the copy and the row say so |
| `ImpactService.Service.Commit` | app/database/models.py:1387-1391 | writes the columns that changed, unless the table constraint refuses the row |
| `Rates.QuantizedIsClose` | app/business_impact/calculator.py:29-31 | rounding is within half a quantum, ties upwards |
| `Rates.QuantizedIsMonotone` | app/business_impact/calculator.py:29-31 | rounding keeps order |
| `Rates.QuantizedTwice` | app/business_impact/calculator.py:29-31 | rounding twice is rounding once |
| `Rates.RatioIsMonotone` | app/business_impact/calculator.py:26-31 | rates of counts of the same things keep their order within 0 and 1, an empty or negative total included |
| `Rates.OppositeRatesAddUp` | app/business_impact/calculator.py:26-31 | a rate and its opposite add up to one, or one quantum more |
| `Rates.MinutesSavedIsClamped` | app/business_impact/calculator.py:14-17 | never negative, and nothing when the manual way was no slower |
| `Rates.AutomationRateIsBounded` | app/business_impact/calculator.py:20-23 | between 0 and 1, and 1 when no step is left by hand |
| `Rates.RatioToSixPlaces` | app/business_impact/calculator.py:26-31 | a rate is whole millionths within half a millionth of the quotient, zero without a total |
| `Rates.MinutesToTwoPlaces` | app/business_impact/calculator.py:14-17 | minutes saved are whole hundredths within half a hundredth of the difference |
| `Rates.AutomationToSixPlaces` | app/business_impact/calculator.py:20-23 | the automation rate is whole millionths within half a millionth of the share |

## Left out

- PostgreSQL, SQLAlchemy and asyncio themselves: a transaction is one step, a cancellation is a fault at a step.
- Two transactions of one process that the code runs in one session are two steps where it commits in between, so others
  may come between `retry` and `prepare_retry`, and between a job's end and its media reconciliation.
- SHA-256 keys and sanitisation: keys are the tuples they hash, texts are stored as given.
- LLM and image providers, rendering, storage and cost limits: the provider call is a parameter that produces content,
  raises or is cancelled. An executor's successful result is a function of case and variant or provider.
- Unknown job types in `JobQueue.lease` (app/jobs/queue.py:141-159), which fail their job in the leasing transaction: a
  lease step followed by a failure step of the model.
- Worker heartbeats, metrics, tracing, timelines, health reports, authentication, and the HTTP layer.
- Branches of the terminal reconciler for data analysis and document tasks (app/jobs/lifecycle.py:77-89): simple
  compare-and-set. Those for experiments and comparisons are steps of `Experiments` and `Comparisons`.
- The unique constraint on one review per asset and actor, review events, and the owner fields of rows.
- Validation of a storyboard request and its prompt version inside the start transaction (app/media/service.py:533-540):
  both raise and roll back like a missing task.
- Overlapping runs of one experiment are modelled row by row (`OverlappingRuns`), with failures and completions of the
  others at any moment; overlapping runs of one comparison are not.
- Case sampling: the cases are a given list without repetition, the same for every run.
- The feedback table's own optimistic version (app/business_impact/service.py:204-219).
- Other writers of alerts during a reconciliation; operators' calls come before or after it.
- User satisfaction, totals and series of the analytics: plain sums.
- Binary floating point and decimal context precision: metrics, timestamps of the limiter and rates are exact.
- The limiter's clock is read before its lock: calls are taken to be atomic and the clock not to run backwards.
- Prompt templates other than the one at hand, and versions of another template passed to `rollback`, which it refuses.
- Unit-of-work details for prompt rows: an approval always writes the approver, also over the same one.
- Prompt evaluation gates, campaign workflow, policy engine, action and approval services.
