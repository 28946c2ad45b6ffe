/**
 What the worker of app/jobs/worker.py does once a handler has ended: check consistency and complete, or cancel, or
 fail, and reconcile the media state when the job is over. The handler's own transactions are among `others`.
 */
module JobWorker {
  import opened Wrappers
  import opened MediaState
  import opened MediaRepository
  import opened MediaSafety
  import J = JobState
  import JS = JobSafety
  import ME = MediaEndings
  import JT = JobTimeline
  import Backoff

  /** How the handler task ends, together with the two events the heartbeat loop may have set. */
  datatype HandlerEnd =
    | Returned(leaseLost: bool)
    | CancellationRaised
    | TaskCancelled(cancellation: bool, leaseLost: bool)
    | OwnershipLostRaised
    | Raised(code: string, message: string, retryable: bool, leaseLost: bool)

  datatype Moment = Moment(others: seq<Step>, now: Time)

  /** What comes before each transaction, and whether the worker dies after ending the job, before it reconciles its media. */
  datatype Environment = Environment(check: Moment, completion: Moment, ending: Moment, diesInBetween: bool, reconciliation: Moment)

  /** `LeaseIsGone` and `Propagated` make no claim on the job; `JobRetried` and `JobDied` are the two results of a failure. */
  datatype Outcome = JobSucceeded | JobCancelled | JobRetried | JobDied | LeaseIsGone | Propagated | WorkerDied

  datatype Settings = Settings(retryBase: int, retryMaximum: int)

  /** The state at the end, and how it went. */
  datatype Ending = Ending(world: World, outcome: Outcome)

  /** The rest of `_fail` once its first transaction, from state `w`, has got through. */
  ghost function AfterFailed(w: World, jobId: J.JobId, fail: J.Step, env: Environment): Ending
    requires fail.Fail?
  {
    var v := Apply(w, JobStep(fail));
    if !(jobId in v.queue.jobs && v.queue.jobs[jobId].status == J.DeadLetter) then Ending(v, JobRetried)
    else if env.diesInBetween then Ending(v, WorkerDied)
    else
      Ending(Apply(Run(v, env.reconciliation.others),
                   Reconcile(jobId, false, Some(fail.code), Some(fail.message), env.reconciliation.now)), JobDied)
  }

  /** `_fail`, with everybody else's transactions before each of its two. */
  ghost function AfterFailing(w: World, jobId: J.JobId, fail: J.Step, env: Environment): Ending
    requires fail.Fail?
  {
    var before := Run(w, env.ending.others);
    if J.AnswerTo(before.queue, fail) != J.Done then Ending(before, Propagated) else AfterFailed(before, jobId, fail, env)
  }

  /** `_cancel`. */
  ghost function AfterCancelling(w: World, jobId: J.JobId, workerId: string, env: Environment): Ending {
    var cancel := J.MarkCancelled(jobId, workerId, env.ending.now);
    var before := Run(w, env.ending.others);
    if J.AnswerTo(before.queue, cancel) != J.Done then Ending(before, Propagated)
    else if env.diesInBetween then Ending(Apply(before, JobStep(cancel)), WorkerDied)
    else
      Ending(Apply(Run(Apply(before, JobStep(cancel)), env.reconciliation.others),
                   Reconcile(jobId, true, Some("JOB_CANCELLED"), Some("Background job was cancelled"), env.reconciliation.now)), JobCancelled)
  }

  const INCONSISTENT := ("MEDIA_ATTEMPT_RECONCILIATION_ERROR", "Media handler completed without consistent terminal state")
  const LEASE_LOST := ("JOB_LEASE_LOST", "Job lease is no longer owned by this worker")

  ghost function FailStep(jobId: J.JobId, workerId: string, error: (string, string), retryable: bool, settings: Settings, env: Environment): (s: J.Step)
    ensures s.Fail?
  {
    J.Fail(jobId, workerId, error.0, error.1, retryable, settings.retryBase, settings.retryMaximum, env.ending.now)
  }

  /** After a handler that returned: the consistency check, then the completion; either can turn into a failure. */
  ghost function AfterReturning(w: World, jobId: J.JobId, workerId: string, settings: Settings, env: Environment): Ending {
    var seen := Run(w, env.check.others);
    var checked := Apply(seen, EnsureSuccess(jobId, env.check.now));
    if !(HasAsset(seen, jobId) && Consistent(seen, jobId)) then
      AfterFailing(checked, jobId, FailStep(jobId, workerId, INCONSISTENT, false, settings, env), env)
    else
      var before := Run(checked, env.completion.others);
      var complete := J.Complete(jobId, workerId, env.completion.now);
      if J.AnswerTo(before.queue, complete) == J.Done then Ending(Apply(before, JobStep(complete)), JobSucceeded)
      else AfterFailing(before, jobId, FailStep(jobId, workerId, LEASE_LOST, true, settings, env), env)
  }

  ghost function AfterHandler(w: World, jobId: J.JobId, workerId: string, settings: Settings, end: HandlerEnd, env: Environment): Ending {
    match end
    case Returned(leaseLost) => if leaseLost then Ending(w, LeaseIsGone) else AfterReturning(w, jobId, workerId, settings, env)
    case CancellationRaised => AfterCancelling(w, jobId, workerId, env)
    case TaskCancelled(cancellation, leaseLost) =>
      if cancellation then AfterCancelling(w, jobId, workerId, env)
      else Ending(w, if leaseLost then LeaseIsGone else Propagated)
    case OwnershipLostRaised => Ending(w, LeaseIsGone)
    case Raised(code, message, retryable, leaseLost) =>
      if leaseLost then Ending(w, LeaseIsGone)
      else AfterFailing(w, jobId, FailStep(jobId, workerId, (code, message), retryable, settings, env), env)
  }

  // ----- what an ending means, apart from how the worker gets there

  predicate SameMedia(w: World, v: World) {
    w.mediaJobs == v.mediaJobs && w.assets == v.assets && w.tasks == v.tasks && w.attempts == v.attempts && w.readyEvents == v.readyEvents
  }

  predicate JobIs(w: World, jobId: J.JobId, status: J.Status, code: Option<string>, message: Option<string>) {
    && jobId in w.queue.jobs && w.queue.jobs[jobId].status == status && w.queue.jobs[jobId].lockedBy == None
    && (code.Some? ==> w.queue.jobs[jobId].errorCode == code && w.queue.jobs[jobId].errorMessage == message)
  }

  /** Reviewable media is kept; anything else has ended with this reason. */
  predicate MediaEndedAs(w: World, jobId: J.JobId, status: AssetStatus, code: string, message: string) {
    && HasAsset(w, jobId)
    && (Reviewable(w.assets[w.mediaJobs[jobId]].status)
        || (w.assets[w.mediaJobs[jobId]].status == status && w.assets[w.mediaJobs[jobId]].errorCode == Some(code)
            && (message != "" ==> w.assets[w.mediaJobs[jobId]].errorMessage == Some(message))))
  }

  /** The worker reports an error from state `w`: ignored without the lease; a retry after the wait while attempts are left; else the end of job and media. */
  ghost predicate EndsInError(w: World, v: World, outcome: Outcome, jobId: J.JobId, workerId: string, code: string, message: string,
                              retryable: bool, settings: Settings, env: Environment) {
    if !J.OwnsLiveLease(w.queue, jobId, workerId, env.ending.now) then outcome == Propagated && v == w
    else if retryable && w.queue.jobs[jobId].attemptCount < w.queue.jobs[jobId].maxAttempts then
      && outcome == JobRetried && SameMedia(w, v) && JobIs(v, jobId, J.Pending, Some(code), Some(message))
      && w.queue.jobs[jobId].attemptCount >= 1
      && v.queue.jobs[jobId].availableAt
           == env.ending.now + 1_000_000 * Min(settings.retryBase * Backoff.Pow2(w.queue.jobs[jobId].attemptCount - 1), settings.retryMaximum)
    else if env.diesInBetween then
      outcome == WorkerDied && SameMedia(w, v) && JobIs(v, jobId, J.DeadLetter, Some(code), Some(message))
    else
      && outcome == JobDied && MediaEndedAs(v, jobId, AssetStatus.Failed, code, message)
      && (env.reconciliation.others == [] ==> JobIs(v, jobId, J.DeadLetter, Some(code), Some(message)))
  }

  /** The worker carries out a cancellation from state `w`. */
  ghost predicate EndsCancelled(w: World, v: World, outcome: Outcome, jobId: J.JobId, workerId: string, env: Environment) {
    if !J.OwnsLiveLease(w.queue, jobId, workerId, env.ending.now) then outcome == Propagated && v == w
    else if env.diesInBetween then outcome == WorkerDied && SameMedia(w, v) && JobIs(v, jobId, J.Cancelled, None, None)
    else
      && outcome == JobCancelled && MediaEndedAs(v, jobId, AssetStatus.Cancelled, "JOB_CANCELLED", "Background job was cancelled")
      && (env.reconciliation.others == [] ==> JobIs(v, jobId, J.Cancelled, None, None))
  }

  /** The worker completes its job from state `w`, under its live lease; a lost lease is an error that may be retried. */
  ghost predicate EndsCompleting(w: World, v: World, outcome: Outcome, jobId: J.JobId, workerId: string, settings: Settings, env: Environment) {
    var before := Run(w, env.completion.others);
    if J.OwnsLiveLease(before.queue, jobId, workerId, env.completion.now) then
      outcome == JobSucceeded && SameMedia(before, v) && JobIs(v, jobId, J.Succeeded, None, None)
    else
      EndsInError(Run(before, env.ending.others), v, outcome, jobId, workerId, "JOB_LEASE_LOST",
                  "Job lease is no longer owned by this worker", true, settings, env)
  }

  /** A handler returned: its job is completed if its media is consistent, which the check leaves as it is; else that is an error for good. */
  ghost predicate EndsReturned(w: World, v: World, outcome: Outcome, jobId: J.JobId, workerId: string, settings: Settings, env: Environment) {
    var seen := Run(w, env.check.others);
    if HasAsset(seen, jobId) && Consistent(seen, jobId) then EndsCompleting(seen, v, outcome, jobId, workerId, settings, env)
    else
      EndsInError(Run(Apply(seen, EnsureSuccess(jobId, env.check.now)), env.ending.others), v, outcome, jobId, workerId,
                  "MEDIA_ATTEMPT_RECONCILIATION_ERROR", "Media handler completed without consistent terminal state", false, settings, env)
  }

  lemma ConsistentMediaIsKept(w: World, jobId: J.JobId, now: Time)
    requires HasAsset(w, jobId) && Consistent(w, jobId)
    ensures Apply(w, EnsureSuccess(jobId, now)) == w
  {
  }

  lemma CompleteTransaction(w: World, jobId: J.JobId, workerId: string, now: Time)
    requires Reachable(w) && J.OwnsLiveLease(w.queue, jobId, workerId, now)
    ensures var v := Apply(w, JobStep(J.Complete(jobId, workerId, now))); SameMedia(w, v) && JobIs(v, jobId, J.Succeeded, None, None)
  {
    ReachableIsSafe(w);
    FinishAnswerIsLease(w, jobId, workerId, now);
    JT.WorkerEndsTheJob(w.queue, J.Complete(jobId, workerId, now));
    QueueStepKeepsMedia(w, J.Complete(jobId, workerId, now));
  }

  lemma FailTransaction(w: World, jobId: J.JobId, workerId: string, code: string, message: string, retryable: bool, settings: Settings, now: Time)
    requires Reachable(w) && J.OwnsLiveLease(w.queue, jobId, workerId, now)
    ensures var v := Apply(w, JobStep(J.Fail(jobId, workerId, code, message, retryable, settings.retryBase, settings.retryMaximum, now)));
      && SameMedia(w, v) && jobId in v.queue.jobs && w.queue.jobs[jobId].attemptCount >= 1
      && (if retryable && w.queue.jobs[jobId].attemptCount < w.queue.jobs[jobId].maxAttempts then
            && JobIs(v, jobId, J.Pending, Some(code), Some(message))
            && v.queue.jobs[jobId].availableAt
                 == now + 1_000_000 * Min(settings.retryBase * Backoff.Pow2(w.queue.jobs[jobId].attemptCount - 1), settings.retryMaximum)
          else JobIs(v, jobId, J.DeadLetter, Some(code), Some(message)))
  {
    var s := J.Fail(jobId, workerId, code, message, retryable, settings.retryBase, settings.retryMaximum, now);
    ReachableIsSafe(w);
    FinishAnswerIsLease(w, jobId, workerId, now);
    JT.FailureDelaysRetry(w.queue, s, now);
    QueueStepKeepsMedia(w, s);
  }

  lemma CancelTransaction(w: World, jobId: J.JobId, workerId: string, now: Time)
    requires Reachable(w) && J.OwnsLiveLease(w.queue, jobId, workerId, now)
    ensures var v := Apply(w, JobStep(J.MarkCancelled(jobId, workerId, now))); SameMedia(w, v) && JobIs(v, jobId, J.Cancelled, None, None)
  {
    ReachableIsSafe(w);
    FinishAnswerIsLease(w, jobId, workerId, now);
    JT.WorkerEndsTheJob(w.queue, J.MarkCancelled(jobId, workerId, now));
    QueueStepKeepsMedia(w, J.MarkCancelled(jobId, workerId, now));
  }

  lemma QueueStepKeepsMedia(w: World, s: J.Step)
    ensures SameMedia(w, Apply(w, JobStep(s))) && Apply(w, JobStep(s)).queue == J.Apply(w.queue, s)
  {
  }

  lemma ReconciledMedia(w: World, jobId: J.JobId, cancelled: bool, code: string, message: string, now: Time)
    requires HasAsset(w, jobId)
    ensures var v := Apply(w, Reconcile(jobId, cancelled, Some(code), Some(message), now));
      v.queue == w.queue && MediaEndedAs(v, jobId, if cancelled then AssetStatus.Cancelled else AssetStatus.Failed, code, message)
  {
  }

  lemma FailingMeans(w: World, jobId: J.JobId, workerId: string, code: string, message: string, retryable: bool, settings: Settings, env: Environment)
    requires Reachable(w) && jobId in w.mediaJobs
    ensures var e := AfterFailing(w, jobId, FailStep(jobId, workerId, (code, message), retryable, settings, env), env);
      EndsInError(Run(w, env.ending.others), e.world, e.outcome, jobId, workerId, code, message, retryable, settings, env)
  {
    var before := Run(w, env.ending.others);
    ReachableRun(w, env.ending.others);
    LinkStays(w, env.ending.others, jobId);
    FinishAnswerIsLease(before, jobId, workerId, env.ending.now);
    if J.OwnsLiveLease(before.queue, jobId, workerId, env.ending.now) {
      FailedMeans(before, jobId, workerId, code, message, retryable, settings, env);
    }
  }

  lemma FailedMeans(w: World, jobId: J.JobId, workerId: string, code: string, message: string, retryable: bool, settings: Settings, env: Environment)
    requires Reachable(w) && jobId in w.mediaJobs && J.OwnsLiveLease(w.queue, jobId, workerId, env.ending.now)
    ensures var e := AfterFailed(w, jobId, FailStep(jobId, workerId, (code, message), retryable, settings, env), env);
      EndsInError(w, e.world, e.outcome, jobId, workerId, code, message, retryable, settings, env)
  {
    var fail := FailStep(jobId, workerId, (code, message), retryable, settings, env);
    var v := Apply(w, JobStep(fail));
    FailTransaction(w, jobId, workerId, code, message, retryable, settings, env.ending.now);
    ReachableStep(w, JobStep(fail));
    if v.queue.jobs[jobId].status == J.DeadLetter && !env.diesInBetween {
      LinkStays(v, env.reconciliation.others, jobId);
      ReconciledMedia(Run(v, env.reconciliation.others), jobId, false, code, message, env.reconciliation.now);
    }
  }

  lemma CancellingMeans(w: World, jobId: J.JobId, workerId: string, env: Environment)
    requires Reachable(w) && jobId in w.mediaJobs
    ensures var e := AfterCancelling(w, jobId, workerId, env);
      EndsCancelled(Run(w, env.ending.others), e.world, e.outcome, jobId, workerId, env)
  {
    var before := Run(w, env.ending.others);
    var cancel := J.MarkCancelled(jobId, workerId, env.ending.now);
    var v := Apply(before, JobStep(cancel));
    ReachableRun(w, env.ending.others);
    LinkStays(w, env.ending.others, jobId);
    FinishAnswerIsLease(before, jobId, workerId, env.ending.now);
    if J.OwnsLiveLease(before.queue, jobId, workerId, env.ending.now) {
      CancelTransaction(before, jobId, workerId, env.ending.now);
      ReachableStep(before, JobStep(cancel));
      LinkStays(v, env.reconciliation.others, jobId);
      ReconciledMedia(Run(v, env.reconciliation.others), jobId, true, "JOB_CANCELLED", "Background job was cancelled", env.reconciliation.now);
    }
  }

  /** How each way a handler can end is answered: errors by retry, death or silence, cancellations by cancelling, a lost lease by nothing. */
  lemma EndingByCase(w: World, jobId: J.JobId, workerId: string, settings: Settings, end: HandlerEnd, env: Environment)
    requires Reachable(w) && jobId in w.mediaJobs
    ensures var e := AfterHandler(w, jobId, workerId, settings, end, env); end.Raised? && !end.leaseLost ==>
      EndsInError(Run(w, env.ending.others), e.world, e.outcome, jobId, workerId, end.code, end.message, end.retryable, settings, env)
    ensures var e := AfterHandler(w, jobId, workerId, settings, end, env); end == CancellationRaised || (end.TaskCancelled? && end.cancellation) ==>
      EndsCancelled(Run(w, env.ending.others), e.world, e.outcome, jobId, workerId, env)
    ensures end == OwnershipLostRaised || end == Returned(true) || (end.Raised? && end.leaseLost) || end == HandlerEnd.TaskCancelled(false, true) ==>
      AfterHandler(w, jobId, workerId, settings, end, env) == Ending(w, LeaseIsGone)
    ensures end == HandlerEnd.TaskCancelled(false, false) ==> AfterHandler(w, jobId, workerId, settings, end, env) == Ending(w, Propagated)
  {
    match end
    case Raised(code, message, retryable, _) => FailingMeans(w, jobId, workerId, code, message, retryable, settings, env);
    case _ => CancellingMeans(w, jobId, workerId, env);
  }

  class Worker {
    const workerId: string
    const settings: Settings
    const store: MediaStore

    constructor (workerId: string, settings: Settings, store: MediaStore)
      ensures this.workerId == workerId && this.settings == settings && this.store == store
    {
      this.workerId, this.settings, this.store := workerId, settings, store;
    }

    method Interfere(steps: seq<Step>)
      requires Reachable(store.State())
      modifies store
      ensures store.State() == Run(old(store.State()), steps) && Reachable(store.State())
    {
      ReachableRun(store.State(), steps);
      store.Others(steps);
    }

    /** One transaction of the job queue. */
    method QueueStep(step: J.Step) returns (answer: J.Answer)
      requires Reachable(store.State())
      modifies store
      ensures answer == J.AnswerTo(old(store.queue), step)
      ensures store.State() == Apply(old(store.State()), JobStep(step)) && Reachable(store.State())
    {
      answer := J.AnswerTo(store.queue, step);
      ReachableStep(store.State(), JobStep(step));
      store.Become(Apply(store.State(), JobStep(step)));
    }

    method ReconcileMedia(jobId: J.JobId, cancelled: bool, code: string, message: string, at: Moment)
      requires Reachable(store.State()) && jobId in store.mediaJobs
      modifies store
      ensures Reachable(store.State())
      ensures store.State() == Apply(Run(old(store.State()), at.others), Reconcile(jobId, cancelled, Some(code), Some(message), at.now))
      ensures jobId in store.mediaJobs && !Active(store.attempts, store.mediaJobs[jobId])
      ensures MediaEndedAs(store.State(), jobId, if cancelled then AssetStatus.Cancelled else AssetStatus.Failed, code, message)
      ensures at.others == [] ==> store.queue == old(store.queue)
    {
      ghost var s := Reconcile(jobId, cancelled, Some(code), Some(message), at.now);
      LinkStays(store.State(), at.others, jobId);
      Interfere(at.others);
      ReachableStep(store.State(), s);
      ReconciledMedia(store.State(), jobId, cancelled, code, message, at.now);
      store.Reconcile(jobId, cancelled, Some(code), Some(message), at.now);
    }

    /** `_fail`: a lost lease raises; a dead job's media is reconciled in a second transaction. */
    method FailJob(jobId: J.JobId, error: (string, string), retryable: bool, env: Environment) returns (outcome: Outcome)
      requires Reachable(store.State()) && jobId in store.mediaJobs
      modifies store
      ensures Reachable(store.State())
      ensures EndsInError(Run(old(store.State()), env.ending.others), store.State(), outcome, jobId, workerId, error.0, error.1, retryable, settings, env)
      ensures Ending(store.State(), outcome) == AfterFailing(old(store.State()), jobId, FailStep(jobId, workerId, error, retryable, settings, env), env)
      ensures outcome == JobDied ==> jobId in store.mediaJobs && !Active(store.attempts, store.mediaJobs[jobId])
      ensures outcome == JobRetried || outcome == JobDied || outcome == Propagated || outcome == WorkerDied
      ensures outcome != Propagated <==> J.OwnsLiveLease(Run(old(store.State()), env.ending.others).queue, jobId, workerId, env.ending.now)
    {
      LinkStays(store.State(), env.ending.others, jobId);
      Interfere(env.ending.others);
      FinishAnswerIsLease(store.State(), jobId, workerId, env.ending.now);
      if J.OwnsLiveLease(store.queue, jobId, workerId, env.ending.now) {
        FailTransaction(store.State(), jobId, workerId, error.0, error.1, retryable, settings, env.ending.now);
      }
      var answer := QueueStep(J.Fail(jobId, workerId, error.0, error.1, retryable, settings.retryBase, settings.retryMaximum, env.ending.now));
      if answer != J.Done {
        return Propagated;
      }
      if store.queue.jobs[jobId].status == J.DeadLetter {
        if env.diesInBetween {
          return WorkerDied;
        }
        ReconcileMedia(jobId, false, error.0, error.1, env.reconciliation);
        return JobDied;
      }
      return JobRetried;
    }

    /** `_cancel`. */
    method CancelJob(jobId: J.JobId, env: Environment) returns (outcome: Outcome)
      requires Reachable(store.State()) && jobId in store.mediaJobs
      modifies store
      ensures Reachable(store.State())
      ensures EndsCancelled(Run(old(store.State()), env.ending.others), store.State(), outcome, jobId, workerId, env)
      ensures Ending(store.State(), outcome) == AfterCancelling(old(store.State()), jobId, workerId, env)
      ensures outcome == JobCancelled ==> jobId in store.mediaJobs && !Active(store.attempts, store.mediaJobs[jobId])
      ensures outcome == JobCancelled || outcome == Propagated || outcome == WorkerDied
      ensures outcome != Propagated <==> J.OwnsLiveLease(Run(old(store.State()), env.ending.others).queue, jobId, workerId, env.ending.now)
    {
      LinkStays(store.State(), env.ending.others, jobId);
      Interfere(env.ending.others);
      FinishAnswerIsLease(store.State(), jobId, workerId, env.ending.now);
      if J.OwnsLiveLease(store.queue, jobId, workerId, env.ending.now) {
        CancelTransaction(store.State(), jobId, workerId, env.ending.now);
      }
      var answer := QueueStep(J.MarkCancelled(jobId, workerId, env.ending.now));
      if answer != J.Done {
        return Propagated;
      }
      if env.diesInBetween {
        return WorkerDied;
      }
      ReconcileMedia(jobId, true, "JOB_CANCELLED", "Background job was cancelled", env.reconciliation);
      return JobCancelled;
    }

    /**
     The end of `_process` for a media job. When this worker ends the job by failing or cancelling it and lives to
     reconcile it, no attempt of its asset is left STARTED; if it dies in between, one is left exactly if a handler of
     the job had one under way; it completes the job only after seeing the asset reviewable with nothing open; and a
     worker that knows its lease is gone changes nothing.
     */
    method Conclude(jobId: J.JobId, end: HandlerEnd, env: Environment) returns (outcome: Outcome)
      requires Reachable(store.State()) && jobId in store.mediaJobs
      modifies store
      ensures Reachable(store.State())
      ensures Ending(store.State(), outcome) == AfterHandler(old(store.State()), jobId, workerId, settings, end, env)
      ensures end.Raised? && !end.leaseLost ==>
        EndsInError(Run(old(store.State()), env.ending.others), store.State(), outcome, jobId, workerId, end.code, end.message, end.retryable, settings, env)
      ensures end == CancellationRaised || (end.TaskCancelled? && end.cancellation) ==>
        EndsCancelled(Run(old(store.State()), env.ending.others), store.State(), outcome, jobId, workerId, env)
      ensures end == OwnershipLostRaised || end == Returned(true) || (end.Raised? && end.leaseLost) || end == HandlerEnd.TaskCancelled(false, true) ==>
        outcome == LeaseIsGone && store.State() == old(store.State())
      ensures end == HandlerEnd.TaskCancelled(false, false) ==> outcome == Propagated && store.State() == old(store.State())
      ensures end == Returned(false) ==> EndsReturned(old(store.State()), store.State(), outcome, jobId, workerId, settings, env)
      ensures outcome == JobDied || outcome == JobCancelled ==> jobId in store.mediaJobs && !Active(store.attempts, store.mediaJobs[jobId])
      ensures outcome == JobSucceeded ==> end == Returned(false) && jobId in store.queue.jobs && store.queue.jobs[jobId].status == J.Succeeded
      ensures outcome == JobSucceeded ==>
        HasAsset(Run(old(store.State()), env.check.others), jobId) && Consistent(Run(old(store.State()), env.check.others), jobId)
    {
      match end {
        case Returned(leaseLost) =>
          if leaseLost {
            return LeaseIsGone;
          }
          outcome := CheckAndComplete(jobId, env);
        case CancellationRaised =>
          outcome := CancelJob(jobId, env);
        case TaskCancelled(cancellation, leaseLost) =>
          if cancellation {
            outcome := CancelJob(jobId, env);
          } else if leaseLost {
            outcome := LeaseIsGone;
          } else {
            outcome := Propagated;
          }
        case OwnershipLostRaised =>
          outcome := LeaseIsGone;
        case Raised(code, message, retryable, leaseLost) =>
          if leaseLost {
            return LeaseIsGone;
          }
          outcome := FailJob(jobId, (code, message), retryable, env);
      }
    }

    method CheckConsistency(jobId: J.JobId, at: Moment) returns (consistent: bool)
      requires Reachable(store.State()) && jobId in store.mediaJobs
      modifies store
      ensures Reachable(store.State()) && jobId in store.mediaJobs
      ensures HasAsset(Run(old(store.State()), at.others), jobId)
      ensures consistent <==> Consistent(Run(old(store.State()), at.others), jobId)
      ensures store.State() == Apply(Run(old(store.State()), at.others), EnsureSuccess(jobId, at.now))
    {
      LinkStays(store.State(), at.others, jobId);
      Interfere(at.others);
      ReachableStep(store.State(), EnsureSuccess(jobId, at.now));
      consistent := store.EnsureSuccessConsistency(jobId, at.now);
    }

    /** The completion, or the failure it turns into when the lease is no longer ours. */
    method CompleteJob(jobId: J.JobId, env: Environment) returns (outcome: Outcome)
      requires Reachable(store.State()) && jobId in store.mediaJobs
      modifies store
      ensures Reachable(store.State())
      ensures var before := Run(old(store.State()), env.completion.others); var complete := J.Complete(jobId, workerId, env.completion.now);
        Ending(store.State(), outcome)
          == if J.AnswerTo(before.queue, complete) == J.Done then Ending(Apply(before, JobStep(complete)), JobSucceeded)
             else AfterFailing(before, jobId, FailStep(jobId, workerId, LEASE_LOST, true, settings, env), env)
      ensures EndsCompleting(old(store.State()), store.State(), outcome, jobId, workerId, settings, env)
      ensures outcome == JobDied ==> jobId in store.mediaJobs && !Active(store.attempts, store.mediaJobs[jobId])
      ensures outcome == JobSucceeded ==> jobId in store.queue.jobs && store.queue.jobs[jobId].status == J.Succeeded
      ensures outcome == JobSucceeded || outcome == JobRetried || outcome == JobDied || outcome == Propagated || outcome == WorkerDied
    {
      LinkStays(store.State(), env.completion.others, jobId);
      Interfere(env.completion.others);
      FinishAnswerIsLease(store.State(), jobId, workerId, env.completion.now);
      if J.OwnsLiveLease(store.queue, jobId, workerId, env.completion.now) {
        CompleteTransaction(store.State(), jobId, workerId, env.completion.now);
      }
      var answer := QueueStep(J.Complete(jobId, workerId, env.completion.now));
      if answer == J.Done {
        return JobSucceeded;
      }
      outcome := FailJob(jobId, LEASE_LOST, true, env);
    }

    /** The success path: consistency check, then completion. */
    method CheckAndComplete(jobId: J.JobId, env: Environment) returns (outcome: Outcome)
      requires Reachable(store.State()) && jobId in store.mediaJobs
      modifies store
      ensures Reachable(store.State())
      ensures Ending(store.State(), outcome) == AfterReturning(old(store.State()), jobId, workerId, settings, env)
      ensures EndsReturned(old(store.State()), store.State(), outcome, jobId, workerId, settings, env)
      ensures outcome == JobDied ==> jobId in store.mediaJobs && !Active(store.attempts, store.mediaJobs[jobId])
      ensures outcome == JobSucceeded || outcome == JobRetried || outcome == JobDied || outcome == Propagated || outcome == WorkerDied
      ensures outcome == JobSucceeded ==> jobId in store.queue.jobs && store.queue.jobs[jobId].status == J.Succeeded
      ensures outcome == JobSucceeded ==>
        HasAsset(Run(old(store.State()), env.check.others), jobId) && Consistent(Run(old(store.State()), env.check.others), jobId)
    {
      var consistent := CheckConsistency(jobId, env.check);
      if consistent {
        ConsistentMediaIsKept(Run(old(store.State()), env.check.others), jobId, env.check.now);
        outcome := CompleteJob(jobId, env);
      } else {
        outcome := FailJob(jobId, INCONSISTENT, false, env);
      }
    }
  }

  lemma {:induction false} LinkStays(w: World, steps: seq<Step>, jobId: J.JobId)
    requires Reachable(w) && jobId in w.mediaJobs
    ensures jobId in Run(w, steps).mediaJobs && Run(w, steps).mediaJobs[jobId] == w.mediaJobs[jobId]
    ensures HasAsset(Run(w, steps), jobId)
    decreases |steps|
  {
    ReachableIsSafe(w);
    if steps == [] {
    } else {
      StepKeepsLinks(w, steps[0]);
      ReachableStep(w, steps[0]);
      LinkStays(Apply(w, steps[0]), steps[1..], jobId);
    }
  }

  /** `v` is `w` after a transaction that ended the job. */
  ghost predicate IsEndOf(w: World, v: World, jobId: J.JobId) {
    exists s: J.Step ::
      s.id == jobId && J.AnswerTo(w.queue, s) == J.Done && v == Apply(w, JobStep(s)) && ME.JobHasEnded(v, jobId)
  }

  lemma FailingDies(w: World, jobId: J.JobId, fail: J.Step, env: Environment)
    requires fail.Fail? && fail.id == jobId && AfterFailing(w, jobId, fail, env).outcome == WorkerDied
    ensures IsEndOf(Run(w, env.ending.others), AfterFailing(w, jobId, fail, env).world, jobId)
  {
    assert AfterFailing(w, jobId, fail, env).world == Apply(Run(w, env.ending.others), JobStep(fail));
  }

  lemma CancellingDies(w: World, jobId: J.JobId, workerId: string, env: Environment)
    requires AfterCancelling(w, jobId, workerId, env).outcome == WorkerDied
    ensures IsEndOf(Run(w, env.ending.others), AfterCancelling(w, jobId, workerId, env).world, jobId)
  {
    var s := J.MarkCancelled(jobId, workerId, env.ending.now);
    var before := Run(w, env.ending.others);
    assert J.AnswerTo(before.queue, s) == J.Done && AfterCancelling(w, jobId, workerId, env).world == Apply(before, JobStep(s));
    ME.QueueStepsKeepAttempts(before, s);
  }

  lemma HandlerDies(w: World, jobId: J.JobId, workerId: string, settings: Settings, end: HandlerEnd, env: Environment)
    requires AfterHandler(w, jobId, workerId, settings, end, env).outcome == WorkerDied
    ensures IsEndOf(BeforeEnding(w, jobId, workerId, settings, end, env), AfterHandler(w, jobId, workerId, settings, end, env).world, jobId)
  {
    match end
    case Returned(leaseLost) =>
      var seen := Run(w, env.check.others);
      var checked := Apply(seen, EnsureSuccess(jobId, env.check.now));
      if HasAsset(seen, jobId) && Consistent(seen, jobId) {
        FailingDies(Run(checked, env.completion.others), jobId, FailStep(jobId, workerId, LEASE_LOST, true, settings, env), env);
      } else {
        FailingDies(checked, jobId, FailStep(jobId, workerId, INCONSISTENT, false, settings, env), env);
      }
    case Raised(code, message, retryable, _) =>
      FailingDies(w, jobId, FailStep(jobId, workerId, (code, message), retryable, settings, env), env);
    case _ =>
      CancellingDies(w, jobId, workerId, env);
  }

  /** Dying between the two last transactions leaves an attempt open exactly if some handler of the job had one under way. */
  lemma DeathInBetweenLeavesOpenIff(w: World, jobId: J.JobId, workerId: string, settings: Settings, end: HandlerEnd, env: Environment)
    requires Reachable(w) && jobId in w.mediaJobs && AfterHandler(w, jobId, workerId, settings, end, env).outcome == WorkerDied
    ensures var v := AfterHandler(w, jobId, workerId, settings, end, env).world;
      && jobId in v.mediaJobs && ME.JobHasEnded(v, jobId)
      && (Active(v.attempts, v.mediaJobs[jobId]) <==> ME.HasOpenRun(BeforeEnding(w, jobId, workerId, settings, end, env), jobId))
  {
    var before := BeforeEnding(w, jobId, workerId, settings, end, env);
    EndingIsReachable(w, jobId, workerId, settings, end, env);
    HandlerDies(w, jobId, workerId, settings, end, env);
    EndKeepsAttempts(before, AfterHandler(w, jobId, workerId, settings, end, env).world, jobId);
    ReachableIsSafe(before);
    ME.OpenAttemptsAreOpenRuns(before, jobId);
  }

  lemma EndKeepsAttempts(w: World, v: World, jobId: J.JobId)
    requires IsEndOf(w, v, jobId)
    ensures v.attempts == w.attempts && v.mediaJobs == w.mediaJobs && ME.JobHasEnded(v, jobId)
  {
    var s: J.Step :| s.id == jobId && J.AnswerTo(w.queue, s) == J.Done && v == Apply(w, JobStep(s)) && ME.JobHasEnded(v, jobId);
    ME.QueueStepsKeepAttempts(w, s);
  }

  /** The state in which the transaction that ends the job runs. */
  ghost function BeforeEnding(w: World, jobId: J.JobId, workerId: string, settings: Settings, end: HandlerEnd, env: Environment): World {
    var from :=
      if end != Returned(false) then w
      else
        var seen := Run(w, env.check.others);
        var checked := Apply(seen, EnsureSuccess(jobId, env.check.now));
        if HasAsset(seen, jobId) && Consistent(seen, jobId) then Run(checked, env.completion.others) else checked;
    Run(from, env.ending.others)
  }

  lemma EndingIsReachable(w: World, jobId: J.JobId, workerId: string, settings: Settings, end: HandlerEnd, env: Environment)
    requires Reachable(w) && jobId in w.mediaJobs
    ensures Reachable(BeforeEnding(w, jobId, workerId, settings, end, env)) && jobId in BeforeEnding(w, jobId, workerId, settings, end, env).mediaJobs
  {
    var seen := Run(w, env.check.others);
    var checked := Apply(seen, EnsureSuccess(jobId, env.check.now));
    ReachableRun(w, env.check.others);
    ReachableStep(seen, EnsureSuccess(jobId, env.check.now));
    ReachableRun(checked, env.completion.others);
    ReachableRun(checked, env.ending.others);
    ReachableRun(Run(checked, env.completion.others), env.ending.others);
    ReachableRun(w, env.ending.others);
    LinkStays(w, env.check.others, jobId);
    LinkStays(w, env.ending.others, jobId);
    LinkStays(seen, [EnsureSuccess(jobId, env.check.now)], jobId);
    assert Run(seen, [EnsureSuccess(jobId, env.check.now)]) == Run(checked, []);
    LinkStays(checked, env.completion.others, jobId);
    LinkStays(checked, env.ending.others, jobId);
    LinkStays(Run(checked, env.completion.others), env.ending.others, jobId);
  }

  /** In a reachable state the audit row is there, so the lease alone decides whether a job can be finished. */
  lemma FinishAnswerIsLease(w: World, jobId: J.JobId, workerId: string, now: Time)
    requires Reachable(w)
    ensures J.FinishAnswer(w.queue, jobId, workerId, now) == (if J.OwnsLiveLease(w.queue, jobId, workerId, now) then J.Done else J.LeaseIsLost)
  {
    ReachableIsSafe(w);
    if jobId in w.queue.jobs {
      assert JS.AuditOk(w.queue, jobId);
    }
  }
}
