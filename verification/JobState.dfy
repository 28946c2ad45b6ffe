/** Background jobs, their numbered attempt audit, and every transaction of app/repositories/job_repository.py as one step. */
module JobState {
  import opened Wrappers
  import Backoff

  type JobId = nat

  datatype Status = Pending | Running | Succeeded | Failed | Cancelled | DeadLetter

  datatype AttemptStatus = AttemptRunning | AttemptSucceeded | AttemptFailed | AttemptCancelled

  datatype Job = Job(
    jobType: string,
    key: string,
    status: Status,
    priority: int,
    attemptCount: nat,
    maxAttempts: int,
    availableAt: Time,
    lockedBy: Option<string>,
    lockedAt: Option<Time>,
    leaseExpiresAt: Option<Time>,
    heartbeatAt: Option<Time>,
    cancelRequested: bool,
    createdAt: Time,
    startedAt: Option<Time>,
    completedAt: Option<Time>,
    errorCode: Option<string>,
    errorMessage: Option<string>)

  datatype Attempt = Attempt(
    workerId: string,
    status: AttemptStatus,
    startedAt: Time,
    completedAt: Option<Time>,
    durationMs: Option<int>,
    errorCode: Option<string>,
    errorMessage: Option<string>)

  /** The audit table's unique constraint on (job, attempt number) is its key. */
  type AttemptKey = (JobId, nat)

  datatype Queue = Queue(jobs: map<JobId, Job>, attempts: map<AttemptKey, Attempt>)

  const EMPTY := Queue(map[], map[])

  /** What a transaction answers; anything but Done rolled back. */
  datatype Answer = Done | LeaseIsLost | Conflict(message: string)

  const AUDIT_MISSING := "Active job attempt audit is missing"
  const NUMBER_TAKEN := "Attempt number is taken"

  predicate KeyTaken(q: Queue, key: string) {
    exists id :: id in q.jobs && q.jobs[id].key == key
  }

  predicate Leasable(j: Job, now: Time) {
    j.status == Pending && j.availableAt <= now && !j.cancelRequested
  }

  predicate Stale(j: Job, now: Time) {
    j.status == Running && j.leaseExpiresAt.Some? && j.leaseExpiresAt.value <= now
  }

  predicate OwnsLiveLease(q: Queue, id: JobId, workerId: string, now: Time) {
    && id in q.jobs
    && q.jobs[id].status == Running
    && q.jobs[id].lockedBy == Some(workerId)
    && q.jobs[id].leaseExpiresAt.Some? && q.jobs[id].leaseExpiresAt.value > now
  }

  function ClearedLease(j: Job): Job {
    j.(lockedBy := None, lockedAt := None, leaseExpiresAt := None, heartbeatAt := None)
  }

  /** `max_attempts or default`: zero counts as absent. */
  function EffectiveMaxAttempts(maxAttempts: Option<int>, default: int): int {
    if maxAttempts.Some? && maxAttempts.value != 0 then maxAttempts.value else default
  }

  function NewJob(jobType: string, key: string, priority: int, maxAttempts: int, availableAt: Time, now: Time): Job {
    Job(jobType, key, Pending, Min(Max(priority, 0), 100), 0, maxAttempts, availableAt,
        None, None, None, None, false, now, None, None, None, None)
  }

  function LeasedJob(j: Job, workerId: string, leaseSeconds: int, now: Time): Job {
    j.(status := Running, lockedBy := Some(workerId), lockedAt := Some(now), heartbeatAt := Some(now),
       leaseExpiresAt := Some(now + Seconds(leaseSeconds)), startedAt := if j.startedAt.Some? then j.startedAt else Some(now),
       attemptCount := j.attemptCount + 1, errorCode := None, errorMessage := None)
  }

  function NewAttempt(workerId: string, now: Time): Attempt {
    Attempt(workerId, AttemptRunning, now, None, None, None, None)
  }

  predicate HasActiveAttempt(q: Queue, id: JobId) {
    id in q.jobs && (id, q.jobs[id].attemptCount) in q.attempts && q.attempts[(id, q.jobs[id].attemptCount)].status == AttemptRunning
  }

  /** Writes the worker id along with the outcome, as the source does. */
  function Finished(a: Attempt, workerId: string, status: AttemptStatus, now: Time, code: Option<string>, message: Option<string>): Attempt {
    a.(workerId := workerId, status := status, completedAt := Some(now), durationMs := Some(Max((now - a.startedAt) / 1000, 0)),
       errorCode := code, errorMessage := message)
  }

  /** The job after an attempt failed: back to PENDING with a delay while attempts remain, else DEAD_LETTER. */
  function AfterFailure(j: Job, code: string, message: string, retryable: bool, base: int, maximum: int, now: Time): Job {
    var k := ClearedLease(j).(errorCode := Some(code), errorMessage := Some(message));
    if retryable && j.attemptCount < j.maxAttempts then
      k.(status := Pending, availableAt := now + Seconds(Backoff.Delay(j.attemptCount, base, maximum)))
    else
      k.(status := DeadLetter, completedAt := Some(now))
  }

  function Retried(j: Job, now: Time): Job {
    ClearedLease(j).(status := Pending, cancelRequested := false, availableAt := now, completedAt := None, errorCode := None,
                     errorMessage := None, maxAttempts := if j.attemptCount >= j.maxAttempts then j.attemptCount + 1 else j.maxAttempts)
  }

  /** `locked_by or "expired-worker"`: an empty worker id falls back too. */
  function ReclaimedFrom(j: Job): string {
    if j.lockedBy.Some? && j.lockedBy.value != "" then j.lockedBy.value else EXPIRED_WORKER
  }

  const EXPIRED_WORKER := "expired-worker"
  const LEASE_EXPIRED := "JOB_LEASE_EXPIRED"
  const LEASE_EXPIRED_MESSAGE := "Worker lease expired before completion"

  /** Closes the job's active attempt and replaces the job. */
  function Close(q: Queue, id: JobId, job: Job, workerId: string, status: AttemptStatus, now: Time,
                 code: Option<string>, message: Option<string>): Queue
    requires HasActiveAttempt(q, id)
  {
    var key := (id, q.jobs[id].attemptCount);
    Queue(q.jobs[id := job], q.attempts[key := Finished(q.attempts[key], workerId, status, now, code, message)])
  }

  datatype Step =
    | Enqueue(id: JobId, jobType: string, key: string, priority: int, maxAttempts: Option<int>, default: int, availableAt: Option<Time>, now: Time)
    | Lease(id: JobId, workerId: string, leaseSeconds: int, now: Time)
    | Heartbeat(id: JobId, workerId: string, leaseSeconds: int, now: Time)
    | Complete(id: JobId, workerId: string, now: Time)
    | Fail(id: JobId, workerId: string, code: string, message: string, retryable: bool, base: int, maximum: int, now: Time)
    | Cancel(id: JobId, now: Time)
    | MarkCancelled(id: JobId, workerId: string, now: Time)
    | Retry(id: JobId, now: Time)
    | Reclaim(id: JobId, base: int, maximum: int, now: Time)

  /** What the step's transaction answers. A lease or reclaim of a row its query would not return is not attempted. */
  function AnswerTo(q: Queue, s: Step): Answer {
    match s
    case Enqueue(id, _, key, _, maxAttempts, default, _, _) =>
      if id in q.jobs || EffectiveMaxAttempts(maxAttempts, default) <= 0 then Conflict("Unable to persist background job")
      else if KeyTaken(q, key) then Conflict("Existing job returned")
      else Done
    case Lease(id, _, _, now) =>
      if id !in q.jobs || !Leasable(q.jobs[id], now) then Conflict("Not selected")
      else if (id, q.jobs[id].attemptCount + 1) in q.attempts then Conflict(NUMBER_TAKEN)
      else Done
    case Heartbeat(id, workerId, _, now) => if OwnsLiveLease(q, id, workerId, now) then Done else LeaseIsLost
    case Complete(id, workerId, now) => FinishAnswer(q, id, workerId, now)
    case Fail(id, workerId, _, _, _, _, _, now) => FinishAnswer(q, id, workerId, now)
    case MarkCancelled(id, workerId, now) => FinishAnswer(q, id, workerId, now)
    case Cancel(id, _) =>
      if id !in q.jobs then Conflict("Job is unavailable")
      else if q.jobs[id].status == Failed || q.jobs[id].status == DeadLetter then Conflict("Job cannot be cancelled in its current state")
      else Done
    case Retry(id, _) =>
      if id !in q.jobs then Conflict("Job is unavailable")
      else if q.jobs[id].status == Failed || q.jobs[id].status == DeadLetter || q.jobs[id].status == Cancelled then Done
      else Conflict("Job is not retryable in its current state")
    case Reclaim(id, _, _, now) =>
      if id !in q.jobs || !Stale(q.jobs[id], now) then Conflict("Not selected")
      else if !HasActiveAttempt(q, id) then Conflict(AUDIT_MISSING)
      else Done
  }

  function FinishAnswer(q: Queue, id: JobId, workerId: string, now: Time): Answer {
    if !OwnsLiveLease(q, id, workerId, now) then LeaseIsLost
    else if !HasActiveAttempt(q, id) then Conflict(AUDIT_MISSING)
    else Done
  }

  function Effect(q: Queue, s: Step): Queue
    requires AnswerTo(q, s) == Done
  {
    match s
    case Enqueue(id, jobType, key, priority, maxAttempts, default, availableAt, now) =>
      var available := if availableAt.Some? then availableAt.value else now;
      q.(jobs := q.jobs[id := NewJob(jobType, key, priority, EffectiveMaxAttempts(maxAttempts, default), available, now)])
    case Lease(id, workerId, leaseSeconds, now) =>
      var job := LeasedJob(q.jobs[id], workerId, leaseSeconds, now);
      Queue(q.jobs[id := job], q.attempts[(id, job.attemptCount) := NewAttempt(workerId, now)])
    case Heartbeat(id, _, leaseSeconds, now) =>
      q.(jobs := q.jobs[id := q.jobs[id].(heartbeatAt := Some(now), leaseExpiresAt := Some(now + Seconds(leaseSeconds)))])
    case Complete(id, workerId, now) =>
      Close(q, id, ClearedLease(q.jobs[id]).(status := Succeeded, completedAt := Some(now)), workerId, AttemptSucceeded, now, None, None)
    case Fail(id, workerId, code, message, retryable, base, maximum, now) =>
      Close(q, id, AfterFailure(q.jobs[id], code, message, retryable, base, maximum, now), workerId, AttemptFailed, now, Some(code), Some(message))
    case MarkCancelled(id, workerId, now) =>
      Close(q, id, ClearedLease(q.jobs[id]).(status := Cancelled, cancelRequested := true, completedAt := Some(now)),
            workerId, AttemptCancelled, now, None, None)
    case Cancel(id, now) =>
      var job := q.jobs[id];
      if job.status == Pending then q.(jobs := q.jobs[id := job.(status := Cancelled, cancelRequested := true, completedAt := Some(now))])
      else if job.status == Running then q.(jobs := q.jobs[id := job.(cancelRequested := true)])
      else q
    case Retry(id, now) => q.(jobs := q.jobs[id := Retried(q.jobs[id], now)])
    case Reclaim(id, base, maximum, now) =>
      Close(q, id, AfterFailure(q.jobs[id], LEASE_EXPIRED, LEASE_EXPIRED_MESSAGE, true, base, maximum, now),
            ReclaimedFrom(q.jobs[id]), AttemptFailed, now, Some(LEASE_EXPIRED), Some(LEASE_EXPIRED_MESSAGE))
  }

  function Apply(q: Queue, s: Step): Queue {
    if AnswerTo(q, s) == Done then Effect(q, s) else q
  }

  function Run(q: Queue, steps: seq<Step>): Queue
    decreases |steps|
  {
    if steps == [] then q else Run(Apply(q, steps[0]), steps[1..])
  }

  lemma {:induction false} RunAppend(q: Queue, a: seq<Step>, b: seq<Step>)
    ensures Run(q, a + b) == Run(Run(q, a), b)
    decreases |a|
  {
    if a == [] {
      assert a + b == b;
    } else {
      assert (a + b)[0] == a[0] && (a + b)[1..] == a[1..] + b;
      RunAppend(Apply(q, a[0]), a[1..], b);
    }
  }
}
