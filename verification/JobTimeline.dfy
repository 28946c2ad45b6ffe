/**
 When a job can be leased, how long a lease lasts and what each transaction leaves in the job and its attempt, in
 seconds and column by column: what a worker or an operator can observe.
 */
module JobTimeline {
  import opened Wrappers
  import opened JobState
  import opened JobSafety
  import opened Backoff

  const SECOND := 1_000_000

  /** A worker can lease the job at `x`. */
  ghost predicate LeasableAt(q: Queue, id: JobId, x: Time) {
    AnswerTo(q, Lease(id, "", 0, x)) == Done
  }

  /** It is the same for any worker and any lease time, and the attempt number is always free. */
  lemma AnyWorkerCanLease(q: Queue, id: JobId, worker: string, seconds: int, x: Time)
    requires Inv(q)
    ensures AnswerTo(q, Lease(id, worker, seconds, x)) == Done <==> LeasableAt(q, id, x)
    ensures LeasableAt(q, id, x) <==> id in q.jobs && q.jobs[id].status == Pending && !q.jobs[id].cancelRequested && x >= q.jobs[id].availableAt
  {
    if id in q.jobs {
      assert AuditOk(q, id);
    }
  }

  predicate Released(j: Job) {
    j.lockedBy == None && j.lockedAt == None && j.leaseExpiresAt == None && j.heartbeatAt == None
  }

  /** Columns that only the enqueueing call writes. */
  predicate KeepsIdentity(j: Job, k: Job) {
    j.jobType == k.jobType && j.key == k.key && j.priority == k.priority && j.createdAt == k.createdAt
  }

  /** Whole milliseconds from `start` to `end`, none if the clock went backwards. */
  predicate IsDuration(ms: Option<int>, start: Time, end: Time) {
    && ms.Some?
    && (end >= start ==> 1000 * ms.value <= end - start < 1000 * (ms.value + 1))
    && (end < start ==> ms.value == 0)
  }

  /** Attempt `n` was closed at `now`. */
  predicate ClosedAs(a: Attempt, b: Attempt, status: AttemptStatus, now: Time, code: Option<string>, message: Option<string>) {
    && b.status == status && b.startedAt == a.startedAt && b.completedAt == Some(now) && IsDuration(b.durationMs, a.startedAt, now)
    && b.errorCode == code && b.errorMessage == message
  }

  /** A job waits from its time on, now if none is given, with its priority cut to 0..100 and a positive budget. */
  lemma EnqueuedJobIsDue(q: Queue, s: Step, x: Time)
    requires Inv(q) && s.Enqueue? && AnswerTo(q, s) == Done
    ensures var p := Apply(q, s);
      && s.id in p.jobs && s.id !in q.jobs && p.jobs[s.id].jobType == s.jobType && p.jobs[s.id].key == s.key
      && (LeasableAt(p, s.id, x) <==> x >= (match s.availableAt case Some(t) => t case None => s.now))
      && p.jobs[s.id].maxAttempts == (if s.maxAttempts.Some? && s.maxAttempts.value != 0 then s.maxAttempts.value else s.default) >= 1
      && p.jobs[s.id].attemptCount == 0 && p.jobs[s.id].createdAt == s.now && Released(p.jobs[s.id])
      && 0 <= p.jobs[s.id].priority <= 100
      && (0 <= s.priority <= 100 ==> p.jobs[s.id].priority == s.priority)
      && (s.priority < 0 ==> p.jobs[s.id].priority == 0) && (s.priority > 100 ==> p.jobs[s.id].priority == 100)
  {
    StepKeepsInv(q, s);
    AnyWorkerCanLease(Apply(q, s), s.id, "", 0, x);
  }

  /** A lease counts one attempt and opens its audit row; its worker, and nobody else, holds it for exactly the lease time, and from then on, no sooner, it can be reclaimed. */
  lemma LeaseLastsItsTime(q: Queue, id: JobId, worker: string, seconds: int, now: Time, other: string, x: Time, base: int, maximum: int)
    requires Inv(q) && AnswerTo(q, Lease(id, worker, seconds, now)) == Done
    ensures var p, n := Apply(q, Lease(id, worker, seconds, now)), q.jobs[id].attemptCount + 1;
      && id in p.jobs && KeepsIdentity(q.jobs[id], p.jobs[id]) && p.jobs[id].attemptCount == n && p.jobs[id].maxAttempts == q.jobs[id].maxAttempts
      && (OwnsLiveLease(p, id, other, x) <==> other == worker && x < now + seconds * SECOND)
      && (AnswerTo(p, Reclaim(id, base, maximum, x)) == Done <==> x >= now + seconds * SECOND)
      && !LeasableAt(p, id, x)
      && (id, n) in p.attempts && p.attempts[(id, n)] == Attempt(worker, AttemptRunning, now, None, None, None, None)
      && p.jobs[id].lockedAt == Some(now) && p.jobs[id].heartbeatAt == Some(now)
      && p.jobs[id].startedAt == (if q.jobs[id].startedAt.Some? then q.jobs[id].startedAt else Some(now))
      && p.jobs[id].errorCode == None && p.jobs[id].errorMessage == None
  {
    var p := Apply(q, Lease(id, worker, seconds, now));
    StepKeepsInv(q, Lease(id, worker, seconds, now));
    assert AuditOk(p, id);
  }

  /** A heartbeat starts the lease time again and changes nothing else. */
  lemma HeartbeatRestartsTheLease(q: Queue, id: JobId, worker: string, seconds: int, now: Time, other: string, x: Time)
    requires Inv(q) && OwnsLiveLease(q, id, worker, now)
    ensures var p := Apply(q, Heartbeat(id, worker, seconds, now));
      && (OwnsLiveLease(p, id, other, x) <==> other == worker && x < now + seconds * SECOND)
      && p.jobs[id].heartbeatAt == Some(now) && p.attempts == q.attempts
      && p.jobs[id].(heartbeatAt := None, leaseExpiresAt := None) == q.jobs[id].(heartbeatAt := None, leaseExpiresAt := None)
  {
  }

  /** The wait after attempt `n`, in microseconds. */
  function Wait(n: nat, base: int, maximum: int): int {
    if n == 0 then SECOND * base else SECOND * Min(base * Pow2(n - 1), maximum)
  }

  /** What a failed attempt `n` leaves: the job waits if it may be retried and is dead otherwise; the attempt is closed. */
  ghost predicate FailedOnce(q: Queue, p: Queue, id: JobId, again: bool, wait: int, now: Time, code: string, message: string, x: Time)
    requires id in q.jobs && id in p.jobs
  {
    var j, k, key := q.jobs[id], p.jobs[id], (id, q.jobs[id].attemptCount);
    && KeepsIdentity(j, k) && k.attemptCount == j.attemptCount && k.maxAttempts == j.maxAttempts && k.cancelRequested == j.cancelRequested
    && k.errorCode == Some(code) && k.errorMessage == Some(message) && Released(k)
    && (again ==> k.status == Pending && k.availableAt == now + wait)
    && (!again ==> k.status == DeadLetter && k.completedAt == Some(now))
    && (LeasableAt(p, id, x) <==> again && !j.cancelRequested && x >= now + wait)
    && key in q.attempts && key in p.attempts && ClosedAs(q.attempts[key], p.attempts[key], AttemptFailed, now, Some(code), Some(message))
  }

  /** A failure the worker reports: nobody can lease the job before the wait is over, and from then on anybody can, if and only if it may be retried. */
  lemma FailureDelaysRetry(q: Queue, s: Step, x: Time)
    requires Inv(q) && s.Fail? && AnswerTo(q, s) == Done
    ensures s.id in Apply(q, s).jobs && s.id in q.jobs && q.jobs[s.id].attemptCount >= 1
    ensures FailedOnce(q, Apply(q, s), s.id, s.retryable && q.jobs[s.id].attemptCount < q.jobs[s.id].maxAttempts,
                       Wait(q.jobs[s.id].attemptCount, s.base, s.maximum), s.now, s.code, s.message, x)
  {
    StepKeepsInv(q, s);
    assert AuditOk(q, s.id) && JobOk(q.jobs[s.id]);
    AnyWorkerCanLease(Apply(q, s), s.id, "", 0, x);
  }

  /** An expired lease counts as a failure that may be retried. */
  lemma ReclaimDelaysRetry(q: Queue, s: Step, x: Time)
    requires Inv(q) && s.Reclaim? && AnswerTo(q, s) == Done
    ensures s.id in Apply(q, s).jobs && s.id in q.jobs && q.jobs[s.id].attemptCount >= 1
    ensures FailedOnce(q, Apply(q, s), s.id, q.jobs[s.id].attemptCount < q.jobs[s.id].maxAttempts,
                       Wait(q.jobs[s.id].attemptCount, s.base, s.maximum), s.now, "JOB_LEASE_EXPIRED", "Worker lease expired before completion", x)
  {
    StepKeepsInv(q, s);
    assert AuditOk(q, s.id) && JobOk(q.jobs[s.id]);
    AnyWorkerCanLease(Apply(q, s), s.id, "", 0, x);
  }

  /** The closed attempt keeps the worker that held the job, or a fixed name if that was empty. */
  lemma ReclaimNamesWorker(q: Queue, s: Step)
    requires Inv(q) && s.Reclaim? && AnswerTo(q, s) == Done
    ensures var key := (s.id, q.jobs[s.id].attemptCount);
      key in Apply(q, s).attempts
      && Some(Apply(q, s).attempts[key].workerId) == (if q.jobs[s.id].lockedBy == Some("") then Some("expired-worker") else q.jobs[s.id].lockedBy)
  {
    assert AuditOk(q, s.id);
  }

  /** Completion and the worker's own cancellation end job and attempt together. */
  lemma WorkerEndsTheJob(q: Queue, s: Step)
    requires Inv(q) && (s.Complete? || s.MarkCancelled?) && AnswerTo(q, s) == Done
    ensures var p, key := Apply(q, s), (s.id, q.jobs[s.id].attemptCount);
      && s.id in p.jobs && KeepsIdentity(q.jobs[s.id], p.jobs[s.id]) && Released(p.jobs[s.id]) && p.jobs[s.id].completedAt == Some(s.now)
      && p.jobs[s.id].status == (if s.Complete? then Succeeded else Cancelled)
      && p.jobs[s.id].cancelRequested == (s.MarkCancelled? || q.jobs[s.id].cancelRequested)
      && key in q.attempts && key in p.attempts
      && ClosedAs(q.attempts[key], p.attempts[key], if s.Complete? then AttemptSucceeded else AttemptCancelled, s.now, None, None)
  {
    assert AuditOk(q, s.id);
  }

  /** An operator's cancel ends a waiting job at once, flags a running one, and leaves an ended one as it was. */
  lemma CancelByStatus(q: Queue, id: JobId, now: Time)
    requires Inv(q) && id in q.jobs
    ensures AnswerTo(q, Cancel(id, now)) == Done <==> q.jobs[id].status != DeadLetter
    ensures var j, p := q.jobs[id], Apply(q, Cancel(id, now));
      && p.attempts == q.attempts && id in p.jobs
      && (j.status == Pending ==> p.jobs[id] == j.(status := Cancelled, cancelRequested := true, completedAt := Some(now)))
      && (j.status == Running ==> p.jobs[id] == j.(cancelRequested := true))
      && (j.status != Pending && j.status != Running ==> p.jobs[id] == j)
  {
    assert JobOk(q.jobs[id]);
  }

  /** An operator's retry makes an ended job leasable from now on with at least one attempt, adding one only if none was left. */
  lemma RetryGivesAnAttempt(q: Queue, id: JobId, now: Time, x: Time)
    requires Inv(q) && AnswerTo(q, Retry(id, now)) == Done
    ensures q.jobs[id].status == DeadLetter || q.jobs[id].status == Cancelled
    ensures var j, p := q.jobs[id], Apply(q, Retry(id, now));
      && id in p.jobs && KeepsIdentity(j, p.jobs[id]) && p.attempts == q.attempts && p.jobs[id].attemptCount == j.attemptCount
      && (LeasableAt(p, id, x) <==> x >= now) && p.jobs[id].attemptCount < p.jobs[id].maxAttempts
      && p.jobs[id].maxAttempts == j.maxAttempts + (if j.attemptCount == j.maxAttempts then 1 else 0)
      && p.jobs[id].completedAt == None && p.jobs[id].errorCode == None && p.jobs[id].errorMessage == None && Released(p.jobs[id])
  {
    assert JobOk(q.jobs[id]);
    StepKeepsInv(q, Retry(id, now));
    AnyWorkerCanLease(Apply(q, Retry(id, now)), id, "", 0, x);
  }

  ghost predicate LeftAlone(steps: seq<Step>, id: JobId, due: Time) {
    forall s :: s in steps && s.id == id ==> !s.Cancel? && (s.Lease? ==> s.now < due)
  }

  /** A waiting job stays exactly as it is until its time has come, whatever workers try. */
  lemma {:induction false} WaitingJobStays(q: Queue, steps: seq<Step>, id: JobId)
    requires Inv(q) && id in q.jobs && q.jobs[id].status == Pending && LeftAlone(steps, id, q.jobs[id].availableAt)
    ensures Inv(Run(q, steps)) && id in Run(q, steps).jobs && Run(q, steps).jobs[id] == q.jobs[id]
    decreases |steps|
  {
    if steps == [] {
    } else {
      var s := steps[0];
      assert s in steps && forall t :: t in steps[1..] ==> t in steps;
      StepKeepsInv(q, s);
      assert JobOk(q.jobs[id]);
      if s.id != id {
        StepIsLocal(q, s, id);
      }
      WaitingJobStays(Apply(q, s), steps[1..], id);
    }
  }

  /** So from a retryable failure on, no run leases the job before its wait is over. */
  lemma NoLeaseDuringTheWait(q: Queue, s: Step, steps: seq<Step>, x: Time)
    requires Inv(q) && s.Fail? && AnswerTo(q, s) == Done && s.retryable && !q.jobs[s.id].cancelRequested
    requires q.jobs[s.id].attemptCount < q.jobs[s.id].maxAttempts
    requires LeftAlone(steps, s.id, s.now + Wait(q.jobs[s.id].attemptCount, s.base, s.maximum))
    ensures LeasableAt(Run(Apply(q, s), steps), s.id, x) <==> x >= s.now + Wait(q.jobs[s.id].attemptCount, s.base, s.maximum)
  {
    FailureDelaysRetry(q, s, x);
    StepKeepsInv(q, s);
    WaitingJobStays(Apply(q, s), steps, s.id);
    AnyWorkerCanLease(Run(Apply(q, s), steps), s.id, "", 0, x);
  }
}
