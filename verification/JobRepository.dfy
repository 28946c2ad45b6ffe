/** The job tables and the transactions of app/repositories/job_repository.py and `enqueue` of app/jobs/queue.py. */
module JobRepository {
  import opened Wrappers
  import opened JobState
  import opened JobSafety
  import Selection
  import Backoff

  datatype EnqueueResult = Created(id: JobId) | Duplicate(id: JobId) | PersistenceError

  ghost function LeasableIds(jobs: map<JobId, Job>, now: Time): set<JobId> {
    set id | id in jobs && Leasable(jobs[id], now)
  }

  ghost function StaleIds(jobs: map<JobId, Job>, now: Time): set<JobId> {
    set id | id in jobs && Stale(jobs[id], now)
  }

  /** ORDER BY priority DESC, available_at, created_at, job_id. Ids outside the table, never candidates, come last. */
  predicate LeaseBefore(jobs: map<JobId, Job>, a: JobId, b: JobId) {
    if a !in jobs || b !in jobs then a in jobs || (b !in jobs && a < b)
    else if jobs[a].priority != jobs[b].priority then jobs[a].priority > jobs[b].priority
    else if jobs[a].availableAt != jobs[b].availableAt then jobs[a].availableAt < jobs[b].availableAt
    else if jobs[a].createdAt != jobs[b].createdAt then jobs[a].createdAt < jobs[b].createdAt
    else a < b
  }

  /** ORDER BY lease_expires_at, job_id. */
  predicate StaleBefore(jobs: map<JobId, Job>, a: JobId, b: JobId) {
    && a in jobs && b in jobs && jobs[a].leaseExpiresAt.Some? && jobs[b].leaseExpiresAt.Some?
    && (jobs[a].leaseExpiresAt.value < jobs[b].leaseExpiresAt.value
        || (jobs[a].leaseExpiresAt.value == jobs[b].leaseExpiresAt.value && a < b))
  }

  function LeaseOrder(jobs: map<JobId, Job>): (JobId, JobId) -> bool {
    (a: JobId, b: JobId) => LeaseBefore(jobs, a, b)
  }

  function StaleOrder(jobs: map<JobId, Job>): (JobId, JobId) -> bool {
    (a: JobId, b: JobId) => StaleBefore(jobs, a, b)
  }

  lemma QueriesAreOrdered(jobs: map<JobId, Job>)
    ensures Selection.TotalOrder(LeaseOrder(jobs)) && Selection.StrictOrder(StaleOrder(jobs))
  {
    assert forall a, b, c :: LeaseBefore(jobs, a, b) && LeaseBefore(jobs, b, c) ==> LeaseBefore(jobs, a, c);
    assert forall a, b, c :: StaleBefore(jobs, a, b) && StaleBefore(jobs, b, c) ==> StaleBefore(jobs, a, c);
  }

  function LeaseSteps(ids: seq<JobId>, workerId: string, leaseSeconds: int, now: Time): seq<Step> {
    seq(|ids|, i requires 0 <= i < |ids| => Lease(ids[i], workerId, leaseSeconds, now))
  }

  function ReclaimSteps(ids: seq<JobId>, base: int, maximum: int, now: Time): seq<Step> {
    seq(|ids|, i requires 0 <= i < |ids| => Reclaim(ids[i], base, maximum, now))
  }

  lemma RunSnoc(q: Queue, steps: seq<Step>, s: Step)
    ensures Run(q, steps + [s]) == Apply(Run(q, steps), s)
  {
    RunAppend(q, steps, [s]);
    assert Run(Run(q, steps), [s]) == Run(Apply(Run(q, steps), s), []);
  }

  lemma LeaseOneMore(q: Queue, ids: seq<JobId>, i: nat, workerId: string, leaseSeconds: int, now: Time)
    requires i < |ids|
    ensures Run(q, LeaseSteps(ids[..i + 1], workerId, leaseSeconds, now))
         == Apply(Run(q, LeaseSteps(ids[..i], workerId, leaseSeconds, now)), Lease(ids[i], workerId, leaseSeconds, now))
  {
    RunSnoc(q, LeaseSteps(ids[..i], workerId, leaseSeconds, now), Lease(ids[i], workerId, leaseSeconds, now));
    assert LeaseSteps(ids[..i + 1], workerId, leaseSeconds, now)
        == LeaseSteps(ids[..i], workerId, leaseSeconds, now) + [Lease(ids[i], workerId, leaseSeconds, now)];
  }

  lemma ReclaimOneMore(q: Queue, ids: seq<JobId>, i: nat, base: int, maximum: int, now: Time)
    requires i < |ids|
    ensures Run(q, ReclaimSteps(ids[..i + 1], base, maximum, now))
         == Apply(Run(q, ReclaimSteps(ids[..i], base, maximum, now)), Reclaim(ids[i], base, maximum, now))
  {
    RunSnoc(q, ReclaimSteps(ids[..i], base, maximum, now), Reclaim(ids[i], base, maximum, now));
    assert ReclaimSteps(ids[..i + 1], base, maximum, now)
        == ReclaimSteps(ids[..i], base, maximum, now) + [Reclaim(ids[i], base, maximum, now)];
  }

  /** No job's next attempt number is in the audit already. */
  ghost predicate FreeNumbers(q: Queue, ids: seq<JobId>) {
    forall k :: 0 <= k < |ids| ==> ids[k] in q.jobs && (ids[k], q.jobs[ids[k]].attemptCount + 1) !in q.attempts
  }

  ghost predicate Ready(q: Queue, ids: seq<JobId>, now: Time) {
    FreeNumbers(q, ids) && forall k :: 0 <= k < |ids| ==> ids[k] in q.jobs && Leasable(q.jobs[ids[k]], now)
  }

  lemma OthersStayReady(q: Queue, ids: seq<JobId>, workerId: string, leaseSeconds: int, now: Time)
    requires ids != [] && Selection.Distinct(ids) && Ready(q, ids, now)
    ensures Ready(Apply(q, Lease(ids[0], workerId, leaseSeconds, now)), ids[1..], now)
  {
    var p := Apply(q, Lease(ids[0], workerId, leaseSeconds, now));
    forall k | 0 <= k < |ids[1..]|
      ensures ids[1..][k] in p.jobs && Leasable(p.jobs[ids[1..][k]], now) && (ids[1..][k], p.jobs[ids[1..][k]].attemptCount + 1) !in p.attempts
    {
      assert ids[1..][k] == ids[k + 1] && ids[0] != ids[k + 1];
      StepIsLocal(q, Lease(ids[0], workerId, leaseSeconds, now), ids[k + 1]);
    }
  }

  /** Jobs that are not leased stay as they are. */
  lemma {:induction false} LeasesAreLocal(q: Queue, ids: seq<JobId>, workerId: string, leaseSeconds: int, now: Time, id: JobId)
    requires id !in ids && id in q.jobs
    ensures id in Run(q, LeaseSteps(ids, workerId, leaseSeconds, now)).jobs
    ensures Run(q, LeaseSteps(ids, workerId, leaseSeconds, now)).jobs[id] == q.jobs[id]
    decreases |ids|
  {
    if ids == [] {
    } else {
      var s := Lease(ids[0], workerId, leaseSeconds, now);
      assert ids[0] in ids && forall k :: k in ids[1..] ==> k in ids;
      assert LeaseSteps(ids, workerId, leaseSeconds, now)[1..] == LeaseSteps(ids[1..], workerId, leaseSeconds, now);
      StepIsLocal(q, s, id);
      LeasesAreLocal(Apply(q, s), ids[1..], workerId, leaseSeconds, now, id);
    }
  }

  /** The lease query has one answer: two calls that see the same rows and locks would take the same jobs in the same order. */
  lemma LeaseSelectionIsDeterministic(jobs: map<JobId, Job>, now: Time, lockedElsewhere: set<JobId>, limit: nat, a: seq<JobId>, b: seq<JobId>)
    requires Selection.IsFirst(a, LeasableIds(jobs, now) - lockedElsewhere, limit, LeaseOrder(jobs))
    requires Selection.IsFirst(b, LeasableIds(jobs, now) - lockedElsewhere, limit, LeaseOrder(jobs))
    ensures a == b
  {
    QueriesAreOrdered(jobs);
    Selection.FirstIsUnique(a, b, LeasableIds(jobs, now) - lockedElsewhere, limit, LeaseOrder(jobs));
  }

  predicate SameDue(x: Job, y: Job) {
    x.priority == y.priority && x.availableAt == y.availableAt
  }

  /** What the lease query's order means, column by column: a waiting job that is ahead of a chosen one is chosen before it. */
  lemma LeaseQueryByColumns(jobs: map<JobId, Job>, now: Time, lockedElsewhere: set<JobId>, limit: nat, ids: seq<JobId>, a: JobId, j: nat)
    requires Selection.IsFirst(ids, LeasableIds(jobs, now) - lockedElsewhere, limit, LeaseOrder(jobs))
    requires a in LeasableIds(jobs, now) - lockedElsewhere && j < |ids| && ids[j] in jobs
    ensures jobs[a].priority > jobs[ids[j]].priority ==> a in ids[..j]
    ensures jobs[a].priority == jobs[ids[j]].priority && jobs[a].availableAt < jobs[ids[j]].availableAt ==> a in ids[..j]
    ensures SameDue(jobs[a], jobs[ids[j]]) && jobs[a].createdAt < jobs[ids[j]].createdAt ==> a in ids[..j]
    ensures SameDue(jobs[a], jobs[ids[j]]) && jobs[a].createdAt == jobs[ids[j]].createdAt && a < ids[j] ==> a in ids[..j]
  {
    QueriesAreOrdered(jobs);
    if LeaseBefore(jobs, a, ids[j]) {
      Selection.AheadIsChosenBefore(ids, LeasableIds(jobs, now) - lockedElsewhere, limit, LeaseOrder(jobs), a, j);
    }
  }

  /** The reclaim query takes the longest expired leases first. */
  lemma StaleQueryByColumns(jobs: map<JobId, Job>, now: Time, lockedElsewhere: set<JobId>, limit: nat, ids: seq<JobId>, a: JobId, j: nat)
    requires Selection.IsFirst(ids, StaleIds(jobs, now) - lockedElsewhere, limit, StaleOrder(jobs))
    requires a in StaleIds(jobs, now) - lockedElsewhere && j < |ids| && ids[j] in jobs
    ensures jobs[a].leaseExpiresAt.Some? && jobs[ids[j]].leaseExpiresAt.Some?
    ensures jobs[a].leaseExpiresAt.value < jobs[ids[j]].leaseExpiresAt.value ==> a in ids[..j]
    ensures jobs[a].leaseExpiresAt == jobs[ids[j]].leaseExpiresAt && a < ids[j] ==> a in ids[..j]
  {
    QueriesAreOrdered(jobs);
    assert ids[j] in StaleIds(jobs, now);
    if StaleBefore(jobs, a, ids[j]) {
      Selection.AheadIsChosenBefore(ids, StaleIds(jobs, now) - lockedElsewhere, limit, StaleOrder(jobs), a, j);
    }
  }

  class JobStore {
    var jobs: map<JobId, Job>
    var attempts: map<AttemptKey, Attempt>

    function State(): Queue
      reads this
    {
      Queue(jobs, attempts)
    }

    constructor ()
      ensures State() == EMPTY
    {
      jobs, attempts := map[], map[];
    }

    /** Inserts in a savepoint; a conflict on the idempotency key returns the job that holds it. */
    method Enqueue(newId: JobId, jobType: string, key: string, priority: int, maxAttempts: Option<int>, default: int,
                   availableAt: Option<Time>, now: Time) returns (r: EnqueueResult)
      modifies this`jobs
      ensures State() == Apply(old(State()), JobState.Enqueue(newId, jobType, key, priority, maxAttempts, default, availableAt, now))
      ensures r.Created? ==> r.id == newId && newId !in old(jobs) && newId in jobs && 0 <= jobs[newId].priority <= 100
      ensures r.Duplicate? ==> r.id in old(jobs) && old(jobs)[r.id].key == key
      ensures r.PersistenceError? <==> newId in old(jobs) || EffectiveMaxAttempts(maxAttempts, default) <= 0
    {
      var budget := if maxAttempts.Some? && maxAttempts.value != 0 then maxAttempts.value else default;
      if newId in jobs || budget <= 0 {
        r := PersistenceError;
      } else if KeyTaken(State(), key) {
        var id :| id in jobs && jobs[id].key == key;
        r := Duplicate(id);
      } else {
        jobs := jobs[newId := NewJob(jobType, key, priority, budget, if availableAt.Some? then availableAt.value else now, now)];
        r := Created(newId);
      }
    }

    method SelectLeasable(limit: nat, now: Time, lockedElsewhere: set<JobId>) returns (ids: seq<JobId>)
      ensures Selection.IsFirst(ids, LeasableIds(jobs, now) - lockedElsewhere, limit, LeaseOrder(jobs))
      ensures forall a, j :: a in LeasableIds(jobs, now) - lockedElsewhere && 0 <= j < |ids| && ids[j] in jobs && jobs[a].priority > jobs[ids[j]].priority ==> a in ids[..j]
      ensures forall a, j :: a in LeasableIds(jobs, now) - lockedElsewhere && 0 <= j < |ids| && ids[j] in jobs && jobs[a].priority == jobs[ids[j]].priority && jobs[a].availableAt < jobs[ids[j]].availableAt ==> a in ids[..j]
      ensures forall a, j :: a in LeasableIds(jobs, now) - lockedElsewhere && 0 <= j < |ids| && ids[j] in jobs && SameDue(jobs[a], jobs[ids[j]]) && jobs[a].createdAt < jobs[ids[j]].createdAt ==> a in ids[..j]
      ensures forall a, j :: a in LeasableIds(jobs, now) - lockedElsewhere && 0 <= j < |ids| && ids[j] in jobs && SameDue(jobs[a], jobs[ids[j]]) && jobs[a].createdAt == jobs[ids[j]].createdAt && a < ids[j] ==> a in ids[..j]
      ensures Selection.Distinct(ids) && forall k :: 0 <= k < |ids| ==> ids[k] in jobs && Leasable(jobs[ids[k]], now)
    {
      var candidates := set id | id in jobs && Leasable(jobs[id], now) && id !in lockedElsewhere;
      assert candidates == LeasableIds(jobs, now) - lockedElsewhere;
      QueriesAreOrdered(jobs);
      ids := Selection.SelectFirst(candidates, limit, LeaseOrder(jobs));
      forall a, j | a in candidates && 0 <= j < |ids| && ids[j] in jobs {
        LeaseQueryByColumns(jobs, now, lockedElsewhere, limit, ids, a, j);
      }
    }

    method LeaseRow(id: JobId, workerId: string, leaseSeconds: int, now: Time)
      requires id in jobs && Leasable(jobs[id], now) && (id, jobs[id].attemptCount + 1) !in attempts
      modifies this
      ensures State() == Apply(old(State()), Lease(id, workerId, leaseSeconds, now))
      ensures jobs == old(jobs)[id := LeasedJob(old(jobs)[id], workerId, leaseSeconds, now)]
      ensures attempts == old(attempts)[(id, jobs[id].attemptCount) := NewAttempt(workerId, now)]
    {
      var job := jobs[id];
      job := job.(status := Running, lockedBy := Some(workerId), lockedAt := Some(now), heartbeatAt := Some(now));
      job := job.(leaseExpiresAt := Some(now + Seconds(leaseSeconds)));
      if job.startedAt == None {
        job := job.(startedAt := Some(now));
      }
      job := job.(attemptCount := job.attemptCount + 1);
      job := job.(errorCode := None, errorMessage := None);
      jobs := jobs[id := job];
      attempts := attempts[(id, job.attemptCount) := NewAttempt(workerId, now)];
    }

    method LeaseRows(ids: seq<JobId>, workerId: string, leaseSeconds: int, now: Time)
      requires Selection.Distinct(ids) && Ready(State(), ids, now)
      modifies this
      ensures State() == Run(old(State()), LeaseSteps(ids, workerId, leaseSeconds, now))
      ensures forall id :: id in old(jobs) && id !in ids ==> id in jobs && jobs[id] == old(jobs)[id]
    {
      var i := 0;
      while i < |ids|
        invariant 0 <= i <= |ids|
        invariant Ready(State(), ids[i..], now)
        invariant State() == Run(old(State()), LeaseSteps(ids[..i], workerId, leaseSeconds, now))
      {
        LeaseOneMore(old(State()), ids, i, workerId, leaseSeconds, now);
        OthersStayReady(State(), ids[i..], workerId, leaseSeconds, now);
        assert ids[i..][0] == ids[i] && ids[i..][1..] == ids[i + 1..];
        LeaseRow(ids[i], workerId, leaseSeconds, now);
        i := i + 1;
      }
      assert ids[..i] == ids;
      forall id | id in old(jobs) && id !in ids ensures id in jobs && jobs[id] == old(jobs)[id] {
        LeasesAreLocal(old(State()), ids, workerId, leaseSeconds, now, id);
      }
    }

    /**
     Leases exactly the first `limit` leasable jobs no other transaction has locked, and leaves every other job as it
     was. An attempt number already in the audit would violate its unique constraint and abort the transaction.
     */
    method LeaseBatch(workerId: string, limit: nat, leaseSeconds: int, now: Time, lockedElsewhere: set<JobId>)
      returns (answer: Answer, ids: seq<JobId>)
      modifies this
      ensures Selection.IsFirst(ids, LeasableIds(old(jobs), now) - lockedElsewhere, limit, LeaseOrder(old(jobs)))
      ensures forall a, j :: a in LeasableIds(old(jobs), now) - lockedElsewhere && 0 <= j < |ids| && ids[j] in old(jobs) && old(jobs)[a].priority > old(jobs)[ids[j]].priority ==> a in ids[..j]
      ensures forall a, j :: a in LeasableIds(old(jobs), now) - lockedElsewhere && 0 <= j < |ids| && ids[j] in old(jobs) && old(jobs)[a].priority == old(jobs)[ids[j]].priority && old(jobs)[a].availableAt < old(jobs)[ids[j]].availableAt ==> a in ids[..j]
      ensures forall a, j :: a in LeasableIds(old(jobs), now) - lockedElsewhere && 0 <= j < |ids| && ids[j] in old(jobs) && SameDue(old(jobs)[a], old(jobs)[ids[j]]) && old(jobs)[a].createdAt < old(jobs)[ids[j]].createdAt ==> a in ids[..j]
      ensures forall a, j :: a in LeasableIds(old(jobs), now) - lockedElsewhere && 0 <= j < |ids| && ids[j] in old(jobs) && SameDue(old(jobs)[a], old(jobs)[ids[j]]) && old(jobs)[a].createdAt == old(jobs)[ids[j]].createdAt && a < ids[j] ==> a in ids[..j]
      ensures answer == Done ==> State() == Run(old(State()), LeaseSteps(ids, workerId, leaseSeconds, now))
      ensures answer != Done ==> answer == Conflict(NUMBER_TAKEN) && State() == old(State())
      ensures answer == Done <==> FreeNumbers(old(State()), ids)
      ensures forall id :: id in old(jobs) && id !in ids ==> id in jobs && jobs[id] == old(jobs)[id]
    {
      ids := SelectLeasable(limit, now, lockedElsewhere);
      var free := NumbersAreFree(ids);
      if !free {
        return Conflict(NUMBER_TAKEN), ids;
      }
      LeaseRows(ids, workerId, leaseSeconds, now);
      return Done, ids;
    }

    method NumbersAreFree(ids: seq<JobId>) returns (free: bool)
      requires forall k :: 0 <= k < |ids| ==> ids[k] in jobs
      ensures free <==> FreeNumbers(State(), ids)
    {
      free := forall k :: 0 <= k < |ids| ==> (ids[k], jobs[ids[k]].attemptCount + 1) !in attempts;
    }

    method Heartbeat(id: JobId, workerId: string, leaseSeconds: int, now: Time) returns (renewed: bool)
      modifies this`jobs
      ensures State() == Apply(old(State()), JobState.Heartbeat(id, workerId, leaseSeconds, now))
      ensures renewed <==> OwnsLiveLease(old(State()), id, workerId, now)
    {
      if !OwnsLiveLease(State(), id, workerId, now) {
        return false;
      }
      jobs := jobs[id := jobs[id].(heartbeatAt := Some(now), leaseExpiresAt := Some(now + Seconds(leaseSeconds)))];
      return true;
    }

    /** Closes the attempt numbered by the job's counter; `found` is false when no open one exists, and then nothing changes. */
    method FinishAttempt(id: JobId, workerId: string, status: AttemptStatus, now: Time, code: Option<string>, message: Option<string>)
      returns (found: bool)
      requires id in jobs
      modifies this`attempts
      ensures found <==> HasActiveAttempt(old(State()), id)
      ensures found ==> var key := (id, jobs[id].attemptCount);
        attempts == old(attempts)[key := Finished(old(attempts)[key], workerId, status, now, code, message)]
      ensures !found ==> attempts == old(attempts)
    {
      var key := (id, jobs[id].attemptCount);
      if key !in attempts || attempts[key].status != AttemptRunning {
        return false;
      }
      var attempt := attempts[key];
      attempt := attempt.(workerId := workerId, status := status, completedAt := Some(now));
      attempt := attempt.(durationMs := Some(Max((now - attempt.startedAt) / 1000, 0)));
      attempt := attempt.(errorCode := code, errorMessage := message);
      attempts := attempts[key := attempt];
      return true;
    }

    method Complete(id: JobId, workerId: string, now: Time) returns (answer: Answer)
      modifies this
      ensures State() == Apply(old(State()), JobState.Complete(id, workerId, now))
      ensures answer == AnswerTo(old(State()), JobState.Complete(id, workerId, now))
    {
      if !OwnsLiveLease(State(), id, workerId, now) {
        return LeaseIsLost;
      }
      var job := jobs[id].(status := Succeeded, completedAt := Some(now));
      job := ClearedLease(job);
      var found := FinishAttempt(id, workerId, AttemptSucceeded, now, None, None);
      if !found {
        return Conflict(AUDIT_MISSING);
      }
      jobs := jobs[id := job];
      return Done;
    }

    method Fail(id: JobId, workerId: string, code: string, message: string, retryable: bool, base: int, maximum: int, now: Time)
      returns (answer: Answer)
      modifies this
      ensures State() == Apply(old(State()), JobState.Fail(id, workerId, code, message, retryable, base, maximum, now))
      ensures answer == AnswerTo(old(State()), JobState.Fail(id, workerId, code, message, retryable, base, maximum, now))
    {
      if !OwnsLiveLease(State(), id, workerId, now) {
        return LeaseIsLost;
      }
      var found := FinishAttempt(id, workerId, AttemptFailed, now, Some(code), Some(message));
      if !found {
        return Conflict(AUDIT_MISSING);
      }
      var job := jobs[id].(errorCode := Some(code), errorMessage := Some(message));
      if retryable && job.attemptCount < job.maxAttempts {
        job := job.(status := Pending, availableAt := now + Seconds(Backoff.Delay(job.attemptCount, base, maximum)));
      } else {
        job := job.(status := DeadLetter, completedAt := Some(now));
      }
      jobs := jobs[id := ClearedLease(job)];
      return Done;
    }

    method Cancel(id: JobId, now: Time) returns (answer: Answer)
      modifies this`jobs
      ensures State() == Apply(old(State()), JobState.Cancel(id, now))
      ensures answer == AnswerTo(old(State()), JobState.Cancel(id, now))
    {
      if id !in jobs {
        return Conflict("Job is unavailable");
      }
      var job := jobs[id];
      if job.status == Pending {
        job := job.(status := Cancelled, cancelRequested := true, completedAt := Some(now));
      } else if job.status == Running {
        job := job.(cancelRequested := true);
      } else if job.status != Cancelled && job.status != Succeeded {
        return Conflict("Job cannot be cancelled in its current state");
      }
      jobs := jobs[id := job];
      return Done;
    }

    method MarkCancelled(id: JobId, workerId: string, now: Time) returns (answer: Answer)
      modifies this
      ensures State() == Apply(old(State()), JobState.MarkCancelled(id, workerId, now))
      ensures answer == AnswerTo(old(State()), JobState.MarkCancelled(id, workerId, now))
    {
      if !OwnsLiveLease(State(), id, workerId, now) {
        return LeaseIsLost;
      }
      var job := jobs[id].(status := Cancelled, cancelRequested := true, completedAt := Some(now));
      job := ClearedLease(job);
      var found := FinishAttempt(id, workerId, AttemptCancelled, now, None, None);
      if !found {
        return Conflict(AUDIT_MISSING);
      }
      jobs := jobs[id := job];
      return Done;
    }

    method Retry(id: JobId, now: Time) returns (answer: Answer)
      modifies this`jobs
      ensures State() == Apply(old(State()), JobState.Retry(id, now))
      ensures answer == AnswerTo(old(State()), JobState.Retry(id, now))
    {
      if id !in jobs {
        return Conflict("Job is unavailable");
      }
      var job := jobs[id];
      if job.status != Failed && job.status != DeadLetter && job.status != Cancelled {
        return Conflict("Job is not retryable in its current state");
      }
      job := job.(status := Pending, cancelRequested := false, availableAt := now);
      job := job.(completedAt := None, errorCode := None, errorMessage := None);
      if job.attemptCount >= job.maxAttempts {
        job := job.(maxAttempts := job.attemptCount + 1);
      }
      jobs := jobs[id := ClearedLease(job)];
      return Done;
    }

    method SelectStale(limit: nat, now: Time, lockedElsewhere: set<JobId>) returns (ids: seq<JobId>)
      ensures Selection.IsFirst(ids, StaleIds(jobs, now) - lockedElsewhere, limit, StaleOrder(jobs))
      ensures forall a, j :: a in StaleIds(jobs, now) - lockedElsewhere && 0 <= j < |ids| && ids[j] in jobs && jobs[a].leaseExpiresAt.Some? && jobs[ids[j]].leaseExpiresAt.Some? && jobs[a].leaseExpiresAt.value < jobs[ids[j]].leaseExpiresAt.value ==> a in ids[..j]
      ensures forall a, j :: a in StaleIds(jobs, now) - lockedElsewhere && 0 <= j < |ids| && ids[j] in jobs && jobs[a].leaseExpiresAt == jobs[ids[j]].leaseExpiresAt && a < ids[j] ==> a in ids[..j]
      ensures Selection.Distinct(ids) && forall k :: 0 <= k < |ids| ==> ids[k] in jobs && Stale(jobs[ids[k]], now)
    {
      var candidates := set id | id in jobs && Stale(jobs[id], now) && id !in lockedElsewhere;
      assert candidates == StaleIds(jobs, now) - lockedElsewhere;
      QueriesAreOrdered(jobs);
      ids := Selection.SelectFirst(candidates, limit, StaleOrder(jobs));
      forall a, j | a in candidates && 0 <= j < |ids| && ids[j] in jobs {
        StaleQueryByColumns(jobs, now, lockedElsewhere, limit, ids, a, j);
      }
    }

    method ReclaimRow(id: JobId, base: int, maximum: int, now: Time) returns (found: bool)
      requires id in jobs && Stale(jobs[id], now)
      modifies this
      ensures State() == Apply(old(State()), Reclaim(id, base, maximum, now))
      ensures found <==> HasActiveAttempt(old(State()), id)
      ensures forall o :: o in old(jobs) && o != id ==> o in jobs && jobs[o] == old(jobs)[o]
      ensures forall o, n :: o != id && (o, n) in old(attempts) ==> (o, n) in attempts && attempts[(o, n)] == old(attempts)[(o, n)]
    {
      var job := jobs[id];
      var worker := if job.lockedBy.Some? && job.lockedBy.value != "" then job.lockedBy.value else EXPIRED_WORKER;
      found := FinishAttempt(id, worker, AttemptFailed, now, Some(LEASE_EXPIRED), Some(LEASE_EXPIRED_MESSAGE));
      if !found {
        return;
      }
      job := job.(errorCode := Some(LEASE_EXPIRED), errorMessage := Some(LEASE_EXPIRED_MESSAGE));
      if job.attemptCount < job.maxAttempts {
        job := job.(status := Pending, availableAt := now + Seconds(Backoff.Delay(job.attemptCount, base, maximum)));
      } else {
        job := job.(status := DeadLetter, completedAt := Some(now));
      }
      jobs := jobs[id := ClearedLease(job)];
    }

    method ReclaimRows(ids: seq<JobId>, base: int, maximum: int, now: Time)
      requires Selection.Distinct(ids)
      requires forall k :: 0 <= k < |ids| ==> ids[k] in jobs && Stale(jobs[ids[k]], now) && HasActiveAttempt(State(), ids[k])
      modifies this
      ensures State() == Run(old(State()), ReclaimSteps(ids, base, maximum, now))
    {
      var i := 0;
      while i < |ids|
        invariant 0 <= i <= |ids|
        invariant forall k :: i <= k < |ids| ==> ids[k] in jobs && jobs[ids[k]] == old(jobs)[ids[k]] && HasActiveAttempt(State(), ids[k])
        invariant State() == Run(old(State()), ReclaimSteps(ids[..i], base, maximum, now))
      {
        ReclaimOneMore(old(State()), ids, i, base, maximum, now);
        var found := ReclaimRow(ids[i], base, maximum, now);
        i := i + 1;
      }
      assert ids[..i] == ids;
    }

    /** Reclaims the first `limit` expired leases; a missing audit row aborts the whole transaction. */
    method ReclaimStale(limit: nat, base: int, maximum: int, now: Time, lockedElsewhere: set<JobId>) returns (answer: Answer, ids: seq<JobId>)
      modifies this
      ensures Selection.IsFirst(ids, StaleIds(old(jobs), now) - lockedElsewhere, limit, StaleOrder(old(jobs)))
      ensures forall a, j :: a in StaleIds(old(jobs), now) - lockedElsewhere && 0 <= j < |ids| && ids[j] in old(jobs) && old(jobs)[a].leaseExpiresAt.Some? && old(jobs)[ids[j]].leaseExpiresAt.Some? && old(jobs)[a].leaseExpiresAt.value < old(jobs)[ids[j]].leaseExpiresAt.value ==> a in ids[..j]
      ensures forall a, j :: a in StaleIds(old(jobs), now) - lockedElsewhere && 0 <= j < |ids| && ids[j] in old(jobs) && old(jobs)[a].leaseExpiresAt == old(jobs)[ids[j]].leaseExpiresAt && a < ids[j] ==> a in ids[..j]
      ensures answer == Done ==> State() == Run(old(State()), ReclaimSteps(ids, base, maximum, now))
      ensures answer != Done ==> answer == Conflict(AUDIT_MISSING) && State() == old(State())
      ensures answer == Done <==> forall k :: 0 <= k < |ids| ==> HasActiveAttempt(old(State()), ids[k])
    {
      ids := SelectStale(limit, now, lockedElsewhere);
      if exists k :: 0 <= k < |ids| && !HasActiveAttempt(State(), ids[k]) {
        return Conflict(AUDIT_MISSING), ids;
      }
      ReclaimRows(ids, base, maximum, now);
      return Done, ids;
    }
  }
}
