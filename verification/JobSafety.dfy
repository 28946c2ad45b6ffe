/** What holds of the job queue after any interleaving of workers, lease expiries, reclaims and operator calls. */
module JobSafety {
  import opened Wrappers
  import opened JobState
  import Backoff

  ghost predicate JobOk(j: Job) {
    && 1 <= j.maxAttempts
    && j.attemptCount <= j.maxAttempts
    && j.status != Failed
    && (j.status == Pending ==> j.attemptCount < j.maxAttempts)
    && (j.status == Running ==> 1 <= j.attemptCount)
    && (j.status == Running <==> j.lockedBy.Some?)
    && (j.status == Running <==> j.leaseExpiresAt.Some?)
    && (j.status == Cancelled ==> j.cancelRequested)
  }

  /** The attempts of a job are numbered 1 to its attempt count; the last is open exactly while the job runs. */
  ghost predicate AuditOk(q: Queue, id: JobId)
    requires id in q.jobs
  {
    var j := q.jobs[id];
    && (forall n :: (id, n) in q.attempts <==> 1 <= n <= j.attemptCount)
    && (forall n :: (id, n) in q.attempts && q.attempts[(id, n)].status == AttemptRunning ==> j.status == Running && n == j.attemptCount)
    && (j.status == Running ==> (id, j.attemptCount) in q.attempts && q.attempts[(id, j.attemptCount)].status == AttemptRunning)
    && (j.status == Running ==> Some(q.attempts[(id, j.attemptCount)].workerId) == j.lockedBy)
    && (j.status == Succeeded ==> 1 <= j.attemptCount && q.attempts[(id, j.attemptCount)].status == AttemptSucceeded)
    && (forall n :: (id, n) in q.attempts && q.attempts[(id, n)].status == AttemptSucceeded ==> j.status == Succeeded && n == j.attemptCount)
  }

  ghost predicate KeysOk(q: Queue) {
    forall a, b :: a in q.jobs && b in q.jobs && q.jobs[a].key == q.jobs[b].key ==> a == b
  }

  ghost predicate Inv(q: Queue) {
    && (forall id :: id in q.jobs ==> JobOk(q.jobs[id]) && AuditOk(q, id))
    && (forall id, n :: (id, n) in q.attempts ==> id in q.jobs)
    && KeysOk(q)
  }

  /** A step touches only the job it names. */
  lemma StepIsLocal(q: Queue, s: Step, id: JobId)
    requires id != s.id
    ensures id in Apply(q, s).jobs <==> id in q.jobs
    ensures id in q.jobs ==> Apply(q, s).jobs[id] == q.jobs[id]
    ensures forall n :: (id, n) in Apply(q, s).attempts <==> (id, n) in q.attempts
    ensures forall n :: (id, n) in q.attempts ==> Apply(q, s).attempts[(id, n)] == q.attempts[(id, n)]
  {
  }

  /** Closing the open attempt together with the job's end or return to the queue. */
  lemma CloseKeepsAudit(q: Queue, id: JobId, job: Job, workerId: string, status: AttemptStatus, now: Time,
                        code: Option<string>, message: Option<string>)
    requires id in q.jobs && AuditOk(q, id) && HasActiveAttempt(q, id)
    requires job.attemptCount == q.jobs[id].attemptCount && job.status != Running && status != AttemptRunning
    requires job.status == Succeeded <==> status == AttemptSucceeded
    ensures AuditOk(Close(q, id, job, workerId, status, now, code, message), id)
  {
    var p := Close(q, id, job, workerId, status, now, code, message);
    assert p.attempts.Keys == q.attempts.Keys;
  }

  predicate Closes(s: Step) {
    s.Complete? || s.Fail? || s.MarkCancelled? || s.Reclaim?
  }

  lemma FinishKeepsAudit(q: Queue, s: Step)
    requires s.id in q.jobs ==> AuditOk(q, s.id)
    requires Closes(s) && AnswerTo(q, s) == Done
    ensures s.id in Apply(q, s).jobs && AuditOk(Apply(q, s), s.id)
  {
    var j := q.jobs[s.id];
    match s
    case Complete(id, w, now) =>
      CloseKeepsAudit(q, id, ClearedLease(j).(status := Succeeded, completedAt := Some(now)), w, AttemptSucceeded, now, None, None);
    case Fail(id, w, code, message, retryable, base, maximum, now) =>
      CloseKeepsAudit(q, id, AfterFailure(j, code, message, retryable, base, maximum, now), w, AttemptFailed, now, Some(code), Some(message));
    case MarkCancelled(id, w, now) =>
      CloseKeepsAudit(q, id, ClearedLease(j).(status := Cancelled, cancelRequested := true, completedAt := Some(now)),
                      w, AttemptCancelled, now, None, None);
    case Reclaim(id, base, maximum, now) =>
      CloseKeepsAudit(q, id, AfterFailure(j, LEASE_EXPIRED, LEASE_EXPIRED_MESSAGE, true, base, maximum, now),
                      ReclaimedFrom(j), AttemptFailed, now, Some(LEASE_EXPIRED), Some(LEASE_EXPIRED_MESSAGE));
  }

  /** How the named job and its audit move: one attempt appended by a lease, the last closed by a finish, or neither. */
  lemma StepOnAudit(q: Queue, s: Step)
    requires Inv(q) && AnswerTo(q, s) == Done
    ensures s.id in Apply(q, s).jobs && AuditOk(Apply(q, s), s.id)
  {
    if Closes(s) {
      FinishKeepsAudit(q, s);
    } else if s.Enqueue? {
      assert forall n :: (s.id, n) !in q.attempts;
    } else {
      assert AuditOk(q, s.id);
    }
  }

  lemma StepKeepsInv(q: Queue, s: Step)
    requires Inv(q)
    ensures Inv(Apply(q, s))
  {
    var p := Apply(q, s);
    if AnswerTo(q, s) == Done {
      StepOnAudit(q, s);
      forall id | id in p.jobs ensures JobOk(p.jobs[id]) && AuditOk(p, id) {
        if id != s.id {
          StepIsLocal(q, s, id);
          assert AuditOk(q, id);
        }
      }
      forall id, n | (id, n) in p.attempts ensures id in p.jobs {
        if id != s.id {
          StepIsLocal(q, s, id);
        }
      }
      StepKeepsKeys(q, s);
    }
  }

  lemma StepOnKey(q: Queue, s: Step)
    requires AnswerTo(q, s) == Done
    ensures s.id in Apply(q, s).jobs
    ensures s.id in q.jobs ==> Apply(q, s).jobs[s.id].key == q.jobs[s.id].key
    ensures s.id !in q.jobs ==> !KeyTaken(q, Apply(q, s).jobs[s.id].key)
  {
  }

  lemma StepKeepsKeys(q: Queue, s: Step)
    requires KeysOk(q) && AnswerTo(q, s) == Done
    ensures KeysOk(Apply(q, s))
  {
    var p := Apply(q, s);
    StepOnKey(q, s);
    forall id | id in p.jobs && id != s.id ensures id in q.jobs && p.jobs[id] == q.jobs[id] {
      StepIsLocal(q, s, id);
    }
  }

  lemma {:induction false} RunKeepsInv(q: Queue, steps: seq<Step>)
    requires Inv(q)
    ensures Inv(Run(q, steps))
    decreases |steps|
  {
    if steps == [] {
    } else {
      StepKeepsInv(q, steps[0]);
      RunKeepsInv(Apply(q, steps[0]), steps[1..]);
    }
  }

  /** In every reachable state the audit is gapless and at most its last attempt is open, by the worker that holds the job. */
  lemma AttemptAudit(steps: seq<Step>, id: JobId, n: nat)
    requires id in Run(EMPTY, steps).jobs
    ensures var q := Run(EMPTY, steps);
      var j := q.jobs[id];
      && ((id, n) in q.attempts <==> 1 <= n <= j.attemptCount)
      && ((id, n) in q.attempts && q.attempts[(id, n)].status == AttemptRunning <==> j.status == Running && n == j.attemptCount)
      && ((id, n) in q.attempts && q.attempts[(id, n)].status == AttemptRunning ==> j.lockedBy == Some(q.attempts[(id, n)].workerId))
      && ((id, n) in q.attempts && q.attempts[(id, n)].status == AttemptSucceeded <==> j.status == Succeeded && n == j.attemptCount)
  {
    RunKeepsInv(EMPTY, steps);
  }

  /** The "audit is missing" error never happens, and a lease never meets a taken attempt number. */
  lemma AuditIsNeverMissing(steps: seq<Step>, s: Step)
    ensures AnswerTo(Run(EMPTY, steps), s) != Conflict(AUDIT_MISSING)
    ensures AnswerTo(Run(EMPTY, steps), s) != Conflict(NUMBER_TAKEN)
  {
    var q := Run(EMPTY, steps);
    RunKeepsInv(EMPTY, steps);
    assert s.id in q.jobs ==> AuditOk(q, s.id);
    if s.id in q.jobs && q.jobs[s.id].status == Running {
      assert HasActiveAttempt(q, s.id);
    }
  }

  /** The lease never compares the counters, yet the budget holds everywhere. FAILED is never reached. */
  lemma BudgetWithoutACheck(steps: seq<Step>, id: JobId)
    requires id in Run(EMPTY, steps).jobs
    ensures var j := Run(EMPTY, steps).jobs[id];
      && j.attemptCount <= j.maxAttempts
      && (j.status == Pending ==> j.attemptCount < j.maxAttempts)
      && (j.status == Running ==> 1 <= j.attemptCount)
      && j.status != Failed
  {
    RunKeepsInv(EMPTY, steps);
  }

  /** Every delay that is ever computed is for a counted attempt, so it lies between one second and the maximum. */
  lemma DelaysAreCapped(steps: seq<Step>, s: Step)
    requires s.Fail? || s.Reclaim?
    requires AnswerTo(Run(EMPTY, steps), s) == Done && 1 <= s.base && 1 <= s.maximum
    ensures var q := Run(EMPTY, steps);
      Apply(q, s).jobs[s.id].status == Pending ==>
        s.now + Seconds(1) <= Apply(q, s).jobs[s.id].availableAt <= s.now + Seconds(s.maximum)
  {
    var q := Run(EMPTY, steps);
    RunKeepsInv(EMPTY, steps);
    var n := q.jobs[s.id].attemptCount;
    Backoff.DelayIsBoundedAndMonotone(n, n, s.base, s.maximum);
  }

  /** The fallback worker name is written exactly when the reclaimed lease was taken under the empty worker id. */
  lemma ReclaimKeepsWorkerIff(steps: seq<Step>, s: Step)
    requires s.Reclaim? && AnswerTo(Run(EMPTY, steps), s) == Done
    ensures var q := Run(EMPTY, steps);
      var key := (s.id, q.jobs[s.id].attemptCount);
      && key in q.attempts && key in Apply(q, s).attempts
      && (Apply(q, s).attempts[key].workerId == q.attempts[key].workerId <==> q.jobs[s.id].lockedBy != Some(""))
  {
    var q := Run(EMPTY, steps);
    RunKeepsInv(EMPTY, steps);
    assert AuditOk(q, s.id);
  }

  /** An attempt is never removed, and keeps its worker, whatever happens to the job afterwards. */
  lemma {:induction false} AttemptKeepsItsWorker(q: Queue, steps: seq<Step>, key: AttemptKey)
    requires Inv(q) && key in q.attempts && q.attempts[key].workerId != ""
    ensures key in Run(q, steps).attempts && Run(q, steps).attempts[key].workerId == q.attempts[key].workerId
    decreases |steps|
  {
    if steps == [] {
    } else {
      var s := steps[0];
      StepKeepsInv(q, s);
      if s.id != key.0 {
        StepIsLocal(q, s, key.0);
      } else {
        assert AuditOk(q, key.0);
      }
      AttemptKeepsItsWorker(Apply(q, s), steps[1..], key);
    }
  }

  /** Attempts already closed are history: no later transaction changes any column of them. */
  lemma {:induction false} ClosedAttemptIsFrozen(q: Queue, steps: seq<Step>, key: AttemptKey)
    requires Inv(q) && key in q.attempts && q.attempts[key].status != AttemptRunning
    ensures key in Run(q, steps).attempts && Run(q, steps).attempts[key] == q.attempts[key]
    decreases |steps|
  {
    if steps == [] {
    } else {
      var s := steps[0];
      StepKeepsInv(q, s);
      if s.id != key.0 {
        StepIsLocal(q, s, key.0);
      } else {
        assert AuditOk(q, key.0);
      }
      ClosedAttemptIsFrozen(Apply(q, s), steps[1..], key);
    }
  }

  /** Only the holder of the live lease can finish a job, so a finished attempt was finished by the worker that took it. */
  lemma OnlyTheHolderFinishes(steps: seq<Step>, s: Step)
    requires s.Complete? || s.Fail? || s.MarkCancelled?
    requires AnswerTo(Run(EMPTY, steps), s) == Done
    ensures var q := Run(EMPTY, steps);
      var key := (s.id, q.jobs[s.id].attemptCount);
      key in q.attempts && q.attempts[key].workerId == s.workerId
  {
    var q := Run(EMPTY, steps);
    RunKeepsInv(EMPTY, steps);
    assert AuditOk(q, s.id);
  }
}
