/** How long a job can run, what a cancellation stops, and what fences a stale worker. */
module JobProgress {
  import opened Wrappers
  import opened JobState
  import opened JobSafety
  import Backoff

  predicate Terminal(s: Status) {
    s != Pending && s != Running
  }

  /** Status changes the job can still make before an operator retries it. */
  function Measure(j: Job): int {
    if Terminal(j.status) then 0
    else 2 * (j.maxAttempts - j.attemptCount) + (if j.status == Running then 1 else 0)
  }

  ghost predicate Mentions(steps: seq<Step>, id: JobId, retry: bool, cancel: bool) {
    exists s :: s in steps && s.id == id && ((retry && s.Retry?) || (cancel && s.Cancel?))
  }

  ghost function StatusChanges(q: Queue, steps: seq<Step>, id: JobId): nat
    decreases |steps|
  {
    if steps == [] then 0
    else
      var p := Apply(q, steps[0]);
      (if id in q.jobs && id in p.jobs && p.jobs[id].status != q.jobs[id].status then 1 else 0) + StatusChanges(p, steps[1..], id)
  }

  lemma ChangeDecreasesMeasure(q: Queue, s: Step, id: JobId)
    requires Inv(q) && id in q.jobs && !(s.Retry? && s.id == id)
    ensures id in Apply(q, s).jobs && 0 <= Measure(Apply(q, s).jobs[id])
    ensures Apply(q, s).jobs[id].status != q.jobs[id].status ==> Measure(Apply(q, s).jobs[id]) < Measure(q.jobs[id])
    ensures Apply(q, s).jobs[id].status == q.jobs[id].status ==> Measure(Apply(q, s).jobs[id]) == Measure(q.jobs[id])
  {
    StepKeepsInv(q, s);
    assert JobOk(q.jobs[id]);
    if s.id != id {
      StepIsLocal(q, s, id);
    }
  }

  /** Without operator retries every run of a job ends: it makes at most twice its attempt budget of status changes. */
  lemma {:induction false} RunsAreBounded(q: Queue, steps: seq<Step>, id: JobId)
    requires Inv(q) && id in q.jobs && !Mentions(steps, id, true, false)
    ensures id in Run(q, steps).jobs
    ensures StatusChanges(q, steps, id) + Measure(Run(q, steps).jobs[id]) <= Measure(q.jobs[id]) <= 2 * q.jobs[id].maxAttempts
    decreases |steps|
  {
    assert JobOk(q.jobs[id]);
    if steps == [] {
    } else {
      assert steps[0] in steps;
      StepKeepsInv(q, steps[0]);
      ChangeDecreasesMeasure(q, steps[0], id);
      RunsAreBounded(Apply(q, steps[0]), steps[1..], id);
    }
  }

  /** SUCCEEDED rows are never changed again, in any column; DEAD_LETTER and CANCELLED rows only by an operator's retry. */
  lemma {:induction false} TerminalJobIsFrozen(q: Queue, steps: seq<Step>, id: JobId)
    requires Inv(q) && id in q.jobs && Terminal(q.jobs[id].status)
    requires q.jobs[id].status == Succeeded || !Mentions(steps, id, true, false)
    ensures id in Run(q, steps).jobs && Run(q, steps).jobs[id] == q.jobs[id]
    decreases |steps|
  {
    if steps == [] {
    } else {
      assert steps[0] in steps;
      assert JobOk(q.jobs[id]);
      StepKeepsInv(q, steps[0]);
      if steps[0].id != id {
        StepIsLocal(q, steps[0], id);
      }
      TerminalJobIsFrozen(Apply(q, steps[0]), steps[1..], id);
    }
  }

  lemma AcceptedCancelSetsFlag(q: Queue, id: JobId, now: Time)
    requires id in q.jobs && (q.jobs[id].status == Pending || q.jobs[id].status == Running)
    ensures AnswerTo(q, Cancel(id, now)) == Done
    ensures Apply(q, Cancel(id, now)).jobs[id].cancelRequested
  {
  }

  /** After an accepted cancel no new attempt starts until an operator retries. */
  lemma {:induction false} CancelStopsNewAttempts(q: Queue, steps: seq<Step>, id: JobId)
    requires Inv(q) && id in q.jobs && q.jobs[id].cancelRequested && !Mentions(steps, id, true, false)
    ensures id in Run(q, steps).jobs && Run(q, steps).jobs[id].cancelRequested
    ensures Run(q, steps).jobs[id].attemptCount == q.jobs[id].attemptCount
    ensures forall n :: (id, n) in Run(q, steps).attempts ==> (id, n) in q.attempts
    decreases |steps|
  {
    if steps == [] {
    } else {
      assert steps[0] in steps;
      StepKeepsInv(q, steps[0]);
      if steps[0].id != id {
        StepIsLocal(q, steps[0], id);
      }
      assert AuditOk(q, id) && AuditOk(Apply(q, steps[0]), id);
      CancelStopsNewAttempts(Apply(q, steps[0]), steps[1..], id);
    }
  }

  /** A PENDING job whose cancel flag is set waits for an operator: nothing a worker does changes its row. */
  lemma {:induction false} FlaggedPendingJobIsStranded(q: Queue, steps: seq<Step>, id: JobId)
    requires Inv(q) && id in q.jobs && q.jobs[id].status == Pending && q.jobs[id].cancelRequested
    requires !Mentions(steps, id, true, true)
    ensures id in Run(q, steps).jobs && Run(q, steps).jobs[id] == q.jobs[id]
    decreases |steps|
  {
    if steps == [] {
    } else {
      assert steps[0] in steps;
      assert JobOk(q.jobs[id]);
      StepKeepsInv(q, steps[0]);
      if steps[0].id != id {
        StepIsLocal(q, steps[0], id);
      }
      FlaggedPendingJobIsStranded(Apply(q, steps[0]), steps[1..], id);
    }
  }

  /** That is where a failed attempt leaves a job whose cancellation was requested, exactly when it may still be retried. */
  lemma FailureStrandsCancelledJobIff(q: Queue, s: Step)
    requires Inv(q) && (s.Fail? || s.Reclaim?) && AnswerTo(q, s) == Done && q.jobs[s.id].cancelRequested
    ensures var j := Apply(q, s).jobs[s.id];
      j.status == Pending && j.cancelRequested <==> (s.Fail? ==> s.retryable) && q.jobs[s.id].attemptCount < q.jobs[s.id].maxAttempts
  {
  }

  const SUBMIT := Enqueue(0, "DATA_ANALYSIS", "key", 50, None, 5, None, 0)
  const FIRST_LEASE := Lease(0, "w", 60, 0)
  const FIRST_JOB := NewJob("DATA_ANALYSIS", "key", 50, 5, 0, 0)

  /** A first lease is reachable; the two examples below start from it. */
  lemma FirstLease()
    ensures Run(EMPTY, [SUBMIT, FIRST_LEASE]) == Queue(map[0 := LeasedJob(FIRST_JOB, "w", 60, 0)], map[(0, 1) := NewAttempt("w", 0)])
  {
    var q1 := Apply(EMPTY, SUBMIT);
    assert q1 == Queue(map[0 := FIRST_JOB], map[]);
    var q2 := Apply(q1, FIRST_LEASE);
    assert [SUBMIT, FIRST_LEASE][1..] == [FIRST_LEASE];
    assert Run(q1, [FIRST_LEASE]) == Run(q2, []);
  }

  /** An accepted cancel need not end a job: cancelled while it runs, it can go back to PENDING and stay there. */
  lemma CancelCanStrandAJob()
    ensures var q := Run(EMPTY, [SUBMIT, FIRST_LEASE] + [Cancel(0, 1), Fail(0, "w", "LLM_TIMEOUT", "m", true, 5, 300, 2)]);
      0 in q.jobs && q.jobs[0].status == Pending && q.jobs[0].cancelRequested
  {
    var cancel, fail := Cancel(0, 1), Fail(0, "w", "LLM_TIMEOUT", "m", true, 5, 300, 2);
    FirstLease();
    RunAppend(EMPTY, [SUBMIT, FIRST_LEASE], [cancel, fail]);
    var q2 := Run(EMPTY, [SUBMIT, FIRST_LEASE]);
    assert [cancel, fail][1..] == [fail];
    var q3 := Apply(q2, cancel);
    assert Run(q3, [fail]) == Run(Apply(q3, fail), []);
  }

  /** A worker that does not hold a job cannot get back to it except by a new lease of its own. */
  lemma {:induction false} LostLeaseStaysLost(q: Queue, steps: seq<Step>, id: JobId, workerId: string, now: Time)
    requires Inv(q) && id in q.jobs && q.jobs[id].lockedBy != Some(workerId)
    requires forall s :: s in steps && s.Lease? && s.id == id ==> s.workerId != workerId
    ensures !OwnsLiveLease(Run(q, steps), id, workerId, now)
    decreases |steps|
  {
    if steps == [] {
    } else {
      assert steps[0] in steps;
      StepKeepsInv(q, steps[0]);
      if steps[0].id != id {
        StepIsLocal(q, steps[0], id);
      }
      LostLeaseStaysLost(Apply(q, steps[0]), steps[1..], id, workerId, now);
    }
  }

  /**
   The job lease carries no attempt number. A handler started under attempt `n` that is allowed to complete its job
   marks its own attempt SUCCEEDED exactly when no later lease was taken, by the same worker id necessarily.
   */
  lemma CompletionIsOwnIff(q: Queue, id: JobId, n: nat, workerId: string, now: Time)
    requires Inv(q) && (id, n) in q.attempts && q.attempts[(id, n)].workerId == workerId
    requires AnswerTo(q, Complete(id, workerId, now)) == Done
    ensures (id, n) in Apply(q, Complete(id, workerId, now)).attempts
    ensures Apply(q, Complete(id, workerId, now)).attempts[(id, n)].status == AttemptSucceeded <==> n == q.jobs[id].attemptCount
  {
    StepKeepsInv(q, Complete(id, workerId, now));
    assert AuditOk(q, id) && AuditOk(Apply(q, Complete(id, workerId, now)), id);
  }

  const EXPIRY := Reclaim(0, 5, 300, Seconds(60))
  const SECOND_LEASE := Lease(0, "w", 60, Seconds(65))

  /** The other case exists: one worker id leases a job again after its lease expired, and its old handler completes the new attempt. */
  lemma StaleHandlerOfSameWorkerCanComplete()
    ensures var q := Run(EMPTY, [SUBMIT, FIRST_LEASE] + [EXPIRY, SECOND_LEASE]);
      var p := Apply(q, Complete(0, "w", Seconds(66)));
      && (0, 1) in q.attempts && q.attempts[(0, 1)].workerId == "w" && q.attempts[(0, 1)].status == AttemptFailed
      && (0, 2) in p.attempts && p.attempts[(0, 2)].status == AttemptSucceeded
  {
    FirstLease();
    RunAppend(EMPTY, [SUBMIT, FIRST_LEASE], [EXPIRY, SECOND_LEASE]);
    var q2 := Run(EMPTY, [SUBMIT, FIRST_LEASE]);
    assert [EXPIRY, SECOND_LEASE][1..] == [SECOND_LEASE];
    var q3 := Apply(q2, EXPIRY);
    assert q3.jobs[0].availableAt == Seconds(60) + Seconds(Backoff.Delay(1, 5, 300)) == Seconds(65);
    assert Run(q3, [SECOND_LEASE]) == Run(Apply(q3, SECOND_LEASE), []);
  }
}
