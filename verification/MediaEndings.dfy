/**
 The media guide promises that no attempt remains STARTED after a terminal job state. When a transaction ends the job,
 what later transactions can do to a job that has ended, and the window between a worker's last two transactions.
 */
module MediaEndings {
  import opened Wrappers
  import opened MediaState
  import opened MediaSafety
  import opened MediaScenarios
  import J = JobState
  import JS = JobSafety
  import JP = JobProgress

  ghost predicate JobHasEnded(w: World, j: J.JobId) {
    j in w.queue.jobs && JP.Terminal(w.queue.jobs[j].status)
  }

  /** Some handler of the job has an attempt under way. */
  ghost predicate HasOpenRun(w: World, j: J.JobId) {
    exists n: nat :: HasStarted(w, j, n) && w.attempts[KeyOf(w, j, n)].status == Started
  }

  /** An asset's open attempts are those of its job's handlers. */
  lemma OpenAttemptsAreOpenRuns(w: World, j: J.JobId)
    requires LinksOk(w) && OwnersOk(w) && j in w.mediaJobs
    ensures Active(w.attempts, w.mediaJobs[j]) <==> HasOpenRun(w, j)
  {
    if Active(w.attempts, w.mediaJobs[j]) {
      var key :| key in w.attempts && key.0 == w.mediaJobs[j] && w.attempts[key].status == Started;
      assert OwnerOk(w, key);
      assert HasStarted(w, j, w.attempts[key].jobAttempt) && KeyOf(w, j, w.attempts[key].jobAttempt) == key;
    }
    if HasOpenRun(w, j) {
      var n: nat :| HasStarted(w, j, n) && w.attempts[KeyOf(w, j, n)].status == Started;
      assert KeyOf(w, j, n) in w.attempts;
    }
  }

  /** The guard of the branch that ends the job. */
  predicate Ends(job: J.Job, s: J.Step) {
    match s
    case Complete(_, _, _) => true
    case MarkCancelled(_, _, _) => true
    case Fail(_, _, _, _, retryable, _, _, _) => !retryable || job.attemptCount >= job.maxAttempts
    case Reclaim(_, _, _, _) => job.attemptCount >= job.maxAttempts
    case Cancel(_, _) => job.status == J.Pending
    case _ => false
  }

  lemma EndsIff(q: J.Queue, s: J.Step)
    requires J.AnswerTo(q, s) == J.Done && s.id in q.jobs && !JP.Terminal(q.jobs[s.id].status)
    ensures s.id in J.Apply(q, s).jobs && (JP.Terminal(J.Apply(q, s).jobs[s.id].status) <==> Ends(q.jobs[s.id], s))
    ensures s.Reclaim? ==> (J.Apply(q, s).jobs[s.id].status == J.DeadLetter <==> q.jobs[s.id].attemptCount >= q.jobs[s.id].maxAttempts)
  {
  }

  /**
   A queue transaction leaves a job that has ended with an attempt STARTED exactly if it takes the branch that ends the
   job, for a reclaim that the budget is used up, while some handler of the job has an attempt under way.
   */
  lemma JobEndLeavesOpenAttemptIff(w: World, s: J.Step)
    requires Inv(w) && s.id in w.mediaJobs && J.AnswerTo(w.queue, s) == J.Done && !JobHasEnded(w, s.id)
    ensures var v := Apply(w, JobStep(s));
      JobHasEnded(v, s.id) && Active(v.attempts, w.mediaJobs[s.id]) <==> Ends(w.queue.jobs[s.id], s) && HasOpenRun(w, s.id)
    ensures s.Reclaim? ==> var v := Apply(w, JobStep(s));
      s.id in v.queue.jobs
      && (v.queue.jobs[s.id].status == J.DeadLetter && Active(v.attempts, w.mediaJobs[s.id])
          <==> w.queue.jobs[s.id].attemptCount >= w.queue.jobs[s.id].maxAttempts && HasOpenRun(w, s.id))
  {
    EndsIff(w.queue, s);
    OpenAttemptsAreOpenRuns(w, s.id);
    QueueStepsKeepAttempts(w, s);
  }

  lemma QueueStepsKeepAttempts(w: World, s: J.Step)
    ensures Apply(w, JobStep(s)).attempts == w.attempts && Apply(w, JobStep(s)).queue == J.Apply(w.queue, s)
    ensures Apply(w, JobStep(s)).mediaJobs == w.mediaJobs
  {
  }

  // ----- after the end

  ghost predicate IsStartOf(w: World, s: Step, j: J.JobId) {
    s.Start? && s.jobId == j && CanStart(w, j, s.n)
  }

  /** A start is the only transaction that opens an attempt of the asset, and every start does. */
  lemma OpensIff(w: World, s: Step, j: J.JobId)
    requires LinksOk(w) && j in w.mediaJobs
    ensures IsStartOf(w, s, j) ==> Active(Apply(w, s).attempts, w.mediaJobs[j])
    ensures !Active(w.attempts, w.mediaJobs[j]) ==> (Active(Apply(w, s).attempts, w.mediaJobs[j]) <==> IsStartOf(w, s, j))
  {
    var a := w.mediaJobs[j];
    if IsStartOf(w, s, j) {
      var key := (a, NextNumber(w.attempts, a));
      assert key in Apply(w, s).attempts && Apply(w, s).attempts[key].status == Started;
    } else if !Active(w.attempts, a) && Active(Apply(w, s).attempts, a) {
      var key :| key in Apply(w, s).attempts && key.0 == a && Apply(w, s).attempts[key].status == Started;
      if key in w.attempts {
        NextNumberIsFree(w, a);
        StepOnAttempt(w, s, key);
      } else {
        StepOnNewAttempt(w, s, key);
      }
    }
  }

  /** At some moment of the run, its beginning included, an attempt of the asset is STARTED. */
  ghost predicate OpenAtSomeMoment(w: World, steps: seq<Step>, a: AssetId)
    decreases |steps|
  {
    Active(w.attempts, a) || (steps != [] && OpenAtSomeMoment(Apply(w, steps[0]), steps[1..], a))
  }

  /** An idle handler of the job starts an attempt in the course of the run. */
  ghost predicate StartsAlong(w: World, steps: seq<Step>, j: J.JobId)
    decreases |steps|
  {
    steps != [] && (IsStartOf(w, steps[0], j) || StartsAlong(Apply(w, steps[0]), steps[1..], j))
  }

  lemma {:induction false} OpenAtSomeMomentIff(w: World, steps: seq<Step>, j: J.JobId)
    requires Inv(w) && j in w.mediaJobs
    ensures OpenAtSomeMoment(w, steps, w.mediaJobs[j]) <==> HasOpenRun(w, j) || StartsAlong(w, steps, j)
    decreases |steps|
  {
    OpenAttemptsAreOpenRuns(w, j);
    if steps == [] || HasOpenRun(w, j) {
    } else {
      var v := Apply(w, steps[0]);
      OpensIff(w, steps[0], j);
      StepKeepsInv(w, steps[0]);
      StepKeepsLinks(w, steps[0]);
      OpenAttemptsAreOpenRuns(v, j);
      OpenAtSomeMomentIff(v, steps[1..], j);
      assert OpenAtSomeMoment(w, steps, w.mediaJobs[j]) <==> OpenAtSomeMoment(v, steps[1..], v.mediaJobs[j]);
    }
  }

  ghost predicate Retries(steps: seq<Step>, j: J.JobId) {
    exists s :: s in steps && s.JobStep? && s.step.Retry? && s.step.id == j
  }

  lemma EndedJobStaysEnded(w: World, s: Step, j: J.JobId)
    requires JS.Inv(w.queue) && JobHasEnded(w, j) && !(s.JobStep? && s.step.Retry? && s.step.id == j)
    ensures JS.Inv(Apply(w, s).queue) && JobHasEnded(Apply(w, s), j)
  {
    StepOnQueue(w, s);
    StepKeepsQueue(w, s);
    assert JS.JobOk(w.queue.jobs[j]);
    if s.JobStep? && s.step.id != j {
      JS.StepIsLocal(w.queue, s.step, j);
    } else if s.Request? && EnqueueStep(s).id != j {
      JS.StepIsLocal(w.queue, EnqueueStep(s), j);
    }
  }

  lemma {:induction false} EndedJobStaysEndedAlong(w: World, steps: seq<Step>, j: J.JobId)
    requires JS.Inv(w.queue) && JobHasEnded(w, j) && !Retries(steps, j)
    ensures JobHasEnded(Run(w, steps), j)
    decreases |steps|
  {
    if steps == [] {
    } else {
      assert steps[0] in steps && forall s :: s in steps[1..] ==> s in steps;
      EndedJobStaysEnded(w, steps[0], j);
      EndedJobStaysEndedAlong(Apply(w, steps[0]), steps[1..], j);
    }
  }

  /**
   The whole promise: from the transaction that ends the job on, and as long as no operator retries it, no attempt is
   ever STARTED if and only if none was under way at the end and no idle handler of the job starts one afterwards.
   A start looks at neither the job nor its lease.
   */
  lemma PromiseIsKeptIff(w: World, s: J.Step, steps: seq<Step>)
    requires Inv(w) && s.id in w.mediaJobs && J.AnswerTo(w.queue, s) == J.Done && !JobHasEnded(w, s.id)
    requires Ends(w.queue.jobs[s.id], s) && !Retries(steps, s.id)
    ensures var v := Apply(w, JobStep(s));
      && JobHasEnded(Run(v, steps), s.id)
      && (!OpenAtSomeMoment(v, steps, w.mediaJobs[s.id]) <==> !HasOpenRun(w, s.id) && !StartsAlong(v, steps, s.id))
  {
    var v := Apply(w, JobStep(s));
    EndsIff(w.queue, s);
    QueueStepsKeepAttempts(w, s);
    StepKeepsInv(w, JobStep(s));
    EndedJobStaysEndedAlong(v, steps, s.id);
    OpenAttemptsAreOpenRuns(w, s.id);
    OpenAttemptsAreOpenRuns(v, s.id);
    OpenAtSomeMomentIff(v, steps, s.id);
  }

  // ----- what closes attempts

  lemma NothingIsLeftOpen(attempts: map<AttemptKey, Attempt>, a: AssetId, status: AttemptStatus, code: string, message: string, now: Time)
    requires status != Started
    ensures !Active(ActiveClosed(attempts, a, status, code, message, now), a)
  {
  }

  /** The terminal reconciler and the consistency check leave no attempt of the asset open. */
  lemma ReconcilersCloseEverything(w: World, s: Step)
    requires (s.Reconcile? || s.EnsureSuccess?) && HasAsset(w, s.jobId)
    ensures !Active(Apply(w, s).attempts, w.mediaJobs[s.jobId])
  {
    var a := w.mediaJobs[s.jobId];
    match s
    case Reconcile(_, cancelled, code, message, now) =>
      NothingIsLeftOpen(w.attempts, a, if cancelled then AttemptCancelled else AttemptFailed,
                        Or(code, "JOB_TERMINAL_RECONCILIATION"), Or(message, "Terminal job reconciled media attempt"), now);
    case EnsureSuccess(_, now) =>
      NothingIsLeftOpen(w.attempts, a, AttemptFailed, ORPHANED, "Successful handler left an active media attempt", now);
  }

  /** So the worker's own two transactions leave an attempt open exactly in between, if one was under way. */
  lemma WindowIsOpenIff(w: World, s: J.Step, others: seq<Step>, cancelled: bool, code: string, message: string, now: Time)
    requires Inv(w) && s.id in w.mediaJobs && (s.Fail? || s.MarkCancelled?) && J.AnswerTo(w.queue, s) == J.Done
    ensures var v := Apply(w, JobStep(s)); var a := w.mediaJobs[s.id];
      && (Active(v.attempts, a) <==> HasOpenRun(w, s.id))
      && (OpenAtSomeMoment(v, others, a) <==> HasOpenRun(w, s.id) || StartsAlong(v, others, s.id))
      && !Active(Apply(Run(v, others), Reconcile(s.id, cancelled, Some(code), Some(message), now)).attempts, a)
  {
    var v := Apply(w, JobStep(s));
    QueueStepsKeepAttempts(w, s);
    StepKeepsInv(w, JobStep(s));
    OpenAttemptsAreOpenRuns(w, s.id);
    OpenAttemptsAreOpenRuns(v, s.id);
    OpenAtSomeMomentIff(v, others, s.id);
    LinkStaysAlong(v, others, s.id);
    ReconcilersCloseEverything(Run(v, others), Reconcile(s.id, cancelled, Some(code), Some(message), now));
  }

  lemma {:induction false} LinkStaysAlong(w: World, steps: seq<Step>, j: J.JobId)
    requires RunsOk(w) && LinksOk(w) && j in w.mediaJobs
    ensures HasAsset(Run(w, steps), j) && Run(w, steps).mediaJobs[j] == w.mediaJobs[j]
    decreases |steps|
  {
    if steps == [] {
    } else {
      StepKeepsLinks(w, steps[0]);
      LinkStaysAlong(Apply(w, steps[0]), steps[1..], j);
    }
  }

  // ----- reachable examples

  const FAIL := JobStep(J.Fail(0, FIRST_WORKER, "MEDIA_ERROR", "Media generation failed", false, 5, 300, 2))

  ghost predicate DeadAndOpen(w: World) {
    0 in w.queue.jobs && w.queue.jobs[0].status == J.DeadLetter && Active(w.attempts, 0)
  }

  lemma StartedOnce(budget: int)
    requires budget >= 1
    ensures var w := Run(EMPTY, [RequestOf(Image, budget), LEASE] + [START]);
      w.queue == LeasedQueue(Image, budget) && w.attempts == map[(0, 1) := OpenAttempt(1, FIRST_WORKER)]
  {
    RequestAndLease(Image, budget);
    RunAppend(EMPTY, [RequestOf(Image, budget), LEASE], [START]);
    RunOne(Leased(Image, budget), START);
    FirstStart(Leased(Image, budget), Image);
  }

  /** A worker dies during the only attempt, the lease expires, and the reclaim ends the job with the attempt STARTED. */
  lemma DeadJobCanKeepAnOpenAttempt()
    ensures DeadAndOpen(Run(EMPTY, [RequestOf(Image, 1), LEASE] + [START] + [RECLAIM]))
  {
    var w := Run(EMPTY, [RequestOf(Image, 1), LEASE] + [START]);
    StartedOnce(1);
    RunAppend(EMPTY, [RequestOf(Image, 1), LEASE] + [START], [RECLAIM]);
    RunOne(w, RECLAIM);
    Reclaimed(Image, 1);
    QueueStepsKeepAttempts(w, RECLAIM.step);
    assert (0, 1) in w.attempts;
  }

  /** Nothing is open when the job dies, but its slow handler starts an attempt afterwards. */
  lemma DeadJobCanOpenAnAttempt()
    ensures var w := Run(EMPTY, [RequestOf(Image, 1), LEASE] + [RECLAIM]);
      && 0 in w.queue.jobs && w.queue.jobs[0].status == J.DeadLetter && !Active(w.attempts, 0)
      && DeadAndOpen(Apply(w, START))
  {
    var w := Apply(Leased(Image, 1), RECLAIM);
    RequestAndLease(Image, 1);
    RunAppend(EMPTY, [RequestOf(Image, 1), LEASE], [RECLAIM]);
    RunOne(Leased(Image, 1), RECLAIM);
    Reclaimed(Image, 1);
    QueueStepsKeepAttempts(Leased(Image, 1), RECLAIM.step);
    assert w == Leased(Image, 1).(queue := w.queue);
    FirstStart(w, Image);
    assert (0, 1) in Apply(w, START).attempts;
  }

  /** A worker dies between the transaction that fails its job for good and the one that reconciles its media. */
  lemma DyingWorkerLeavesItOpen()
    ensures DeadAndOpen(Run(EMPTY, [RequestOf(Image, 2), LEASE] + [START] + [FAIL]))
  {
    var w := Run(EMPTY, [RequestOf(Image, 2), LEASE] + [START]);
    StartedOnce(2);
    RunAppend(EMPTY, [RequestOf(Image, 2), LEASE] + [START], [FAIL]);
    RunOne(w, FAIL);
    QueueStepsKeepAttempts(w, FAIL.step);
    assert J.AnswerTo(w.queue, FAIL.step) == J.Done;
    assert (0, 1) in w.attempts;
  }
}
