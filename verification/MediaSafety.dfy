/** What holds of media generation after any interleaving of workers, stale handlers, reclaims, reconcilers and operators. */
module MediaSafety {
  import opened Wrappers
  import opened MediaState
  import J = JobState
  import JS = JobSafety
  import Counting

  /** One handler run for each lease ever taken. */
  ghost predicate RunsOk(w: World) {
    w.runs.Keys == w.queue.attempts.Keys
  }

  ghost predicate LinksOk(w: World) {
    && (forall j :: j in w.mediaJobs ==> w.mediaJobs[j] in w.assets && j in w.queue.jobs)
    && (forall i, j :: i in w.mediaJobs && j in w.mediaJobs && w.mediaJobs[i] == w.mediaJobs[j] ==> i == j)
  }

  /** An asset's attempts are numbered without gaps from one. */
  ghost predicate NumbersOk(w: World) {
    forall a, k :: (a, k) in w.attempts ==> 1 <= k && (k > 1 ==> (a, k - 1) in w.attempts)
  }

  /** An attempt is the one started by the handler run of its lease. */
  ghost predicate OwnerOk(w: World, key: AttemptKey)
    requires key in w.attempts
  {
    var at := w.attempts[key];
    && at.jobId in w.mediaJobs && w.mediaJobs[at.jobId] == key.0
    && (at.jobId, at.jobAttempt) in w.runs
    && w.runs[(at.jobId, at.jobAttempt)] == HandlerRun(at.workerId, Some(key.1))
  }

  /** The attempt a handler run started is in the table, for that job and that lease. */
  ghost predicate StartedOk(w: World, r: J.AttemptKey) {
    HasStarted(w, r.0, r.1) && w.attempts[KeyOf(w, r.0, r.1)].jobId == r.0 && w.attempts[KeyOf(w, r.0, r.1)].jobAttempt == r.1
  }

  ghost predicate OwnersOk(w: World) {
    && (forall key :: key in w.attempts ==> OwnerOk(w, key))
    && (forall r :: r in w.runs && w.runs[r].attempt.Some? ==> StartedOk(w, r))
  }

  ghost predicate HasCompleted(w: World, a: AssetId) {
    exists k :: (a, k) in w.attempts && w.attempts[(a, k)].status == Completed
  }

  /** The ready event of an asset exists exactly when an attempt of it completed, and no asset is reviewable without one. */
  ghost predicate EvidenceOk(w: World) {
    && (forall a :: a in w.readyEvents <==> HasCompleted(w, a))
    && (forall a :: a in w.assets && Reviewable(w.assets[a].status) ==> a in w.readyEvents)
  }

  ghost predicate Inv(w: World) {
    JS.Inv(w.queue) && RunsOk(w) && LinksOk(w) && NumbersOk(w) && OwnersOk(w) && EvidenceOk(w)
  }

  /** The number a start would take. */
  ghost predicate IsNewNumber(w: World, s: Step, key: AttemptKey) {
    s.Start? && Enabled(w, s) && key == (w.mediaJobs[s.jobId], NextNumber(w.attempts, w.mediaJobs[s.jobId]))
  }

  lemma OnlyFinalizeCompletes(w: World, s: Step, key: AttemptKey)
    requires key in w.attempts && w.attempts[key].status != Completed
    requires key in Apply(w, s).attempts && Apply(w, s).attempts[key].status == Completed
    ensures s.Finalize? && Enabled(w, s) && key == KeyOf(w, s.jobId, s.n)
  {
  }

  lemma StepKeepsOrigin(w: World, s: Step, key: AttemptKey)
    requires key in w.attempts && !IsNewNumber(w, s, key)
    ensures key in Apply(w, s).attempts
    ensures var at, bt := w.attempts[key], Apply(w, s).attempts[key];
      && at.jobId == bt.jobId && at.workerId == bt.workerId && at.jobAttempt == bt.jobAttempt
      && (at.status != Started ==> at == bt)
  {
  }

  /** A step seen from one existing attempt: its origin never changes, and once it is terminal nothing of it does. */
  lemma StepOnAttempt(w: World, s: Step, key: AttemptKey)
    requires key in w.attempts && !IsNewNumber(w, s, key)
    ensures key in Apply(w, s).attempts
    ensures var at, bt := w.attempts[key], Apply(w, s).attempts[key];
      && at.jobId == bt.jobId && at.workerId == bt.workerId && at.jobAttempt == bt.jobAttempt
      && (at.status != Started ==> at == bt)
      && (bt.status == Completed && at.status != Completed ==> s.Finalize? && Enabled(w, s) && key == KeyOf(w, s.jobId, s.n))
  {
    StepKeepsOrigin(w, s, key);
    if w.attempts[key].status != Completed && Apply(w, s).attempts[key].status == Completed {
      OnlyFinalizeCompletes(w, s, key);
    }
  }

  lemma NextNumberIsFree(w: World, a: AssetId)
    ensures (a, NextNumber(w.attempts, a)) !in w.attempts
    ensures NextNumber(w.attempts, a) > 1 ==> (a, NextNumber(w.attempts, a) - 1) in w.attempts
  {
    var numbers := NumbersOf(w.attempts, a);
    assert forall k :: (a, k) in w.attempts ==> k in numbers;
    if NextNumber(w.attempts, a) > 1 {
      assert Maximum(numbers) in numbers;
    }
  }

  /** New attempts come from starts only, under the next number. */
  lemma StepOnNewAttempt(w: World, s: Step, key: AttemptKey)
    requires key in Apply(w, s).attempts && key !in w.attempts
    ensures s.Start? && Enabled(w, s) && key == (w.mediaJobs[s.jobId], NextNumber(w.attempts, w.mediaJobs[s.jobId]))
    ensures Apply(w, s).attempts[key] == Attempt(s.jobId, w.runs[(s.jobId, s.n)].workerId, s.n, Started, None, None, None)
    ensures Apply(w, s).runs == w.runs[(s.jobId, s.n) := HandlerRun(w.runs[(s.jobId, s.n)].workerId, Some(key.1))]
  {
  }

  /** A run is never removed; its worker stays, and so does the attempt it started. */
  lemma StepOnRun(w: World, s: Step, r: J.AttemptKey)
    requires RunsOk(w) && r in w.runs
    ensures r in Apply(w, s).runs && Apply(w, s).runs[r].workerId == w.runs[r].workerId
    ensures w.runs[r].attempt.Some? ==> Apply(w, s).runs[r] == w.runs[r]
    ensures Apply(w, s).runs[r] != w.runs[r] ==> s.Start? && Enabled(w, s) && r == (s.jobId, s.n)
  {
    if s.JobStep? && s.step.Lease? && J.AnswerTo(w.queue, s.step) == J.Done {
      assert (s.step.id, w.queue.jobs[s.step.id].attemptCount + 1) !in w.queue.attempts;
    }
  }

  lemma QueueOnlyGrows(q: J.Queue, s: J.Step)
    ensures q.jobs.Keys <= J.Apply(q, s).jobs.Keys && q.attempts.Keys <= J.Apply(q, s).attempts.Keys
  {
  }

  /** The queue moves by queue steps only, and runs appear with leases only. */
  lemma StepOnQueue(w: World, s: Step)
    ensures Apply(w, s).queue == (if s.JobStep? then J.Apply(w.queue, s.step)
                                  else if s.Request? && Enabled(w, s) then J.Apply(w.queue, EnqueueStep(s)) else w.queue)
    ensures forall r :: r in Apply(w, s).runs ==> r in w.runs || r in Apply(w, s).queue.attempts
  {
  }

  lemma OnlyLeasesAddAttempts(q: J.Queue, s: J.Step)
    ensures J.Apply(q, s).attempts.Keys
         == q.attempts.Keys + (if s.Lease? && J.AnswerTo(q, s) == J.Done then {(s.id, J.Apply(q, s).jobs[s.id].attemptCount)} else {})
  {
  }

  lemma StepKeepsRuns(w: World, s: Step)
    requires RunsOk(w)
    ensures RunsOk(Apply(w, s))
  {
    StepOnQueue(w, s);
    if s.JobStep? {
      OnlyLeasesAddAttempts(w.queue, s.step);
    } else if s.Request? && Enabled(w, s) {
      OnlyLeasesAddAttempts(w.queue, EnqueueStep(s));
    }
  }

  lemma StepKeepsQueue(w: World, s: Step)
    requires JS.Inv(w.queue)
    ensures JS.Inv(Apply(w, s).queue)
  {
    StepOnQueue(w, s);
    if s.JobStep? {
      JS.StepKeepsInv(w.queue, s.step);
    } else if s.Request? {
      JS.StepKeepsInv(w.queue, EnqueueStep(s));
    }
  }

  lemma StepGrowsQueue(w: World, s: Step)
    ensures w.queue.jobs.Keys <= Apply(w, s).queue.jobs.Keys && w.queue.attempts.Keys <= Apply(w, s).queue.attempts.Keys
  {
    StepOnQueue(w, s);
    if s.JobStep? {
      QueueOnlyGrows(w.queue, s.step);
    } else if s.Request? {
      QueueOnlyGrows(w.queue, EnqueueStep(s));
    }
  }

  lemma StepOnLinks(w: World, s: Step)
    ensures w.assets.Keys <= Apply(w, s).assets.Keys
    ensures Apply(w, s).mediaJobs == (if s.Request? && Enabled(w, s) then w.mediaJobs[s.jobId := s.assetId] else w.mediaJobs)
    ensures s.Request? && Enabled(w, s) ==> s.assetId in Apply(w, s).assets && s.assetId !in w.assets
    ensures s.Request? && Enabled(w, s) ==> s.jobId in Apply(w, s).queue.jobs && s.jobId !in w.queue.jobs
  {
  }

  lemma StepKeepsLinks(w: World, s: Step)
    requires RunsOk(w) && LinksOk(w)
    ensures RunsOk(Apply(w, s)) && LinksOk(Apply(w, s))
    ensures forall j :: j in w.mediaJobs ==> j in Apply(w, s).mediaJobs && Apply(w, s).mediaJobs[j] == w.mediaJobs[j]
  {
    StepKeepsRuns(w, s);
    StepGrowsQueue(w, s);
    StepOnLinks(w, s);
  }

  lemma StepKeepsNumbers(w: World, s: Step)
    requires Inv(w)
    ensures NumbersOk(Apply(w, s))
  {
    var v := Apply(w, s);
    forall a, k | (a, k) in v.attempts ensures 1 <= k && (k > 1 ==> (a, k - 1) in v.attempts) {
      if (a, k) !in w.attempts {
        StepOnNewAttempt(w, s, (a, k));
      }
      NextNumberIsFree(w, a);
      if k > 1 {
        KeepsAttempts(w, s, (a, k - 1));
      }
    }
  }

  lemma KeepsAttempts(w: World, s: Step, key: AttemptKey)
    requires key in w.attempts
    ensures key in Apply(w, s).attempts
  {
  }

  lemma StepKeepsOwner(w: World, s: Step, key: AttemptKey)
    requires Inv(w) && key in Apply(w, s).attempts
    ensures OwnerOk(Apply(w, s), key)
  {
    StepKeepsLinks(w, s);
    if key in w.attempts {
      assert OwnerOk(w, key);
      NextNumberIsFree(w, key.0);
      StepOnAttempt(w, s, key);
      StepOnRun(w, s, (w.attempts[key].jobId, w.attempts[key].jobAttempt));
    } else {
      StepOnNewAttempt(w, s, key);
    }
  }

  lemma NewRunIsIdle(w: World, s: Step, r: J.AttemptKey)
    requires r in Apply(w, s).runs && r !in w.runs
    ensures Apply(w, s).runs[r].attempt == None
  {
  }

  lemma StartIsRecorded(w: World, s: Step)
    requires s.Start? && Enabled(w, s)
    ensures StartedOk(Apply(w, s), (s.jobId, s.n))
  {
  }

  lemma StepKeepsStarted(w: World, s: Step, r: J.AttemptKey)
    requires Inv(w) && r in Apply(w, s).runs && Apply(w, s).runs[r].attempt.Some?
    ensures StartedOk(Apply(w, s), r)
  {
    if r !in w.runs {
      NewRunIsIdle(w, s, r);
    } else if w.runs[r].attempt.Some? {
      StepKeepsLinks(w, s);
      StepOnRun(w, s, r);
      assert StartedOk(w, r);
      NextNumberIsFree(w, w.mediaJobs[r.0]);
      StepOnAttempt(w, s, KeyOf(w, r.0, r.1));
    } else {
      StepOnRun(w, s, r);
      StartIsRecorded(w, s);
    }
  }

  lemma CompletedStays(w: World, s: Step, a: AssetId)
    requires HasCompleted(w, a)
    ensures HasCompleted(Apply(w, s), a)
  {
    var k :| (a, k) in w.attempts && w.attempts[(a, k)].status == Completed;
    NextNumberIsFree(w, a);
    StepOnAttempt(w, s, (a, k));
  }

  lemma CompletedAppears(w: World, s: Step, a: AssetId)
    requires HasCompleted(Apply(w, s), a) && !HasCompleted(w, a)
    ensures s.Finalize? && Enabled(w, s) && w.mediaJobs[s.jobId] == a
  {
    var k :| (a, k) in Apply(w, s).attempts && Apply(w, s).attempts[(a, k)].status == Completed;
    if (a, k) in w.attempts {
      NextNumberIsFree(w, a);
      StepOnAttempt(w, s, (a, k));
    } else {
      StepOnNewAttempt(w, s, (a, k));
    }
  }

  lemma StepOnEvents(w: World, s: Step)
    ensures Apply(w, s).readyEvents == w.readyEvents + (if s.Finalize? && Enabled(w, s) then {w.mediaJobs[s.jobId]} else {})
    ensures s.Finalize? && Enabled(w, s) ==> HasCompleted(Apply(w, s), w.mediaJobs[s.jobId])
  {
    if s.Finalize? && Enabled(w, s) {
      assert Apply(w, s).attempts[KeyOf(w, s.jobId, s.n)].status == Completed;
    }
  }

  lemma StepKeepsEvidence(w: World, s: Step)
    requires EvidenceOk(w)
    ensures EvidenceOk(Apply(w, s))
  {
    var v := Apply(w, s);
    StepOnEvents(w, s);
    forall a ensures a in v.readyEvents <==> HasCompleted(v, a) {
      if HasCompleted(w, a) {
        CompletedStays(w, s, a);
      } else if HasCompleted(v, a) {
        CompletedAppears(w, s, a);
      }
    }
    forall a | a in v.assets && Reviewable(v.assets[a].status) ensures a in v.readyEvents {
      BecomesReviewable(w, s, a);
    }
  }

  /** An asset becomes reviewable by a finalisation, or was. */
  lemma BecomesReviewable(w: World, s: Step, a: AssetId)
    requires a in Apply(w, s).assets && Reviewable(Apply(w, s).assets[a].status)
    ensures (a in w.assets && Reviewable(w.assets[a].status)) || (s.Finalize? && Enabled(w, s) && w.mediaJobs[s.jobId] == a)
  {
  }

  lemma StepKeepsInv(w: World, s: Step)
    requires Inv(w)
    ensures Inv(Apply(w, s))
  {
    StepKeepsQueue(w, s);
    StepKeepsLinks(w, s);
    StepKeepsNumbers(w, s);
    StepKeepsEvidence(w, s);
    forall key | key in Apply(w, s).attempts ensures OwnerOk(Apply(w, s), key) {
      StepKeepsOwner(w, s, key);
    }
    forall r | r in Apply(w, s).runs && Apply(w, s).runs[r].attempt.Some?
      ensures StartedOk(Apply(w, s), r)
    {
      StepKeepsStarted(w, s, r);
    }
  }

  lemma {:induction false} RunKeepsInv(w: World, steps: seq<Step>)
    requires Inv(w)
    ensures Inv(Run(w, steps))
    decreases |steps|
  {
    if steps == [] {
    } else {
      StepKeepsInv(w, steps[0]);
      RunKeepsInv(Apply(w, steps[0]), steps[1..]);
    }
  }

  /** The states some interleaving leads to. */
  ghost predicate Reachable(w: World) {
    exists steps :: w == Run(EMPTY, steps)
  }

  lemma ReachableIsSafe(w: World)
    requires Reachable(w)
    ensures Inv(w)
  {
    var steps :| w == Run(EMPTY, steps);
    RunKeepsInv(EMPTY, steps);
  }

  lemma ReachableRun(w: World, steps: seq<Step>)
    requires Reachable(w)
    ensures Reachable(Run(w, steps))
  {
    var before :| w == Run(EMPTY, before);
    RunAppend(EMPTY, before, steps);
  }

  lemma ReachableStep(w: World, s: Step)
    requires Reachable(w)
    ensures Reachable(Apply(w, s))
  {
    ReachableRun(w, [s]);
    assert Run(w, [s]) == Run(Apply(w, s), []);
  }

  /** Allocating the next number never meets the unique constraint, so the allocation retry is never taken. */
  lemma AllocationNeverConflicts(steps: seq<Step>, a: AssetId)
    ensures (a, NextNumber(Run(EMPTY, steps).attempts, a)) !in Run(EMPTY, steps).attempts
  {
    NextNumberIsFree(Run(EMPTY, steps), a);
  }

  /** Attempts of one asset belong to one job, at most one to each of its leases. */
  lemma OneAttemptPerLease(w: World, a: AssetId, k: nat, l: nat)
    requires Inv(w) && (a, k) in w.attempts && (a, l) in w.attempts
    ensures w.attempts[(a, k)].jobId == w.attempts[(a, l)].jobId
    ensures w.attempts[(a, k)].jobAttempt == w.attempts[(a, l)].jobAttempt ==> k == l
  {
    assert OwnerOk(w, (a, k)) && OwnerOk(w, (a, l));
  }

  lemma {:induction false} NumbersBelow(w: World, a: AssetId, k: nat, m: nat)
    requires NumbersOk(w) && (a, m) in w.attempts && 1 <= k <= m
    ensures (a, k) in w.attempts
    decreases m - k
  {
    if k == m {
    } else {
      NumbersBelow(w, a, k + 1, m);
    }
  }

  /** At least one lease of the asset's job was spent on each of its attempts, so it never has more attempts than leases. */
  lemma NoMoreAttemptsThanLeases(w: World, a: AssetId, m: nat, j: J.JobId)
    requires Inv(w) && (a, m) in w.attempts && w.attempts[(a, m)].jobId == j
    ensures j in w.queue.jobs && m <= w.queue.jobs[j].attemptCount
  {
    var value := map k | 1 <= k <= m && (a, k) in w.attempts :: w.attempts[(a, k)].jobAttempt;
    assert j in w.queue.jobs && JS.AuditOk(w.queue, j) by {
      assert OwnerOk(w, (a, m));
    }
    forall k | 1 <= k <= m ensures k in value && 1 <= value[k] <= w.queue.jobs[j].attemptCount {
      NumbersBelow(w, a, k, m);
      OneAttemptPerLease(w, a, k, m);
      assert OwnerOk(w, (a, k));
      assert (j, value[k]) in w.queue.attempts;
    }
    forall k, l | 1 <= k < l <= m ensures value[k] != value[l] {
      NumbersBelow(w, a, k, m);
      NumbersBelow(w, a, l, m);
      OneAttemptPerLease(w, a, k, l);
    }
    Counting.Injected(m, w.queue.jobs[j].attemptCount, value);
  }

  /** An attempt numbered like the current lease of its job is the last of its asset, after all the others. */
  lemma NumberedLikeLeases(w: World, a: AssetId, n: nat, j: J.JobId)
    requires Inv(w) && (a, n) in w.attempts && w.attempts[(a, n)].jobId == j && j in w.queue.jobs && w.queue.jobs[j].attemptCount == n
    ensures forall m :: (a, m) in w.attempts <==> 1 <= m <= n
  {
    forall m ensures (a, m) in w.attempts <==> 1 <= m <= n {
      if (a, m) in w.attempts {
        OneAttemptPerLease(w, a, m, n);
        NoMoreAttemptsThanLeases(w, a, m, j);
      }
      if 1 <= m <= n {
        NumbersBelow(w, a, m, n);
      }
    }
  }

  /** What one finalisation does. */
  lemma FinalizeOutcome(w: World, jobId: J.JobId, n: nat, content: string, now: Time)
    requires CanFinalize(w, jobId, n, now)
    ensures var v, key := Apply(w, Finalize(jobId, n, content, now)), KeyOf(w, jobId, n);
      && v.attempts.Keys == w.attempts.Keys && key.0 in v.assets && v.assets[key.0].status == ReadyForReview && key.0 in v.readyEvents
      && v.tasks.Keys == w.tasks.Keys
      && (TaskOf(w, w.assets[key.0]).Some? ==> v.tasks[TaskOf(w, w.assets[key.0]).value].status == TaskCompleted)
  {
  }

  /**
   Media success is fenced and atomic: an attempt becomes COMPLETED only in the transaction that makes its asset
   READY_FOR_REVIEW, its task COMPLETED and its ready event exist, under the live lease of the very job attempt
   that started it, held by the worker that started it; and at that moment the asset has exactly as many attempts
   as its job had leases, numbered from one.
   */
  lemma CompletionIsFencedAndAtomic(steps: seq<Step>, s: Step, key: AttemptKey)
    requires var w := Run(EMPTY, steps);
      && key in Apply(w, s).attempts && Apply(w, s).attempts[key].status == Completed
      && !(key in w.attempts && w.attempts[key].status == Completed)
    ensures var w, v := Run(EMPTY, steps), Apply(Run(EMPTY, steps), s);
      && s.Finalize? && key in w.attempts && key.0 in w.assets && key.0 in v.assets
      && w.attempts[key].jobId == s.jobId && w.attempts[key].jobAttempt == s.n == key.1
      && J.OwnsLiveLease(w.queue, s.jobId, w.attempts[key].workerId, s.now) && w.queue.jobs[s.jobId].attemptCount == s.n
      && w.assets[key.0].status == Generating && v.assets[key.0].status == ReadyForReview
      && (TaskOf(w, w.assets[key.0]).Some? ==> v.tasks[TaskOf(w, w.assets[key.0]).value].status == TaskCompleted)
      && key.0 in v.readyEvents
      && (forall m :: (key.0, m) in v.attempts <==> 1 <= m <= s.n)
  {
    var w := Run(EMPTY, steps);
    RunKeepsInv(EMPTY, steps);
    CompletesByFinalizing(w, s, key);
    FinalizeOutcome(w, s.jobId, s.n, s.content, s.now);
    NumberedLikeLeases(w, key.0, s.n, s.jobId);
  }

  lemma CompletesByFinalizing(w: World, s: Step, key: AttemptKey)
    requires Inv(w) && key in Apply(w, s).attempts && Apply(w, s).attempts[key].status == Completed
    requires !(key in w.attempts && w.attempts[key].status == Completed)
    ensures key in w.attempts && s.Finalize? && CanFinalize(w, s.jobId, s.n, s.now) && key == KeyOf(w, s.jobId, s.n)
  {
    NextNumberIsFree(w, key.0);
    if key !in w.attempts {
      StepOnNewAttempt(w, s, key);
    } else {
      StepOnAttempt(w, s, key);
    }
  }

  /** An asset enters READY_FOR_REVIEW in no other way. */
  lemma ReadyOnlyByFinalization(w: World, s: Step, a: AssetId)
    requires a in Apply(w, s).assets && Apply(w, s).assets[a].status == ReadyForReview
    requires !(a in w.assets && w.assets[a].status == ReadyForReview)
    ensures s.Finalize? && CanFinalize(w, s.jobId, s.n, s.now) && w.mediaJobs[s.jobId] == a
  {
  }

  /** A terminal attempt is never rewritten, by cleanup, by a reconciler or by anyone else, and no attempt is forgotten. */
  lemma {:induction false} TerminalAttemptIsFrozen(w: World, steps: seq<Step>, key: AttemptKey)
    requires Inv(w) && key in w.attempts
    ensures key in Run(w, steps).attempts
    ensures w.attempts[key].status != Started ==> Run(w, steps).attempts[key] == w.attempts[key]
    ensures Run(w, steps).attempts[key].workerId == w.attempts[key].workerId
    decreases |steps|
  {
    if steps == [] {
    } else {
      NextNumberIsFree(w, key.0);
      StepOnAttempt(w, steps[0], key);
      StepKeepsInv(w, steps[0]);
      TerminalAttemptIsFrozen(Apply(w, steps[0]), steps[1..], key);
    }
  }

  /** Only generated content is ever reviewed: a reviewable asset has a completed attempt and its ready event. */
  lemma ReviewableMeansGenerated(steps: seq<Step>, a: AssetId)
    requires a in Run(EMPTY, steps).assets && Reviewable(Run(EMPTY, steps).assets[a].status)
    ensures HasCompleted(Run(EMPTY, steps), a) && a in Run(EMPTY, steps).readyEvents
  {
    RunKeepsInv(EMPTY, steps);
  }
}
