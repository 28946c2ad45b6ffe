/**
 The finalisation wants the number of the asset's attempt to equal the number of the job's lease. What that asks of
 the leases before, exactly, and what it means for a job whose handlers did not all start an attempt in turn.
 */
module MediaNumbering {
  import opened Wrappers
  import opened MediaState
  import opened MediaSafety
  import opened MediaProcessor
  import opened MediaScenarios
  import J = JobState
  import JS = JobSafety
  import Counting

  /** The job attempts that an asset's media attempts 1 to `n` were started under. */
  ghost function LeasesUsed(w: World, a: AssetId, n: nat): map<nat, nat> {
    map k | 1 <= k <= n && (a, k) in w.attempts :: w.attempts[(a, k)].jobAttempt
  }

  ghost function UsedBefore(w: World, a: AssetId, k: nat): set<nat>
    requires k >= 1
  {
    Counting.Image(k - 1, LeasesUsed(w, a, k - 1))
  }

  /** The handler of lease `m` started an attempt with a number below `k`. */
  ghost predicate StartedBelow(w: World, j: J.JobId, m: nat, k: nat) {
    (j, m) in w.runs && w.runs[(j, m)].attempt.Some? && w.runs[(j, m)].attempt.value < k
  }

  /** The handlers of all leases before `n` started an attempt. */
  ghost predicate AllStartedBefore(w: World, j: J.JobId, n: nat) {
    forall m: nat :: 1 <= m < n ==> (j, m) in w.runs && w.runs[(j, m)].attempt.Some?
  }

  /** And they did so before attempt number `k`. */
  ghost predicate InTurn(w: World, j: J.JobId, n: nat, k: nat) {
    forall m: nat :: 1 <= m < n ==> StartedBelow(w, j, m, k)
  }

  /** Attempts 1 to `k - 1` of the asset exist. */
  ghost predicate HasAttemptsBelow(w: World, a: AssetId, k: nat) {
    forall i: nat :: 1 <= i < k ==> (a, i) in w.attempts
  }

  lemma DistinctLeases(w: World, a: AssetId, i: nat, l: nat)
    requires LinksOk(w) && OwnersOk(w) && (a, i) in w.attempts && (a, l) in w.attempts && i != l
    ensures w.attempts[(a, i)].jobAttempt != w.attempts[(a, l)].jobAttempt
  {
    assert OwnerOk(w, (a, i)) && OwnerOk(w, (a, l));
  }

  lemma UsedAreDistinct(w: World, a: AssetId, k: nat)
    requires LinksOk(w) && OwnersOk(w) && k >= 1 && HasAttemptsBelow(w, a, k)
    ensures |UsedBefore(w, a, k)| == k - 1
  {
    var used := LeasesUsed(w, a, k - 1);
    forall i, l | 1 <= i < l <= k - 1 ensures used[i] != used[l] {
      DistinctLeases(w, a, i, l);
    }
    Counting.Images(k - 1, used);
  }

  lemma UsedWasStarted(w: World, j: J.JobId, k: nat, m: nat)
    requires LinksOk(w) && OwnersOk(w) && j in w.mediaJobs && k >= 1 && m in UsedBefore(w, w.mediaJobs[j], k)
    ensures StartedBelow(w, j, m, k)
  {
    var used := LeasesUsed(w, w.mediaJobs[j], k - 1);
    var i :| i in used && 1 <= i <= k - 1 && used[i] == m;
    assert OwnerOk(w, (w.mediaJobs[j], i));
  }

  lemma StartedIsUsed(w: World, j: J.JobId, k: nat, m: nat)
    requires LinksOk(w) && OwnersOk(w) && NumbersOk(w) && j in w.mediaJobs && k >= 1 && StartedBelow(w, j, m, k)
    ensures m in UsedBefore(w, w.mediaJobs[j], k)
  {
    var i := w.runs[(j, m)].attempt.value;
    assert StartedOk(w, (j, m));
    assert (w.mediaJobs[j], i) in w.attempts && 1 <= i;
    var used := LeasesUsed(w, w.mediaJobs[j], k - 1);
    assert i in used && used[i] == m;
  }

  ghost predicate OnlyEarlierBelow(w: World, j: J.JobId, n: nat, k: nat) {
    forall m: nat :: StartedBelow(w, j, m, k) ==> 1 <= m < n
  }

  /** Attempt number `k` is that of lease `n`, with only leases before `n` below it, exactly if each of these started in turn. */
  lemma NumberMatchesLeaseIff(w: World, j: J.JobId, n: nat, k: nat)
    requires LinksOk(w) && OwnersOk(w) && NumbersOk(w) && j in w.mediaJobs && k >= 1 && n >= 1
    requires HasAttemptsBelow(w, w.mediaJobs[j], k) && OnlyEarlierBelow(w, j, n, k)
    ensures k == n <==> InTurn(w, j, n, k)
  {
    var used := UsedBefore(w, w.mediaJobs[j], k);
    UsedAreDistinct(w, w.mediaJobs[j], k);
    forall m: nat ensures m in used <==> StartedBelow(w, j, m, k) {
      if m in used {
        UsedWasStarted(w, j, k, m);
      }
      if StartedBelow(w, j, m, k) {
        StartedIsUsed(w, j, k, m);
      }
    }
    FullUse(used, n, k, w, j);
  }

  lemma FullUse(used: set<nat>, n: nat, k: nat, w: World, j: J.JobId)
    requires |used| == k - 1 && n >= 1 && OnlyEarlierBelow(w, j, n, k)
    requires forall m: nat :: m in used <==> StartedBelow(w, j, m, k)
    ensures k == n <==> InTurn(w, j, n, k)
  {
    Counting.FullIff(used, n - 1);
  }

  lemma AllNumbersBelow(w: World, a: AssetId)
    requires NumbersOk(w)
    ensures HasAttemptsBelow(w, a, NextNumber(w.attempts, a))
    ensures forall i: nat :: (a, i) in w.attempts ==> 1 <= i < NextNumber(w.attempts, a)
  {
    NextNumberIsFree(w, a);
    forall i: nat | 1 <= i < NextNumber(w.attempts, a) ensures (a, i) in w.attempts {
      NumbersBelow(w, a, i, NextNumber(w.attempts, a) - 1);
    }
    forall i: nat | (a, i) in w.attempts ensures 1 <= i < NextNumber(w.attempts, a) {
      assert i in NumbersOf(w.attempts, a);
    }
  }

  /** Leases are numbered from 1 to the job's attempt count. */
  lemma LeasesAreCounted(w: World, j: J.JobId)
    requires JS.Inv(w.queue) && RunsOk(w) && j in w.queue.jobs
    ensures forall m: nat :: (j, m) in w.runs <==> 1 <= m <= w.queue.jobs[j].attemptCount
  {
    assert JS.AuditOk(w.queue, j);
    assert forall m: nat :: (j, m) in w.runs.Keys <==> (j, m) in w.queue.attempts.Keys;
  }

  lemma StartedNumbersAreBelowNext(w: World, j: J.JobId, m: nat)
    requires OwnersOk(w) && NumbersOk(w) && j in w.mediaJobs && (j, m) in w.runs && w.runs[(j, m)].attempt.Some?
    ensures StartedBelow(w, j, m, NextNumber(w.attempts, w.mediaJobs[j]))
  {
    assert StartedOk(w, (j, m));
    AllNumbersBelow(w, w.mediaJobs[j]);
  }

  lemma InTurnAtNext(w: World, j: J.JobId, n: nat)
    requires OwnersOk(w) && NumbersOk(w) && j in w.mediaJobs
    ensures InTurn(w, j, n, NextNumber(w.attempts, w.mediaJobs[j])) <==> AllStartedBefore(w, j, n)
  {
    var k := NextNumber(w.attempts, w.mediaJobs[j]);
    forall m: nat | 1 <= m < n ensures StartedBelow(w, j, m, k) <==> (j, m) in w.runs && w.runs[(j, m)].attempt.Some? {
      if (j, m) in w.runs && w.runs[(j, m)].attempt.Some? {
        StartedNumbersAreBelowNext(w, j, m);
      }
    }
  }

  /** Under the current lease only handlers of earlier leases can have started before. */
  lemma OthersAreEarlier(w: World, j: J.JobId, n: nat, k: nat)
    requires JS.Inv(w.queue) && RunsOk(w) && j in w.queue.jobs && w.queue.jobs[j].attemptCount == n && (j, n) in w.runs
    requires w.runs[(j, n)].attempt.Some? ==> k <= w.runs[(j, n)].attempt.value
    ensures n >= 1 && OnlyEarlierBelow(w, j, n, k)
  {
    LeasesAreCounted(w, j);
    forall m: nat | StartedBelow(w, j, m, k) ensures 1 <= m < n {
      assert (j, m) in w.runs;
    }
  }

  /** A start under the current lease takes the lease's number exactly if the handlers of all earlier leases started an attempt. */
  lemma StartTakesLeaseNumberIff(w: World, j: J.JobId, n: nat)
    requires Inv(w) && CanStart(w, j, n) && j in w.queue.jobs && w.queue.jobs[j].attemptCount == n
    ensures NextNumber(w.attempts, w.mediaJobs[j]) == n <==> AllStartedBefore(w, j, n)
  {
    var k := NextNumber(w.attempts, w.mediaJobs[j]);
    AllNumbersBelow(w, w.mediaJobs[j]);
    OthersAreEarlier(w, j, n, k);
    NumberMatchesLeaseIff(w, j, n, k);
    InTurnAtNext(w, j, n);
  }

  /** Attempt, asset and task are as the start left them. */
  ghost predicate Undisturbed(w: World, j: J.JobId, n: nat)
    requires HasStarted(w, j, n)
  {
    && w.attempts[KeyOf(w, j, n)].status == Started
    && HasAsset(w, j) && w.assets[w.mediaJobs[j]].status == Generating
    && (TaskOf(w, w.assets[w.mediaJobs[j]]).Some? ==> w.tasks[TaskOf(w, w.assets[w.mediaJobs[j]]).value].status == TaskProcessing)
  }

  /** At any moment a handler with content can finalise exactly if it holds the lease, nobody interfered, and all leases before started in turn. */
  lemma CanFinalizeIff(w: World, j: J.JobId, n: nat, now: Time)
    requires Inv(w) && HasStarted(w, j, n)
    ensures CanFinalize(w, j, n, now) <==>
      OwnsLiveJobLease(w, j, w.runs[(j, n)].workerId, n, now) && Undisturbed(w, j, n) && InTurn(w, j, n, KeyOf(w, j, n).1)
  {
    var a, k := w.mediaJobs[j], KeyOf(w, j, n).1;
    assert StartedOk(w, (j, n)) && OwnerOk(w, (a, k));
    if w.queue.jobs[j].attemptCount == n {
      forall i: nat | 1 <= i < k ensures (a, i) in w.attempts {
        NumbersBelow(w, a, i, k);
      }
      OthersAreEarlier(w, j, n, k);
      NumberMatchesLeaseIff(w, j, n, k);
    }
  }

  /** What is there for the finalisation right after a start. */
  lemma StartLeaves(w: World, j: J.JobId, n: nat, now: Time)
    requires CanStart(w, j, n)
    ensures var v := Apply(w, Start(j, n, now));
      && v.queue == w.queue && HasStarted(v, j, n) && KeyOf(v, j, n) == (w.mediaJobs[j], NextNumber(w.attempts, w.mediaJobs[j]))
      && v.runs[(j, n)].workerId == w.runs[(j, n)].workerId && Undisturbed(v, j, n)
      && v.attempts[KeyOf(v, j, n)] == Attempt(j, w.runs[(j, n)].workerId, n, Started, None, None, None)
  {
  }

  /** Seen before the start: a handler that starts now will be able to finalise, undisturbed, exactly if the job's lease is its own and every earlier one started an attempt. */
  lemma StartDecidesFinalization(w: World, j: J.JobId, n: nat, now: Time, later: Time)
    requires Inv(w) && CanStart(w, j, n)
    ensures CanFinalize(Apply(w, Start(j, n, now)), j, n, later) <==>
      OwnsLiveJobLease(w, j, w.runs[(j, n)].workerId, n, later) && AllStartedBefore(w, j, n)
  {
    StartLeaves(w, j, n, now);
    if w.queue.jobs[j].attemptCount == n {
      StartTakesLeaseNumberIff(w, j, n);
    }
  }

  lemma {:induction false} QueueAttemptsStay(w: World, steps: seq<Step>)
    ensures w.queue.attempts.Keys <= Run(w, steps).queue.attempts.Keys
    decreases |steps|
  {
    if steps == [] {
    } else {
      StepGrowsQueue(w, steps[0]);
      QueueAttemptsStay(Apply(w, steps[0]), steps[1..]);
    }
  }

  /** And a handler that starts otherwise can never finalise, whatever happens afterwards. */
  lemma OutOfTurnNeverFinalizes(w: World, j: J.JobId, n: nat, now: Time, steps: seq<Step>, later: Time)
    requires Inv(w) && CanStart(w, j, n) && !(w.queue.jobs[j].attemptCount == n && AllStartedBefore(w, j, n))
    ensures !CanFinalize(Run(Apply(w, Start(j, n, now)), steps), j, n, later)
  {
    var v := Apply(w, Start(j, n, now));
    var u, key := Run(v, steps), (w.mediaJobs[j], NextNumber(w.attempts, w.mediaJobs[j]));
    StepKeepsInv(w, Start(j, n, now));
    RunKeepsInv(v, steps);
    StartOwns(w, j, n, now);
    OwnsStays(v, steps, j, n, key);
    LeasesAreCounted(w, j);
    if w.queue.jobs[j].attemptCount == n {
      StartTakesLeaseNumberIff(w, j, n);
    } else {
      assert (j, n + 1) in w.queue.attempts.Keys;
      StepGrowsQueue(w, Start(j, n, now));
      QueueAttemptsStay(v, steps);
      LaterLeaseStays(u, j, n);
    }
  }

  lemma LaterLeaseStays(w: World, j: J.JobId, n: nat)
    requires JS.Inv(w.queue) && (j, n + 1) in w.queue.attempts
    ensures j in w.queue.jobs && w.queue.jobs[j].attemptCount > n
  {
    assert JS.AuditOk(w.queue, j);
  }

  lemma FinalizableMeansStarted(w: World, j: J.JobId, n: nat, now: Time, m: nat)
    requires Inv(w) && CanFinalize(w, j, n, now) && (j, m) in w.runs
    ensures w.runs[(j, m)].attempt.Some?
  {
    CanFinalizeIff(w, j, n, now);
    LeasesAreCounted(w, j);
    assert m < n ==> StartedBelow(w, j, m, KeyOf(w, j, n).1);
  }

  /** A lease whose handler started nothing rules out every finalisation of the job meanwhile. */
  lemma IdleHandlerBlocksFinalization(w: World, j: J.JobId, idle: nat, n: nat, now: Time)
    requires Inv(w) && (j, idle) in w.runs && w.runs[(j, idle)].attempt == None
    ensures !CanFinalize(w, j, n, now)
  {
    if CanFinalize(w, j, n, now) {
      FinalizableMeansStarted(w, j, n, now, idle);
    }
  }

  /** As long as that handler starts nothing, no attempt of the asset becomes COMPLETED. */
  lemma {:induction false} IdleHandlerBlocksCompletion(w: World, steps: seq<Step>, j: J.JobId, idle: nat)
    requires Inv(w) && j in w.mediaJobs && (j, idle) in w.runs && w.runs[(j, idle)].attempt == None
    requires forall s :: s in steps && s.Start? ==> (s.jobId, s.n) != (j, idle)
    ensures HasCompleted(Run(w, steps), w.mediaJobs[j]) <==> HasCompleted(w, w.mediaJobs[j])
    decreases |steps|
  {
    if steps == [] {
    } else {
      var s, a := steps[0], w.mediaJobs[j];
      assert s in steps;
      StepOnRun(w, s, (j, idle));
      StepKeepsInv(w, s);
      StepKeepsLinks(w, s);
      if HasCompleted(w, a) {
        CompletedStays(w, s, a);
      } else if HasCompleted(Apply(w, s), a) {
        CompletedAppears(w, s, a);
        IdleHandlerBlocksFinalization(w, s.jobId, idle, s.n, s.now);
      }
      IdleHandlerBlocksCompletion(Apply(w, s), steps[1..], j, idle);
    }
  }

  /** Only handlers of leases still to be taken start attempts for the job. */
  ghost predicate NoLateStart(w: World, steps: seq<Step>, j: J.JobId) {
    forall s :: s in steps && s.Start? && s.jobId == j ==> (j, s.n) !in w.runs
  }

  ghost predicate Startable(asset: Asset, hasTask: bool) {
    asset.status != ReadyForReview && (asset.kind == Image ==> asset.status != Approved) && (asset.kind == Storyboard ==> hasTask)
  }

  ghost predicate CanComplete(w: World, j: J.JobId) {
    exists steps :: NoLateStart(w, steps, j) && j in w.mediaJobs && HasCompleted(Run(w, steps), w.mediaJobs[j])
  }

  /**
   The exact condition for a waiting job: without stale handlers starting late, its asset can still be generated if
   and only if the handler of every lease so far started an attempt. Retries, more budget or more workers do not help.
   */
  lemma CompletionStaysPossibleIff(w: World, j: J.JobId, t: Time)
    requires Inv(w) && HasAsset(w, j) && J.Leasable(w.queue.jobs[j], t) && !HasCompleted(w, w.mediaJobs[j])
    requires Startable(w.assets[w.mediaJobs[j]], TaskOf(w, w.assets[w.mediaJobs[j]]).Some?)
    ensures CanComplete(w, j) <==> AllStartedBefore(w, j, w.queue.jobs[j].attemptCount + 1)
  {
    LeasesAreCounted(w, j);
    var n := w.queue.jobs[j].attemptCount + 1;
    if AllStartedBefore(w, j, n) {
      NextLeaseCompletes(w, j, t);
    } else if CanComplete(w, j) {
      var m: nat :| 1 <= m < n && !((j, m) in w.runs && w.runs[(j, m)].attempt.Some?);
      var steps :| NoLateStart(w, steps, j) && HasCompleted(Run(w, steps), w.mediaJobs[j]);
      IdleHandlerBlocksCompletion(w, steps, j, m);
    }
  }

  lemma LeaseOfWaitingJob(q: J.Queue, j: J.JobId, t: Time)
    requires JS.Inv(q) && j in q.jobs && J.Leasable(q.jobs[j], t)
    ensures J.AnswerTo(q, J.Lease(j, SECOND_WORKER, 60, t)) == J.Done
    ensures var p := J.Apply(q, J.Lease(j, SECOND_WORKER, 60, t));
      j in p.jobs && p.jobs[j].attemptCount == q.jobs[j].attemptCount + 1 && J.OwnsLiveLease(p, j, SECOND_WORKER, t)
  {
    assert JS.AuditOk(q, j);
  }

  /** What the next lease of a waiting job does to it. */
  lemma LeaseWaiting(w: World, j: J.JobId, t: Time)
    requires JS.Inv(w.queue) && j in w.queue.jobs && J.Leasable(w.queue.jobs[j], t)
    ensures var v, n := Apply(w, JobStep(J.Lease(j, SECOND_WORKER, 60, t))), w.queue.jobs[j].attemptCount + 1;
      && v == w.(queue := v.queue, runs := w.runs[(j, n) := HandlerRun(SECOND_WORKER, None)])
      && OwnsLiveJobLease(v, j, SECOND_WORKER, n, t)
  {
    LeaseOfWaitingJob(w.queue, j, t);
  }

  lemma NewRunCanStart(w: World, v: World, j: J.JobId, n: nat)
    requires HasAsset(w, j) && Startable(w.assets[w.mediaJobs[j]], TaskOf(w, w.assets[w.mediaJobs[j]]).Some?)
    requires v == w.(queue := v.queue, runs := w.runs[(j, n) := HandlerRun(SECOND_WORKER, None)]) && AllStartedBefore(w, j, n)
    ensures CanStart(v, j, n) && AllStartedBefore(v, j, n)
  {
  }

  lemma RunCons(w: World, s: Step, steps: seq<Step>)
    ensures Run(w, [s] + steps) == Run(Apply(w, s), steps)
  {
    assert ([s] + steps)[1..] == steps;
  }

  /** A lease, a start and a finalisation, each in the state the one before leaves. */
  lemma NextLeaseCompletes(w: World, j: J.JobId, t: Time)
    requires Inv(w) && HasAsset(w, j) && J.Leasable(w.queue.jobs[j], t)
    requires Startable(w.assets[w.mediaJobs[j]], TaskOf(w, w.assets[w.mediaJobs[j]]).Some?)
    requires AllStartedBefore(w, j, w.queue.jobs[j].attemptCount + 1)
    ensures CanComplete(w, j)
  {
    var n, lease := w.queue.jobs[j].attemptCount + 1, JobStep(J.Lease(j, SECOND_WORKER, 60, t));
    var rest := [Start(j, n, t), Finalize(j, n, "content", t)];
    NextLeaseRun(w, j, n, t);
    LeasesAreCounted(w, j);
    OnlyNewRunStarts(w, j, lease, rest, n);
    CanCompleteBy(w, [lease] + rest, j);
  }

  lemma NextLeaseRun(w: World, j: J.JobId, n: nat, t: Time)
    requires Inv(w) && HasAsset(w, j) && J.Leasable(w.queue.jobs[j], t) && n == w.queue.jobs[j].attemptCount + 1
    requires Startable(w.assets[w.mediaJobs[j]], TaskOf(w, w.assets[w.mediaJobs[j]]).Some?) && AllStartedBefore(w, j, n)
    ensures var steps := [JobStep(J.Lease(j, SECOND_WORKER, 60, t))] + [Start(j, n, t), Finalize(j, n, "content", t)];
      HasCompleted(Run(w, steps), w.mediaJobs[j])
  {
    var lease := JobStep(J.Lease(j, SECOND_WORKER, 60, t));
    LeaseWaiting(w, j, t);
    StepKeepsInv(w, lease);
    NewRunCanStart(w, Apply(w, lease), j, n);
    CompletesUnder(Apply(w, lease), j, n, t);
    RunCons(w, lease, [Start(j, n, t), Finalize(j, n, "content", t)]);
  }

  lemma OnlyNewRunStarts(w: World, j: J.JobId, lease: Step, rest: seq<Step>, n: nat)
    requires lease.JobStep? && (j, n) !in w.runs && forall s :: s in rest && s.Start? ==> s.n == n
    ensures NoLateStart(w, [lease] + rest, j)
  {
  }

  lemma CanCompleteBy(w: World, steps: seq<Step>, j: J.JobId)
    requires NoLateStart(w, steps, j) && j in w.mediaJobs && HasCompleted(Run(w, steps), w.mediaJobs[j])
    ensures CanComplete(w, j)
  {
  }

  lemma CompletesUnder(w: World, j: J.JobId, n: nat, t: Time)
    requires Inv(w) && CanStart(w, j, n) && AllStartedBefore(w, j, n) && OwnsLiveJobLease(w, j, w.runs[(j, n)].workerId, n, t)
    ensures HasCompleted(Run(w, [Start(j, n, t), Finalize(j, n, "content", t)]), w.mediaJobs[j])
  {
    var start, finalize := Start(j, n, t), Finalize(j, n, "content", t);
    StartDecidesFinalization(w, j, n, t, t);
    StartKeepsLink(w, j, n, t);
    var v := Apply(w, start);
    StepOnEvents(v, finalize);
    assert [start, finalize][1..] == [finalize];
    assert Run(w, [start, finalize]) == Run(v, [finalize]);
    RunOne(v, finalize);
  }

  lemma StartKeepsLink(w: World, j: J.JobId, n: nat, now: Time)
    requires CanStart(w, j, n)
    ensures Apply(w, Start(j, n, now)).mediaJobs == w.mediaJobs
  {
  }

  const WAITING := [RequestOf(Image, 2), LEASE] + [RECLAIM, LEASE_AGAIN]

  lemma SecondLease()
    ensures var w := Run(EMPTY, WAITING);
      && w == Leased(Image, 2).(queue := LeasedAgain(Image), runs := Leased(Image, 2).runs[(0, 2) := HandlerRun(SECOND_WORKER, None)])
      && CanStart(w, 0, 2) && CanStart(w, 0, 1)
  {
    RequestAndLease(Image, 2);
    RunAppend(EMPTY, [RequestOf(Image, 2), LEASE], [RECLAIM, LEASE_AGAIN]);
    ReclaimAndLeaseAgain(Leased(Image, 2), Image);
  }

  /**
   The failing states are reachable. The first worker leaves the job without an attempt and its lease expires; the
   second holds the job, starts attempt 1 under lease 2, and can never finalise it. That the first handler then does
   start, as attempt 2, does not help: now the handler of every lease has started, but out of turn.
   */
  lemma OvertakenHandlerCannotFinalize(steps: seq<Step>, now: Time)
    ensures var w := Run(EMPTY, WAITING + [START_AGAIN] + steps); !CanFinalize(w, 0, 2, now)
    ensures var w := Run(EMPTY, WAITING + [START_AGAIN] + [START]);
      && AllStartedBefore(w, 0, 3) && (now < Seconds(125) ==> OwnsLiveJobLease(w, 0, SECOND_WORKER, 2, now))
      && !CanFinalize(w, 0, 2, now)
  {
    var w := Run(EMPTY, WAITING);
    SecondLease();
    RunKeepsInv(EMPTY, WAITING);
    RunAppend(EMPTY, WAITING + [START_AGAIN], steps);
    RunAppend(EMPTY, WAITING + [START_AGAIN], [START]);
    RunAppend(EMPTY, WAITING, [START_AGAIN]);
    RunOne(w, START_AGAIN);
    assert w.runs[(0, 1)].attempt == None;
    OutOfTurnNeverFinalizes(w, 0, 2, START_AGAIN.now, steps, now);
    OutOfTurnNeverFinalizes(w, 0, 2, START_AGAIN.now, [START], now);
    BothHandlersStart(w, now);
    ReclaimAndLeaseAgain(Leased(Image, 2), Image);
  }

  lemma BothHandlersStart(w: World, now: Time)
    requires CanStart(w, 0, 1) && CanStart(w, 0, 2) && w.assets[w.mediaJobs[0]].kind == Image
    ensures var v := Run(Apply(w, START_AGAIN), [START]);
      AllStartedBefore(v, 0, 3) && v.queue == w.queue
  {
    var v := Apply(w, START_AGAIN);
    StartsRun(w, 2, START_AGAIN.now);
    StartsRun(v, 1, START.now);
    RunOne(v, START);
    assert Apply(v, START).runs[(0, 2)].attempt.Some?;
  }

  lemma StartsRun(w: World, n: nat, now: Time)
    requires CanStart(w, 0, n) && w.assets[w.mediaJobs[0]].kind == Image
    ensures var v := Apply(w, Start(0, n, now));
      && v.queue == w.queue && v.mediaJobs == w.mediaJobs && v.runs.Keys == w.runs.Keys && v.runs[(0, n)].attempt.Some?
      && v.assets.Keys == w.assets.Keys && v.assets[w.mediaJobs[0]].kind == Image && v.assets[w.mediaJobs[0]].status == Generating
      && forall r :: r in w.runs && r != (0, n) ==> v.runs[r] == w.runs[r]
  {
  }

  /** A job whose first handler started nothing is lost, whatever happens later. */
  lemma LostFirstLeaseIsFatal(steps: seq<Step>)
    requires forall s :: s in steps && s.Start? ==> (s.jobId, s.n) != (0, 1)
    ensures !HasCompleted(Run(EMPTY, [RequestOf(Image, 2), LEASE] + steps), 0)
  {
    RequestAndLease(Image, 2);
    RunAppend(EMPTY, [RequestOf(Image, 2), LEASE], steps);
    RunKeepsInv(EMPTY, [RequestOf(Image, 2), LEASE]);
    IdleHandlerBlocksCompletion(Leased(Image, 2), steps, 0, 1);
  }
}
