/** Short runs of one media job, for the examples that show a failure is reachable. */
module MediaScenarios {
  import opened Wrappers
  import opened MediaState
  import opened MediaSafety
  import J = JobState
  import Backoff

  const FIRST_WORKER := "v"
  const SECOND_WORKER := "w"

  function RequestOf(kind: Kind, budget: int): Step {
    Request(0, 0, Some(0), kind, "key", budget, 0)
  }

  const LEASE := JobStep(J.Lease(0, FIRST_WORKER, 60, 0))
  const RECLAIM := JobStep(J.Reclaim(0, 5, 300, Seconds(60)))
  const LEASE_AGAIN := JobStep(J.Lease(0, SECOND_WORKER, 60, Seconds(65)))
  const START := Start(0, 1, 1)
  const START_AGAIN := Start(0, 2, Seconds(66))

  function NewJob(kind: Kind, budget: int): J.Job {
    J.NewJob(if kind == Image then "IMAGE_GENERATION" else "VIDEO_STORYBOARD", "key", 50, budget, 0, 0)
  }

  function LeasedJob(kind: Kind, budget: int): J.Job {
    J.LeasedJob(NewJob(kind, budget), FIRST_WORKER, 60, 0)
  }

  function LeasedQueue(kind: Kind, budget: int): J.Queue {
    J.Queue(map[0 := LeasedJob(kind, budget)], map[(0, 1) := J.NewAttempt(FIRST_WORKER, 0)])
  }

  /** After the request and the first lease. */
  function Leased(kind: Kind, budget: int): World {
    World(LeasedQueue(kind, budget), map[0 := 0], map[0 := Asset(kind, Some(0), AssetStatus.Requested, None, None, None, None)],
          map[0 := Task(TaskPending, None, None, None, None, None)], map[], map[(0, 1) := HandlerRun(FIRST_WORKER, None)], {})
  }

  lemma RequestAndLease(kind: Kind, budget: int)
    requires budget >= 1
    ensures Run(EMPTY, [RequestOf(kind, budget), LEASE]) == Leased(kind, budget)
  {
    var w1 := Apply(EMPTY, RequestOf(kind, budget));
    assert w1.queue == J.Queue(map[0 := NewJob(kind, budget)], map[]);
    var w2 := Apply(w1, LEASE);
    assert w2.queue == LeasedQueue(kind, budget);
    assert [RequestOf(kind, budget), LEASE][1..] == [LEASE];
    assert Run(w1, [LEASE]) == Run(w2, []);
  }

  function ReclaimedQueue(kind: Kind, budget: int): J.Queue {
    J.Apply(LeasedQueue(kind, budget), RECLAIM.step)
  }

  /** The expired lease of a job without budget left, and of one with. */
  lemma Reclaimed(kind: Kind, budget: int)
    requires budget >= 1
    ensures J.AnswerTo(LeasedQueue(kind, budget), RECLAIM.step) == J.Done
    ensures var q := ReclaimedQueue(kind, budget);
      && q.attempts.Keys == {(0, 1)} && q.jobs.Keys == {0} && q.jobs[0].attemptCount == 1
      && (budget == 1 ==> q.jobs[0].status == J.DeadLetter)
      && (budget > 1 ==> J.Leasable(q.jobs[0], Seconds(65)))
  {
    assert Backoff.Pow2(0) == 1;
    assert Backoff.Delay(1, 5, 300) == 5;
  }

  function LeasedAgain(kind: Kind): J.Queue {
    J.Apply(ReclaimedQueue(kind, 2), LEASE_AGAIN.step)
  }

  /** The first lease expires and a second worker takes the job: the rest of the world only gains the new handler run. */
  lemma ReclaimAndLeaseAgain(w: World, kind: Kind)
    requires w.queue == LeasedQueue(kind, 2)
    ensures Run(w, [RECLAIM, LEASE_AGAIN]) == w.(queue := LeasedAgain(kind), runs := w.runs[(0, 2) := HandlerRun(SECOND_WORKER, None)])
    ensures forall now :: now < Seconds(125) ==> J.OwnsLiveLease(LeasedAgain(kind), 0, SECOND_WORKER, now)
    ensures LeasedAgain(kind).jobs.Keys == {0} && LeasedAgain(kind).jobs[0].attemptCount == 2
  {
    Reclaimed(kind, 2);
    var w1 := Apply(w, RECLAIM);
    assert [RECLAIM, LEASE_AGAIN][1..] == [LEASE_AGAIN];
    assert Run(w, [RECLAIM, LEASE_AGAIN]) == Run(w1, [LEASE_AGAIN]) == Run(Apply(w1, LEASE_AGAIN), []);
  }

  lemma NextOf(attempts: map<AttemptKey, Attempt>, k: nat)
    requires forall key :: key in attempts <==> key.0 == 0 && 1 <= key.1 <= k
    ensures NextNumber(attempts, 0) == k + 1
  {
    var numbers := NumbersOf(attempts, 0);
    forall i: nat ensures i in numbers <==> 1 <= i <= k {
      assert (0, i) in attempts <==> 1 <= i <= k;
      if i in numbers {
        var key :| key in attempts && key.0 == 0 && key.1 == i;
      }
    }
    assert numbers != {} ==> Maximum(numbers) in numbers;
    assert k >= 1 ==> k in numbers;
  }

  function OpenAttempt(n: nat, workerId: string): Attempt {
    Attempt(0, workerId, n, Started, None, None, None)
  }

  /** The first handler starts: attempt 1, asset and task under way. */
  lemma FirstStart(w: World, kind: Kind)
    requires w.mediaJobs == map[0 := 0] && w.attempts == map[] && 0 in w.assets && w.assets[0].kind == kind && w.assets[0].taskId == Some(0)
    requires 0 in w.tasks && w.assets[0].status == AssetStatus.Requested && (0, 1) in w.runs && w.runs[(0, 1)] == HandlerRun(FIRST_WORKER, None)
    ensures var v := Apply(w, START);
      && v.queue == w.queue && v.mediaJobs == w.mediaJobs && v.readyEvents == w.readyEvents
      && v.attempts == map[(0, 1) := OpenAttempt(1, FIRST_WORKER)]
      && v.runs == w.runs[(0, 1) := HandlerRun(FIRST_WORKER, Some(1))]
      && v.assets.Keys == w.assets.Keys && v.assets[0].kind == kind && v.assets[0].taskId == Some(0) && v.assets[0].status == Generating
      && v.tasks.Keys == w.tasks.Keys && v.tasks[0].status == TaskProcessing
  {
    NextOf(w.attempts, 0);
  }

  lemma RunOne(w: World, s: Step)
    ensures Run(w, [s]) == Apply(w, s)
  {
    assert Run(w, [s]) == Run(Apply(w, s), []);
  }
}
