/** The media tables and their transactions, with the job queue they are fenced by. */
module MediaRepository {
  import opened Wrappers
  import opened MediaState
  import J = JobState

  datatype StartResult = AttemptStarted(number: nat) | NothingToDo | TargetMissing

  datatype FinalizeResult = Finalized | LeaseNotOwned | FinalizationTargetMissing | StateConflict

  datatype UpdateResult = Updated | NotFound | InvalidState | OwnershipLost

  lemma RunSnoc(w: World, steps: seq<Step>, s: Step)
    ensures Run(w, steps + [s]) == Apply(Run(w, steps), s)
  {
    RunAppend(w, steps, [s]);
    assert Run(Run(w, steps), [s]) == Run(Apply(Run(w, steps), s), []);
  }

  /** The asset is ready with this content, an image's own or else its task's result, since `now`. */
  predicate FinalizedWith(w: World, a: AssetId, content: string, now: Time) {
    && a in w.assets && w.assets[a].status == ReadyForReview && w.assets[a].completedAt == Some(now) && a in w.readyEvents
    && (w.assets[a].kind == Image ==> w.assets[a].content == Some(content))
    && (w.assets[a].taskId.Some? && w.assets[a].taskId.value in w.tasks ==>
          && w.tasks[w.assets[a].taskId.value].status == TaskCompleted && w.tasks[w.assets[a].taskId.value].result == Some(content)
          && w.tasks[w.assets[a].taskId.value].completedAt == Some(now))
  }

  /** The first check of the finalisation that fails, in the order it makes them. */
  function FinalizeAnswer(w: World, jobId: J.JobId, n: nat, now: Time): FinalizeResult
    requires (jobId, n) in w.runs
  {
    if !OwnsLiveJobLease(w, jobId, w.runs[(jobId, n)].workerId, n, now) then LeaseNotOwned
    else if !HasAsset(w, jobId) || !HasStarted(w, jobId, n) then FinalizationTargetMissing
    else if CanFinalize(w, jobId, n, now) then Finalized
    else StateConflict
  }

  /** A lost lease is reported first, then a missing row, then a change of attempt, asset or task. */
  lemma FinalizeAnswerByCase(w: World, jobId: J.JobId, n: nat, now: Time)
    requires (jobId, n) in w.runs
    ensures FinalizeAnswer(w, jobId, n, now) == LeaseNotOwned <==>
      !(J.OwnsLiveLease(w.queue, jobId, w.runs[(jobId, n)].workerId, now) && w.queue.jobs[jobId].attemptCount == n)
    ensures FinalizeAnswer(w, jobId, n, now) == Finalized <==> CanFinalize(w, jobId, n, now)
    ensures FinalizeAnswer(w, jobId, n, now) == StateConflict ==> HasAsset(w, jobId) && HasStarted(w, jobId, n)
    ensures FinalizeAnswer(w, jobId, n, now) == FinalizationTargetMissing ==> !HasAsset(w, jobId) || !HasStarted(w, jobId, n)
  {
  }

  /** Attempts of the asset are numbered from one without a gap. */
  ghost predicate Gapless(attempts: map<AttemptKey, Attempt>, a: AssetId) {
    forall k: nat :: (a, k) in attempts ==> 1 <= k && (k > 1 ==> (a, k - 1) in attempts)
  }

  lemma NextIsLast(attempts: map<AttemptKey, Attempt>, a: AssetId)
    ensures forall i: nat :: (a, i) in attempts ==> i < NextNumber(attempts, a)
    ensures Gapless(attempts, a) ==> forall i: nat :: (a, i) in attempts <==> 1 <= i < NextNumber(attempts, a)
  {
    var numbers := NumbersOf(attempts, a);
    forall i: nat | (a, i) in attempts ensures i in numbers {
    }
    if Gapless(attempts, a) && numbers != {} {
      forall i: nat | 1 <= i <= Maximum(numbers) ensures (a, i) in attempts {
        Descend(attempts, a, i, Maximum(numbers));
      }
    }
  }

  lemma {:induction false} Descend(attempts: map<AttemptKey, Attempt>, a: AssetId, i: nat, k: nat)
    requires Gapless(attempts, a) && (a, k) in attempts && 1 <= i <= k
    ensures (a, i) in attempts
    decreases k - i
  {
    if i < k {
      Descend(attempts, a, i + 1, k);
    }
  }

  class MediaStore {
    var queue: J.Queue
    var mediaJobs: map<J.JobId, AssetId>
    var assets: map<AssetId, Asset>
    var tasks: map<TaskId, Task>
    var attempts: map<AttemptKey, Attempt>
    var runs: map<J.AttemptKey, HandlerRun>
    var readyEvents: set<AssetId>

    function State(): World
      reads this
    {
      World(queue, mediaJobs, assets, tasks, attempts, runs, readyEvents)
    }

    constructor ()
      ensures State() == EMPTY
    {
      queue, mediaJobs, assets, tasks, attempts, runs, readyEvents := J.EMPTY, map[], map[], map[], map[], map[], {};
    }

    /** Transactions other processes commit while this one is between two of its own. */
    method Others(steps: seq<Step>)
      modifies this
      ensures State() == Run(old(State()), steps)
    {
      var i := 0;
      while i < |steps|
        invariant 0 <= i <= |steps|
        invariant State() == Run(old(State()), steps[..i])
      {
        RunSnoc(old(State()), steps[..i], steps[i]);
        assert steps[..i + 1] == steps[..i] + [steps[i]];
        Become(Apply(State(), steps[i]));
        i := i + 1;
      }
      assert steps[..i] == steps;
    }

    method Become(w: World)
      modifies this
      ensures State() == w
    {
      queue, mediaJobs, assets, tasks := w.queue, w.mediaJobs, w.assets, w.tasks;
      attempts, runs, readyEvents := w.attempts, w.runs, w.readyEvents;
    }

    /** Opens an attempt after all others of the asset: its number is free, no row is overwritten, and numbers stay 1 to the new one. */
    method CreateStartedAttempt(a: AssetId, jobId: J.JobId, n: nat, workerId: string) returns (number: nat)
      modifies this`attempts
      ensures number == NextNumber(old(attempts), a) && number >= 1
      ensures (a, number) !in old(attempts) && attempts.Keys == old(attempts).Keys + {(a, number)}
      ensures forall key :: key in old(attempts) ==> attempts[key] == old(attempts)[key]
      ensures forall i: nat :: (a, i) in attempts ==> i <= number
      ensures Gapless(old(attempts), a) ==> forall i: nat :: (a, i) in attempts <==> 1 <= i <= number
      ensures attempts == old(attempts)[(a, number) := Attempt(jobId, workerId, n, Started, None, None, None)]
    {
      number := NextNumber(attempts, a);
      NextIsLast(attempts, a);
      attempts := attempts[(a, number) := Attempt(jobId, workerId, n, Started, None, None, None)];
    }

    /** The start of `generate_image`. */
    method StartImage(jobId: J.JobId, n: nat, now: Time) returns (r: StartResult)
      requires (jobId, n) in runs && runs[(jobId, n)].attempt == None
      requires HasAsset(State(), jobId) ==> assets[mediaJobs[jobId]].kind == Image
      modifies this
      ensures State() == Apply(old(State()), Start(jobId, n, now))
      ensures r.AttemptStarted? <==> CanStart(old(State()), jobId, n)
      ensures r == TargetMissing <==> !HasAsset(old(State()), jobId)
      ensures r.AttemptStarted? ==> r.number == NextNumber(old(attempts), mediaJobs[jobId])
    {
      if jobId !in mediaJobs || mediaJobs[jobId] !in assets {
        return TargetMissing;
      }
      var a := mediaJobs[jobId];
      var asset := assets[a];
      if asset.status == ReadyForReview || asset.status == Approved {
        return NothingToDo;
      }
      var task := TaskOf(State(), asset);
      assets := assets[a := asset.(status := Generating, errorCode := None, errorMessage := None)];
      MarkProcessing(task, now);
      var number := CreateStartedAttempt(a, jobId, n, runs[(jobId, n)].workerId);
      runs := runs[(jobId, n) := runs[(jobId, n)].(attempt := Some(number))];
      return AttemptStarted(number);
    }

    /** The start of `generate_storyboard`, which needs the task and does not stop at an approved asset. */
    method StartStoryboard(jobId: J.JobId, n: nat, now: Time) returns (r: StartResult)
      requires (jobId, n) in runs && runs[(jobId, n)].attempt == None
      requires HasAsset(State(), jobId) ==> assets[mediaJobs[jobId]].kind == Storyboard
      modifies this
      ensures State() == Apply(old(State()), Start(jobId, n, now))
      ensures r.AttemptStarted? <==> CanStart(old(State()), jobId, n)
      ensures r == NothingToDo <==> HasAsset(old(State()), jobId) && old(assets)[old(mediaJobs)[jobId]].status == ReadyForReview
      ensures r.AttemptStarted? ==> r.number == NextNumber(old(attempts), mediaJobs[jobId])
    {
      if jobId !in mediaJobs || mediaJobs[jobId] !in assets {
        return TargetMissing;
      }
      var a := mediaJobs[jobId];
      var asset := assets[a];
      if asset.status == ReadyForReview {
        return NothingToDo;
      }
      var task := TaskOf(State(), asset);
      if task == None {
        return TargetMissing;
      }
      assets := assets[a := asset.(status := Generating)];
      MarkProcessing(task, now);
      var number := CreateStartedAttempt(a, jobId, n, runs[(jobId, n)].workerId);
      runs := runs[(jobId, n) := runs[(jobId, n)].(attempt := Some(number))];
      return AttemptStarted(number);
    }

    method MarkProcessing(id: Option<TaskId>, now: Time)
      requires id.Some? ==> id.value in tasks
      modifies this`tasks
      ensures id == None ==> tasks == old(tasks)
      ensures id.Some? ==> tasks == old(tasks)[id.value := old(tasks)[id.value].(
        status := TaskProcessing, startedAt := if old(tasks)[id.value].startedAt.Some? then old(tasks)[id.value].startedAt else Some(now))]
    {
      if id.Some? {
        var task := tasks[id.value].(status := TaskProcessing);
        if task.startedAt == None {
          task := task.(startedAt := Some(now));
        }
        tasks := tasks[id.value := task];
      }
    }

    /** Raising anywhere rolls the whole transaction back, so rows are written only at the end. */
    method FinalizeSuccess(jobId: J.JobId, n: nat, content: string, now: Time) returns (r: FinalizeResult)
      requires (jobId, n) in runs && runs[(jobId, n)].attempt.Some?
      modifies this
      ensures State() == Apply(old(State()), Finalize(jobId, n, content, now))
      ensures r == Finalized <==> CanFinalize(old(State()), jobId, n, now)
      ensures r == FinalizeAnswer(old(State()), jobId, n, now)
      ensures r == Finalized ==> HasAsset(old(State()), jobId) && mediaJobs == old(mediaJobs) && mediaJobs[jobId] in assets
      ensures r == Finalized ==> FinalizedWith(State(), mediaJobs[jobId], content, now)
      ensures r == Finalized && old(assets)[old(mediaJobs)[jobId]].kind == Storyboard ==>
        assets[mediaJobs[jobId]].content == old(assets)[old(mediaJobs)[jobId]].content
    {
      var workerId, number := runs[(jobId, n)].workerId, runs[(jobId, n)].attempt.value;
      if !OwnsLiveJobLease(State(), jobId, workerId, n, now) {
        return LeaseNotOwned;
      }
      if jobId !in mediaJobs || mediaJobs[jobId] !in assets || (mediaJobs[jobId], number) !in attempts {
        return FinalizationTargetMissing;
      }
      var a := mediaJobs[jobId];
      var asset, attempt := assets[a], attempts[(a, number)];
      if attempt.status != Started || attempt.workerId != workerId || attempt.jobId != jobId || attempt.jobAttempt != n || number != n {
        return StateConflict;
      }
      if asset.status != Generating {
        return StateConflict;
      }
      var id := TaskOf(State(), asset);
      if id.Some? && tasks[id.value].status != TaskProcessing {
        return StateConflict;
      }
      asset := asset.(status := ReadyForReview, completedAt := Some(now));
      if asset.kind == Image {
        asset := asset.(content := Some(content));
      }
      if id.Some? {
        tasks := tasks[id.value := tasks[id.value].(status := TaskCompleted, result := Some(content), completedAt := Some(now))];
      }
      assets := assets[a := asset];
      attempts := attempts[(a, number) := attempt.(status := Completed, errorCode := None, errorMessage := None, completedAt := Some(now))];
      readyEvents := readyEvents + {a};
      return Finalized;
    }

    /** `_mark_terminal`: by the owner, from STARTED only. */
    method MarkTerminal(key: AttemptKey, status: AttemptStatus, workerId: string, code: Option<string>, message: Option<string>, now: Time)
      returns (r: UpdateResult)
      modifies this`attempts
      ensures r == Updated <==> key in old(attempts) && old(attempts)[key].workerId == workerId && old(attempts)[key].status == Started
      ensures r == Updated ==> attempts == old(attempts)[key := Closed(old(attempts)[key], status, code, message, now)]
      ensures r != Updated ==> attempts == old(attempts)
      ensures r == OwnershipLost <==> key in old(attempts) && old(attempts)[key].workerId != workerId
    {
      if key !in attempts {
        return NotFound;
      }
      if attempts[key].workerId != workerId {
        return OwnershipLost;
      }
      if attempts[key].status != Started {
        return InvalidState;
      }
      attempts := attempts[key := attempts[key].(status := status, errorCode := code, errorMessage := message, completedAt := Some(now))];
      return Updated;
    }

    /** Closes every STARTED attempt of the asset, one row at a time. */
    method TerminalizeActiveAttempts(a: AssetId, status: AttemptStatus, code: string, message: string, now: Time) returns (count: nat)
      requires status != Started
      modifies this`attempts
      ensures attempts == ActiveClosed(old(attempts), a, status, code, message, now)
      ensures count == |set k | k in old(attempts) && k.0 == a && old(attempts)[k].status == Started|
    {
      var active := set k | k in attempts && k.0 == a && attempts[k].status == Started;
      count := |active|;
      var rest := active;
      while rest != {}
        invariant rest <= active
        invariant attempts.Keys == old(attempts).Keys
        invariant forall k :: k in rest ==> attempts[k] == old(attempts)[k]
        invariant forall k :: k in active && k !in rest ==> attempts[k] == Closed(old(attempts)[k], status, Some(code), Some(message), now)
        invariant forall k :: k in attempts && k !in active ==> attempts[k] == old(attempts)[k]
        decreases rest
      {
        var k :| k in rest;
        attempts := attempts[k := Closed(attempts[k], status, Some(code), Some(message), now)];
        rest := rest - {k};
      }
    }

    method EndAsset(a: AssetId, assetStatus: AssetStatus, taskStatus: TaskStatus, code: Option<string>, message: Option<string>, now: Time)
      requires a in assets
      modifies this`assets, this`tasks
      ensures State() == AssetEnded(old(State()), a, assetStatus, taskStatus, code, message, now)
    {
      var id := TaskOf(State(), assets[a]);
      assets := assets[a := assets[a].(status := assetStatus, errorCode := code, errorMessage := message, completedAt := Some(now))];
      if id.Some? {
        tasks := tasks[id.value := tasks[id.value].(status := taskStatus, errorCode := code, errorMessage := message, completedAt := Some(now))];
      }
    }

    /** The media branch of `JobTerminalReconciler.reconcile`. */
    method Reconcile(jobId: J.JobId, cancelled: bool, code: Option<string>, message: Option<string>, now: Time)
      requires jobId in mediaJobs
      modifies this
      ensures HasAsset(old(State()), jobId) ==> State() == Apply(old(State()), MediaState.Reconcile(jobId, cancelled, code, message, now))
      ensures mediaJobs == old(mediaJobs) && !Active(attempts, mediaJobs[jobId])
    {
      var a := mediaJobs[jobId];
      var count := TerminalizeActiveAttempts(a, if cancelled then AttemptCancelled else AttemptFailed,
                                             Or(code, "JOB_TERMINAL_RECONCILIATION"), Or(message, "Terminal job reconciled media attempt"), now);
      if a in assets && !Reviewable(assets[a].status) {
        EndAsset(a, if cancelled then Cancelled else Failed, if cancelled then TaskCancelled else TaskFailed, code, Present(message), now);
      }
    }

    /** Accepts a handler's return when its asset is reviewable and nothing of it is still STARTED; else fails the asset. */
    method EnsureSuccessConsistency(jobId: J.JobId, now: Time) returns (consistent: bool)
      requires HasAsset(State(), jobId)
      modifies this
      ensures State() == Apply(old(State()), EnsureSuccess(jobId, now))
      ensures consistent <==> Consistent(old(State()), jobId)
      ensures mediaJobs == old(mediaJobs) && !Active(attempts, mediaJobs[jobId])
    {
      var a := mediaJobs[jobId];
      if !Active(attempts, a) && Reviewable(assets[a].status) {
        return true;
      }
      var count := TerminalizeActiveAttempts(a, AttemptFailed, ORPHANED, "Successful handler left an active media attempt", now);
      EndAsset(a, Failed, TaskFailed, Some(ORPHANED), Some("Media generation finalization was incomplete"), now);
      return false;
    }

    method PrepareRetry(jobId: J.JobId)
      requires HasAsset(State(), jobId)
      modifies this
      ensures State() == Apply(old(State()), MediaState.PrepareRetry(jobId))
    {
      var a := mediaJobs[jobId];
      var id := TaskOf(State(), assets[a]);
      assets := assets[a := assets[a].(status := Requested, errorCode := None, errorMessage := None, completedAt := None)];
      if id.Some? {
        tasks := tasks[id.value := tasks[id.value].(status := TaskPending, errorCode := None, errorMessage := None, completedAt := None)];
      }
    }

    method Review(a: AssetId, approve: bool, comment: string) returns (accepted: bool)
      modifies this`assets
      ensures State() == Apply(old(State()), MediaState.Review(a, approve, comment))
      ensures accepted <==> a in old(assets) && old(assets)[a].status == ReadyForReview && (approve || comment != "")
    {
      if a !in assets || assets[a].status != ReadyForReview {
        return false;
      }
      if approve {
        assets := assets[a := assets[a].(status := Approved)];
      } else {
        if comment == "" {
          return false;
        }
        assets := assets[a := assets[a].(status := Rejected)];
      }
      return true;
    }
  }
}
