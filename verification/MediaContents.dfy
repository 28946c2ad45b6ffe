/**
 What media rows say, apart from who may write them: content and results are those of the run that completed, asset and
 task always agree, and each transaction moves statuses and errors as its name promises.
 */
module MediaContents {
  import opened Wrappers
  import opened MediaState
  import opened MediaSafety
  import J = JobState

  // ----- content

  /** The enabled finalisation of asset `a`. */
  ghost predicate Finalizes(w: World, s: Step, a: AssetId) {
    s.Finalize? && CanFinalize(w, s.jobId, s.n, s.now) && w.mediaJobs[s.jobId] == a
  }

  lemma NewAssetIsEmpty(w: World, s: Step, a: AssetId)
    requires a !in w.assets && a in Apply(w, s).assets
    ensures Apply(w, s).assets[a].content == None && Apply(w, s).assets[a].status == AssetStatus.Requested
  {
  }

  /** Nothing but an image's finalisation writes content, and that writes what its run produced. */
  lemma OnlyFinalizeWritesContent(w: World, s: Step, a: AssetId)
    requires a in w.assets && a in Apply(w, s).assets
    ensures Apply(w, s).assets[a].kind == w.assets[a].kind && Apply(w, s).assets[a].taskId == w.assets[a].taskId
    ensures Apply(w, s).assets[a].content == (if Finalizes(w, s, a) && w.assets[a].kind == Image then Some(s.content) else w.assets[a].content)
  {
  }

  lemma AssetsStay(w: World, s: Step, a: AssetId)
    requires a in w.assets
    ensures a in Apply(w, s).assets
  {
    StepOnLinks(w, s);
  }

  /** What the last finalisation of an image produced along a run. */
  ghost function LastGenerated(w: World, steps: seq<Step>, a: AssetId): Option<string>
    decreases |steps|
  {
    if steps == [] then None
    else
      var n := |steps| - 1;
      var before := Run(w, steps[..n]);
      if Finalizes(before, steps[n], a) && a in before.assets && before.assets[a].kind == Image then Some(steps[n].content)
      else LastGenerated(w, steps[..n], a)
  }

  /** In every reachable state an asset's content is what its last successful image run produced, and nothing if there was none. */
  lemma {:induction false} ContentIsLastGenerated(steps: seq<Step>, a: AssetId)
    requires a in Run(EMPTY, steps).assets
    ensures Run(EMPTY, steps).assets[a].content == LastGenerated(EMPTY, steps, a)
    decreases |steps|
  {
    if steps == [] {
    } else {
      var n := |steps| - 1;
      var before, s := Run(EMPTY, steps[..n]), steps[n];
      assert steps == steps[..n] + [s];
      RunAppend(EMPTY, steps[..n], [s]);
      assert Run(before, [s]) == Run(Apply(before, s), []);
      if a in before.assets {
        OnlyFinalizeWritesContent(before, s, a);
        ContentIsLastGenerated(steps[..n], a);
      } else {
        NewAssetIsEmpty(before, s, a);
        NothingGeneratedBefore(steps[..n], a);
        RunKeepsInv(EMPTY, steps[..n]);
      }
    }
  }

  lemma {:induction false} NothingGeneratedBefore(steps: seq<Step>, a: AssetId)
    requires a !in Run(EMPTY, steps).assets
    ensures LastGenerated(EMPTY, steps, a) == None
    decreases |steps|
  {
    if steps == [] {
    } else {
      var n := |steps| - 1;
      var before, s := Run(EMPTY, steps[..n]), steps[n];
      assert steps == steps[..n] + [s];
      RunAppend(EMPTY, steps[..n], [s]);
      assert Run(before, [s]) == Run(Apply(before, s), []);
      if a in before.assets {
        AssetsStay(before, s, a);
      }
      NothingGeneratedBefore(steps[..n], a);
    }
  }

  /** Whatever image is announced has content. */
  ghost predicate ContentOk(w: World) {
    forall a :: a in w.readyEvents && a in w.assets && w.assets[a].kind == Image ==> w.assets[a].content.Some?
  }

  lemma StepKeepsContent(w: World, s: Step)
    requires Inv(w) && ContentOk(w)
    ensures ContentOk(Apply(w, s))
  {
    var v := Apply(w, s);
    StepOnEvents(w, s);
    forall a | a in v.readyEvents && a in v.assets && v.assets[a].kind == Image ensures v.assets[a].content.Some? {
      if a in w.readyEvents {
        EventsHaveAssets(w, a);
      }
      if a in w.assets {
        OnlyFinalizeWritesContent(w, s, a);
      }
    }
  }

  lemma EventsHaveAssets(w: World, a: AssetId)
    requires Inv(w) && a in w.readyEvents
    ensures a in w.assets
  {
    var k :| (a, k) in w.attempts && w.attempts[(a, k)].status == Completed;
    assert OwnerOk(w, (a, k));
  }

  lemma {:induction false} RunKeepsContent(w: World, steps: seq<Step>)
    requires Inv(w) && ContentOk(w)
    ensures ContentOk(Run(w, steps))
    decreases |steps|
  {
    if steps == [] {
    } else {
      StepKeepsContent(w, steps[0]);
      StepKeepsInv(w, steps[0]);
      RunKeepsContent(Apply(w, steps[0]), steps[1..]);
    }
  }

  /** An image without content is never put up for review. */
  lemma ReviewableImageHasContent(steps: seq<Step>, a: AssetId)
    requires a in Run(EMPTY, steps).assets
    requires Run(EMPTY, steps).assets[a].kind == Image && Run(EMPTY, steps).assets[a].status in {ReadyForReview, Approved, Rejected}
    ensures Run(EMPTY, steps).assets[a].content.Some? && LastGenerated(EMPTY, steps, a).Some?
  {
    RunKeepsInv(EMPTY, steps);
    RunKeepsContent(EMPTY, steps);
    ContentIsLastGenerated(steps, a);
  }

  /** The transaction in which an attempt becomes COMPLETED carries the run's content to the asset and to its task, and dates all three. */
  lemma CompletionCarriesContent(steps: seq<Step>, s: Step, key: AttemptKey)
    requires var w := Run(EMPTY, steps);
      && key in Apply(w, s).attempts && Apply(w, s).attempts[key].status == Completed
      && !(key in w.attempts && w.attempts[key].status == Completed)
    ensures var w, v := Run(EMPTY, steps), Apply(Run(EMPTY, steps), s);
      && s.Finalize? && key.0 in w.assets && key.0 in v.assets && key in w.attempts
      && v.assets[key.0].content == (if w.assets[key.0].kind == Image then Some(s.content) else w.assets[key.0].content)
      && v.assets[key.0].completedAt == Some(s.now) && v.assets[key.0].errorCode == w.assets[key.0].errorCode
      && v.attempts[key].completedAt == Some(s.now) && v.attempts[key].errorCode == None && v.attempts[key].errorMessage == None
    ensures var w, v := Run(EMPTY, steps), Apply(Run(EMPTY, steps), s);
      w.assets[key.0].taskId.Some? && w.assets[key.0].taskId.value in w.tasks ==>
        var t := w.assets[key.0].taskId.value;
        t in v.tasks && v.tasks[t].status == TaskCompleted && v.tasks[t].result == Some(s.content) && v.tasks[t].completedAt == Some(s.now)
  {
    var w := Run(EMPTY, steps);
    RunKeepsInv(EMPTY, steps);
    CompletesByFinalizing(w, s, key);
    FinalizedColumns(w, s);
  }

  lemma FinalizedColumns(w: World, s: Step)
    requires s.Finalize? && CanFinalize(w, s.jobId, s.n, s.now)
    ensures var v, key := Apply(w, s), KeyOf(w, s.jobId, s.n);
      && key.0 in v.assets && key in v.attempts
      && v.assets[key.0].content == (if w.assets[key.0].kind == Image then Some(s.content) else w.assets[key.0].content)
      && v.assets[key.0].completedAt == Some(s.now) && v.assets[key.0].errorCode == w.assets[key.0].errorCode
      && v.attempts[key].completedAt == Some(s.now) && v.attempts[key].errorCode == None && v.attempts[key].errorMessage == None
      && (w.assets[key.0].taskId.Some? && w.assets[key.0].taskId.value in w.tasks ==>
            var t := w.assets[key.0].taskId.value;
            t in v.tasks && v.tasks[t].status == TaskCompleted && v.tasks[t].result == Some(s.content) && v.tasks[t].completedAt == Some(s.now))
  {
  }

  // ----- asset and task agree

  predicate Agree(a: AssetStatus, t: TaskStatus) {
    match a
    case Requested => t == TaskPending
    case Generating => t == TaskProcessing
    case ReadyForReview => t == TaskCompleted
    case Approved => t == TaskCompleted
    case Rejected => t == TaskCompleted
    case Failed => t == TaskFailed
    case Cancelled => t == TaskCancelled
  }

  ghost predicate TaskAgrees(w: World, a: AssetId)
    requires a in w.assets
  {
    var id := w.assets[a].taskId;
    id.Some? ==> && id.value in w.tasks && Agree(w.assets[a].status, w.tasks[id.value].status)
                 && (w.tasks[id.value].status == TaskCompleted ==> w.tasks[id.value].result.Some?)
  }

  ghost predicate TasksOk(w: World) {
    && (forall a :: a in w.assets ==> TaskAgrees(w, a))
    && (forall a, b :: a in w.assets && b in w.assets && w.assets[a].taskId.Some? && w.assets[a].taskId == w.assets[b].taskId ==> a == b)
  }

  /** The asset a step is about. */
  ghost predicate IsAbout(w: World, s: Step, a: AssetId) {
    match s
    case Request(_, assetId, _, _, _, _, _) => assetId == a
    case JobStep(_) => false
    case Start(j, _, _) => j in w.mediaJobs && w.mediaJobs[j] == a
    case Finalize(j, _, _, _) => j in w.mediaJobs && w.mediaJobs[j] == a
    case Finish(_, _, _, _, _, _) => false
    case Reconcile(j, _, _, _, _) => j in w.mediaJobs && w.mediaJobs[j] == a
    case EnsureSuccess(j, _) => j in w.mediaJobs && w.mediaJobs[j] == a
    case PrepareRetry(j) => j in w.mediaJobs && w.mediaJobs[j] == a
    case Review(assetId, _, _) => assetId == a
  }

  lemma OtherAssetsStay(w: World, s: Step, a: AssetId)
    requires a in w.assets && !IsAbout(w, s, a)
    ensures a in Apply(w, s).assets && Apply(w, s).assets[a] == w.assets[a]
  {
  }

  /** A step leaves all other assets and their tasks alone. */
  lemma OthersAreUntouched(w: World, s: Step, a: AssetId)
    requires TasksOk(w) && a in w.assets && !IsAbout(w, s, a)
    ensures a in Apply(w, s).assets && Apply(w, s).assets[a] == w.assets[a]
    ensures w.assets[a].taskId.Some? ==>
      w.assets[a].taskId.value in Apply(w, s).tasks && Apply(w, s).tasks[w.assets[a].taskId.value] == w.tasks[w.assets[a].taskId.value]
  {
    OtherAssetsStay(w, s, a);
    assert TaskAgrees(w, a);
  }

  lemma OwnTaskAgrees(w: World, s: Step, a: AssetId)
    requires TasksOk(w) && a in w.assets && IsAbout(w, s, a)
    ensures a in Apply(w, s).assets && TaskAgrees(Apply(w, s), a)
  {
    assert TaskAgrees(w, a);
  }

  lemma NewTaskAgrees(w: World, s: Step, a: AssetId)
    requires TasksOk(w) && a !in w.assets && a in Apply(w, s).assets
    ensures TaskAgrees(Apply(w, s), a)
    ensures Apply(w, s).assets[a].taskId.Some? ==> Apply(w, s).assets[a].taskId.value !in w.tasks
  {
  }

  lemma StepKeepsTasks(w: World, s: Step)
    requires TasksOk(w)
    ensures TasksOk(Apply(w, s))
  {
    var v := Apply(w, s);
    forall a | a in v.assets ensures TaskAgrees(v, a) {
      if a !in w.assets {
        NewTaskAgrees(w, s, a);
      } else if IsAbout(w, s, a) {
        OwnTaskAgrees(w, s, a);
      } else {
        OthersAreUntouched(w, s, a);
        assert TaskAgrees(w, a);
      }
    }
    forall a, b | a in v.assets && b in v.assets && v.assets[a].taskId.Some? && v.assets[a].taskId == v.assets[b].taskId ensures a == b {
      OldOrNewTask(w, s, a);
      OldOrNewTask(w, s, b);
    }
  }

  lemma OldOrNewTask(w: World, s: Step, a: AssetId)
    requires TasksOk(w) && a in Apply(w, s).assets
    ensures a in w.assets ==> Apply(w, s).assets[a].taskId == w.assets[a].taskId && TaskAgrees(w, a)
    ensures a !in w.assets ==>
      s.Request? && s.assetId == a && (Apply(w, s).assets[a].taskId.Some? ==> Apply(w, s).assets[a].taskId.value !in w.tasks)
  {
    if a in w.assets {
      OnlyFinalizeWritesContent(w, s, a);
    } else {
      NewTaskAgrees(w, s, a);
    }
  }

  lemma {:induction false} RunKeepsTasks(w: World, steps: seq<Step>)
    requires TasksOk(w)
    ensures TasksOk(Run(w, steps))
    decreases |steps|
  {
    if steps == [] {
    } else {
      StepKeepsTasks(w, steps[0]);
      RunKeepsTasks(Apply(w, steps[0]), steps[1..]);
    }
  }

  /** Asset and task move together through every run: what a user sees of the task is what is true of the asset, and a completed task has a result. */
  lemma AssetAndTaskAgree(steps: seq<Step>, a: AssetId)
    requires a in Run(EMPTY, steps).assets && Run(EMPTY, steps).assets[a].taskId.Some?
    ensures var w := Run(EMPTY, steps); var t := w.assets[a].taskId.value;
      && t in w.tasks && Agree(w.assets[a].status, w.tasks[t].status)
      && (w.tasks[t].status == TaskCompleted ==> w.tasks[t].result.Some?)
  {
    RunKeepsTasks(EMPTY, steps);
    assert TaskAgrees(Run(EMPTY, steps), a);
  }

  // ----- what each transaction does to its asset

  /** The status of the step's asset afterwards, for a step that takes effect. */
  lemma AssetMoves(w: World, s: Step, a: AssetId)
    requires a in w.assets && IsAbout(w, s, a) && Enabled(w, s)
    ensures a in Apply(w, s).assets
    ensures s.Start? ==> Apply(w, s).assets[a].status == Generating
    ensures s.Finalize? ==> w.assets[a].status == Generating && Apply(w, s).assets[a].status == ReadyForReview
    ensures s.Review? ==> w.assets[a].status == ReadyForReview && Apply(w, s).assets[a].status == (if s.approve then Approved else Rejected)
    ensures s.PrepareRetry? ==> Apply(w, s).assets[a].status == AssetStatus.Requested
    ensures s.EnsureSuccess? ==> Apply(w, s).assets[a].status == AssetStatus.Failed
    ensures s.Reconcile? && Reviewable(w.assets[a].status) ==> Apply(w, s).assets[a] == w.assets[a]
    ensures s.Reconcile? && !Reviewable(w.assets[a].status) ==>
      Apply(w, s).assets[a].status == (if s.cancelled then AssetStatus.Cancelled else AssetStatus.Failed)
  {
  }

  /** The errors of the step's asset afterwards. */
  lemma AssetErrors(w: World, s: Step, a: AssetId)
    requires a in w.assets && IsAbout(w, s, a) && Enabled(w, s)
    ensures a in Apply(w, s).assets
    ensures var b, c := w.assets[a], Apply(w, s).assets[a];
      && (s.Start? && b.kind == Image ==> c.errorCode == None && c.errorMessage == None)
      && (s.Start? && b.kind == Storyboard ==> c.errorCode == b.errorCode && c.errorMessage == b.errorMessage)
      && (s.PrepareRetry? ==> c.errorCode == None && c.errorMessage == None && c.completedAt == None)
      && (s.EnsureSuccess? ==> c.errorCode == Some("MEDIA_ATTEMPT_ORPHANED")
                               && c.errorMessage == Some("Media generation finalization was incomplete") && c.completedAt == Some(s.now))
      && (s.Reconcile? && !Reviewable(b.status) ==> c.errorCode == s.errorCode && c.completedAt == Some(s.now)
                                                    && c.errorMessage == (if s.errorMessage == Some("") then None else s.errorMessage))
  {
  }

  /** The cleanup closes its own attempt with its reason, and touches no other. */
  lemma CleanupRecordsReason(w: World, s: Step, key: AttemptKey)
    requires key in w.attempts && s.Finish? && Enabled(w, s)
    ensures key in Apply(w, s).attempts
    ensures key != KeyOf(w, s.jobId, s.n) ==> Apply(w, s).attempts[key] == w.attempts[key]
    ensures key == KeyOf(w, s.jobId, s.n) ==>
      Apply(w, s).attempts[key] == w.attempts[key].(status := if s.cancelled then AttemptCancelled else AttemptFailed,
        errorCode := Some(s.code), errorMessage := Some(s.message), completedAt := Some(s.now))
  {
  }

  predicate IsOpenOf(at: Attempt, key: AttemptKey, a: AssetId) {
    at.status == Started && key.0 == a
  }

  /** The terminal reconciler closes every open attempt of its asset with the job's reason, or its own words if there is none, and touches no other. */
  lemma ReconcilerRecordsReason(w: World, s: Step, key: AttemptKey)
    requires key in w.attempts && s.Reconcile? && Enabled(w, s)
    ensures key in Apply(w, s).attempts
    ensures var at, bt := w.attempts[key], Apply(w, s).attempts[key];
      && (!IsOpenOf(at, key, w.mediaJobs[s.jobId]) ==> bt == at)
      && (IsOpenOf(at, key, w.mediaJobs[s.jobId]) ==>
            && bt.status == (if s.cancelled then AttemptCancelled else AttemptFailed) && bt.completedAt == Some(s.now)
            && bt.errorCode == (if s.errorCode.Some? && s.errorCode.value != "" then s.errorCode else Some("JOB_TERMINAL_RECONCILIATION"))
            && bt.errorMessage == (if s.errorMessage.Some? && s.errorMessage.value != "" then s.errorMessage
                                   else Some("Terminal job reconciled media attempt")))
  {
    assert Apply(w, s) == ReconcileEffect(w, s.jobId, s.cancelled, s.errorCode, s.errorMessage, s.now);
  }

  /** The consistency check closes them as orphans. */
  lemma CheckRecordsReason(w: World, s: Step, key: AttemptKey)
    requires key in w.attempts && s.EnsureSuccess? && Enabled(w, s)
    ensures key in Apply(w, s).attempts
    ensures var at, bt := w.attempts[key], Apply(w, s).attempts[key];
      && (!IsOpenOf(at, key, w.mediaJobs[s.jobId]) ==> bt == at)
      && (IsOpenOf(at, key, w.mediaJobs[s.jobId]) ==>
            bt == at.(status := AttemptFailed, errorCode := Some("MEDIA_ATTEMPT_ORPHANED"),
                      errorMessage := Some("Successful handler left an active media attempt"), completedAt := Some(s.now)))
  {
    assert Apply(w, s) == OrphanEffect(w, s.jobId, s.now);
  }

  /** A start opens an attempt in the name of the lease's worker and puts the task under way, keeping its first start time. */
  lemma StartPutsUnderWay(w: World, j: J.JobId, n: nat, now: Time)
    requires CanStart(w, j, n)
    ensures var v, a := Apply(w, Start(j, n, now)), w.mediaJobs[j]; var key := (a, NextNumber(w.attempts, a));
      && key in v.attempts && v.attempts[key] == Attempt(j, w.runs[(j, n)].workerId, n, Started, None, None, None)
      && (j, n) in v.runs && v.runs[(j, n)].attempt == Some(key.1)
      && (w.assets[a].taskId.Some? && w.assets[a].taskId.value in w.tasks ==>
            var t := w.assets[a].taskId.value;
            t in v.tasks && v.tasks[t].status == TaskProcessing
            && v.tasks[t].startedAt == (if w.tasks[t].startedAt.Some? then w.tasks[t].startedAt else Some(now)))
  {
  }
}
