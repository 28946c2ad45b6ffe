/** Promises about media that the code keeps only under a condition, with the condition. */
module MediaBoundaries {
  import opened Wrappers
  import opened MediaState
  import opened MediaSafety
  import opened MediaScenarios
  import MediaNumbering
  import J = JobState

  /** A handler run restarts an asset that was already reviewed exactly when it is a rejected image, or a rejected or approved storyboard with its task. */
  lemma RestartsReviewedAssetIff(w: World, jobId: J.JobId, n: nat, now: Time)
    requires (jobId, n) in w.runs && w.runs[(jobId, n)].attempt == None && HasAsset(w, jobId)
    requires Reviewable(w.assets[w.mediaJobs[jobId]].status)
    ensures var a := w.mediaJobs[jobId];
      a in Apply(w, Start(jobId, n, now)).assets
      && (Apply(w, Start(jobId, n, now)).assets[a].status == Generating
          <==> (w.assets[a].kind == Image && w.assets[a].status == Rejected)
               || (w.assets[a].kind == Storyboard && w.assets[a].status != ReadyForReview && TaskOf(w, w.assets[a]).Some?))
  {
  }

  /** Another attempt of the asset, by a stale handler, is still open. */
  ghost predicate OtherActive(w: World, key: AttemptKey) {
    exists other :: other in w.attempts && other.0 == key.0 && other != key && w.attempts[other].status == Started
  }

  /** Right after a successful finalisation the worker's consistency check keeps the asset reviewable exactly when no other attempt is open. */
  lemma FinalizedAssetPassesCheckIff(w: World, jobId: J.JobId, n: nat, content: string, now: Time, later: Time)
    requires CanFinalize(w, jobId, n, now)
    ensures var v := Apply(w, Finalize(jobId, n, content, now));
      var u := Apply(v, EnsureSuccess(jobId, later));
      var a := w.mediaJobs[jobId];
      && a in u.assets
      && (u.assets[a].status == ReadyForReview <==> !OtherActive(w, KeyOf(w, jobId, n)))
      && (OtherActive(w, KeyOf(w, jobId, n)) ==> u.assets[a].status == Failed && IsStillCompleted(u, KeyOf(w, jobId, n)))
  {
    var v := Apply(w, Finalize(jobId, n, content, now));
    var a, key := w.mediaJobs[jobId], KeyOf(w, jobId, n);
    FinalizedAttempts(w, jobId, n, content, now);
    CheckOfReadyAsset(v, jobId, key, later);
    if OtherActive(w, key) {
      var other :| other in w.attempts && other.0 == key.0 && other != key && w.attempts[other].status == Started;
      assert v.attempts[other].status == Started;
      assert Active(v.attempts, a);
    } else {
      assert !Active(v.attempts, a);
    }
  }

  lemma CheckOfReadyAsset(w: World, jobId: J.JobId, key: AttemptKey, now: Time)
    requires HasAsset(w, jobId) && w.assets[w.mediaJobs[jobId]].status == ReadyForReview && IsStillCompleted(w, key)
    ensures var v, a := Apply(w, EnsureSuccess(jobId, now)), w.mediaJobs[jobId];
      && a in v.assets && IsStillCompleted(v, key)
      && v.assets[a].status == (if Active(w.attempts, a) then AssetStatus.Failed else ReadyForReview)
  {
    if Active(w.attempts, w.mediaJobs[jobId]) {
      assert Apply(w, EnsureSuccess(jobId, now)) == OrphanEffect(w, jobId, now);
      OrphansKeepCompleted(w, jobId, key, now);
    } else {
      assert Apply(w, EnsureSuccess(jobId, now)) == w;
    }
  }

  lemma OrphansKeepCompleted(w: World, jobId: J.JobId, key: AttemptKey, now: Time)
    requires HasAsset(w, jobId) && IsStillCompleted(w, key)
    ensures var v := OrphanEffect(w, jobId, now);
      IsStillCompleted(v, key) && w.mediaJobs[jobId] in v.assets && v.assets[w.mediaJobs[jobId]].status == AssetStatus.Failed
  {
  }

  lemma FinalizedAttempts(w: World, jobId: J.JobId, n: nat, content: string, now: Time)
    requires CanFinalize(w, jobId, n, now)
    ensures var v, key := Apply(w, Finalize(jobId, n, content, now)), KeyOf(w, jobId, n);
      && v.attempts == w.attempts[key := Closed(w.attempts[key], Completed, None, None, now)]
      && v.mediaJobs == w.mediaJobs && v.assets.Keys == w.assets.Keys && v.assets[w.mediaJobs[jobId]].status == ReadyForReview
  {
  }

  ghost predicate IsStillCompleted(w: World, key: AttemptKey) {
    key in w.attempts && w.attempts[key].status == Completed
  }

  // ----- reachable examples

  const FINALIZE := Finalize(0, 1, "content", 2)
  const APPROVE := Review(0, true, "")

  /** A generated storyboard, approved while its worker had not yet completed the job. */
  const APPROVED_STORYBOARD := [RequestOf(Storyboard, 2), LEASE] + [START] + [FINALIZE, APPROVE]

  lemma FinalizeAndApprove(w: World)
    requires CanFinalize(w, 0, 1, 2) && w.mediaJobs == map[0 := 0]
    ensures var v := Run(w, [FINALIZE, APPROVE]);
      && v.queue == w.queue && v.mediaJobs == w.mediaJobs && v.runs == w.runs && v.attempts.Keys == w.attempts.Keys
      && v.assets.Keys == w.assets.Keys && v.tasks.Keys == w.tasks.Keys
      && v.assets[0].status == Approved && v.assets[0].kind == w.assets[0].kind && v.assets[0].taskId == w.assets[0].taskId
  {
    var u := Apply(w, FINALIZE);
    assert u.assets[0].status == ReadyForReview;
    assert [FINALIZE, APPROVE][1..] == [APPROVE];
    assert Run(w, [FINALIZE, APPROVE]) == Run(u, [APPROVE]);
    RunOne(u, APPROVE);
  }

  lemma StartedStoryboard()
    ensures var w := Apply(Leased(Storyboard, 2), START);
      && CanFinalize(w, 0, 1, 2) && w.mediaJobs == map[0 := 0] && w.queue == LeasedQueue(Storyboard, 2)
      && 0 in w.assets && 0 in w.tasks && w.assets[0].kind == Storyboard && w.assets[0].taskId == Some(0)
  {
    FirstStart(Leased(Storyboard, 2), Storyboard);
  }

  lemma StoryboardIsApproved()
    ensures var w := Run(EMPTY, APPROVED_STORYBOARD);
      && w.queue == LeasedQueue(Storyboard, 2) && w.mediaJobs == map[0 := 0] && 0 in w.assets && 0 in w.tasks
      && w.assets[0].kind == Storyboard && w.assets[0].status == Approved && w.assets[0].taskId == Some(0)
  {
    var first := [RequestOf(Storyboard, 2), LEASE];
    RequestAndLease(Storyboard, 2);
    RunAppend(EMPTY, first, [START]);
    RunOne(Leased(Storyboard, 2), START);
    StartedStoryboard();
    RunAppend(EMPTY, first + [START], [FINALIZE, APPROVE]);
    FinalizeAndApprove(Run(EMPTY, first + [START]));
  }

  /** The worker dies before completing the job, another takes it over, and its handler starts the approved storyboard again. */
  lemma ApprovedStoryboardIsRestarted()
    ensures var w := Run(EMPTY, APPROVED_STORYBOARD + [RECLAIM, LEASE_AGAIN]);
      && 0 in w.assets && w.assets[0].status == Approved && CanStart(w, 0, 2)
      && 0 in Apply(w, START_AGAIN).assets && Apply(w, START_AGAIN).assets[0].status == Generating
  {
    var u := Run(EMPTY, APPROVED_STORYBOARD);
    StoryboardIsApproved();
    RunAppend(EMPTY, APPROVED_STORYBOARD, [RECLAIM, LEASE_AGAIN]);
    ReclaimAndLeaseAgain(u, Storyboard);
    var w := Run(u, [RECLAIM, LEASE_AGAIN]);
    RestartsReviewedAssetIff(w, 0, 2, START_AGAIN.now);
  }

  const TWO_HANDLERS := [RequestOf(Image, 2), LEASE] + [START] + [RECLAIM, LEASE_AGAIN]

  lemma SecondHandlerIsReady()
    ensures var w := Run(EMPTY, TWO_HANDLERS);
      && CanStart(w, 0, 2) && w.mediaJobs == map[0 := 0] && w.attempts == map[(0, 1) := OpenAttempt(1, FIRST_WORKER)]
      && (0, 1) in w.runs && w.runs[(0, 1)].attempt == Some(1)
      && w.runs[(0, 2)].workerId == SECOND_WORKER && OwnsLiveJobLease(w, 0, SECOND_WORKER, 2, Seconds(67))
  {
    var first := [RequestOf(Image, 2), LEASE];
    RequestAndLease(Image, 2);
    RunAppend(EMPTY, first, [START]);
    RunOne(Leased(Image, 2), START);
    FirstStart(Leased(Image, 2), Image);
    RunAppend(EMPTY, first + [START], [RECLAIM, LEASE_AGAIN]);
    ReclaimAndLeaseAgain(Run(EMPTY, first + [START]), Image);
  }

  /** A worker that stalled leaves attempt 1 open; the second worker can finalise attempt 2, and the check then fails the asset. */
  lemma StalledHandlerSpoilsSuccess()
    ensures var w := Run(EMPTY, TWO_HANDLERS + [START_AGAIN]);
      CanFinalize(w, 0, 2, Seconds(67)) && OtherActive(w, KeyOf(w, 0, 2))
  {
    SecondHandlerIsReady();
    RunKeepsInv(EMPTY, TWO_HANDLERS);
    RunAppend(EMPTY, TWO_HANDLERS, [START_AGAIN]);
    RunOne(Run(EMPTY, TWO_HANDLERS), START_AGAIN);
    SecondHandlerStarts(Run(EMPTY, TWO_HANDLERS));
  }

  lemma SecondHandlerStarts(w: World)
    requires Inv(w) && CanStart(w, 0, 2) && w.mediaJobs == map[0 := 0] && w.attempts == map[(0, 1) := OpenAttempt(1, FIRST_WORKER)]
    requires (0, 1) in w.runs && w.runs[(0, 1)].attempt == Some(1) && OwnsLiveJobLease(w, 0, w.runs[(0, 2)].workerId, 2, Seconds(67))
    ensures var v := Apply(w, START_AGAIN); CanFinalize(v, 0, 2, Seconds(67)) && OtherActive(v, KeyOf(v, 0, 2))
  {
    assert MediaNumbering.AllStartedBefore(w, 0, 2);
    MediaNumbering.StartDecidesFinalization(w, 0, 2, START_AGAIN.now, Seconds(67));
    FirstStaysOpen(w);
  }

  lemma FirstStaysOpen(w: World)
    requires CanStart(w, 0, 2) && w.mediaJobs == map[0 := 0] && w.attempts == map[(0, 1) := OpenAttempt(1, FIRST_WORKER)]
    ensures var v := Apply(w, START_AGAIN); HasStarted(v, 0, 2) && OtherActive(v, KeyOf(v, 0, 2))
  {
    var v := Apply(w, START_AGAIN);
    NextOf(w.attempts, 1);
    MediaNumbering.StartLeaves(w, 0, 2, START_AGAIN.now);
    assert KeyOf(v, 0, 2) == (0, 2);
    FirstIsKept(w);
    assert (0, 1) in v.attempts && v.attempts[(0, 1)].status == Started;
  }

  lemma FirstIsKept(w: World)
    requires CanStart(w, 0, 2) && w.mediaJobs == map[0 := 0] && (0, 1) in w.attempts && NextNumber(w.attempts, 0) == 2
    ensures (0, 1) in Apply(w, START_AGAIN).attempts && Apply(w, START_AGAIN).attempts[(0, 1)] == w.attempts[(0, 1)]
  {
  }
}
