/**
 Media assets, their tasks and generation attempts, beside the job queue that drives them. Each transaction of
 app/media/service.py, app/repositories/media_repository.py and app/jobs/lifecycle.py is one atomic step.
 */
module MediaState {
  import opened Wrappers
  import J = JobState
  import Selection

  type AssetId = nat
  type TaskId = nat

  datatype Kind = Image | Storyboard

  datatype AssetStatus = Requested | Generating | ReadyForReview | Approved | Rejected | Failed | Cancelled

  datatype TaskStatus = TaskPending | TaskProcessing | TaskReadyForReview | TaskCompleted | TaskFailed | TaskCancelled

  datatype AttemptStatus = Started | Completed | AttemptFailed | AttemptCancelled

  datatype Asset = Asset(
    kind: Kind,
    taskId: Option<TaskId>,
    status: AssetStatus,
    content: Option<string>,
    errorCode: Option<string>,
    errorMessage: Option<string>,
    completedAt: Option<Time>)

  datatype Task = Task(
    status: TaskStatus,
    result: Option<string>,
    errorCode: Option<string>,
    errorMessage: Option<string>,
    startedAt: Option<Time>,
    completedAt: Option<Time>)

  datatype Attempt = Attempt(
    jobId: J.JobId,
    workerId: string,
    jobAttempt: nat,
    status: AttemptStatus,
    errorCode: Option<string>,
    errorMessage: Option<string>,
    completedAt: Option<Time>)

  /** The unique constraint on (asset, attempt number). */
  type AttemptKey = (AssetId, nat)

  /** One handler run per lease: its worker, and the number of the media attempt it started, once it has. */
  datatype HandlerRun = HandlerRun(workerId: string, attempt: Option<nat>)

  datatype World = World(
    queue: J.Queue,
    mediaJobs: map<J.JobId, AssetId>,
    assets: map<AssetId, Asset>,
    tasks: map<TaskId, Task>,
    attempts: map<AttemptKey, Attempt>,
    runs: map<J.AttemptKey, HandlerRun>,
    readyEvents: set<AssetId>)

  const EMPTY := World(J.EMPTY, map[], map[], map[], map[], map[], {})

  function NumbersOf(attempts: map<AttemptKey, Attempt>, a: AssetId): set<nat> {
    set k | k in attempts && k.0 == a :: k.1
  }

  lemma MaximumExists(s: set<nat>)
    requires s != {}
    ensures exists m :: m in s && forall x :: x in s ==> x <= m
  {
    var above := (a: nat, b: nat) => a > b;
    var m := Selection.Minimal(s, above);
    assert forall x :: x in s ==> !above(x, m);
  }

  /** `max(attempt_number) or 0`. */
  function Maximum(s: set<nat>): (m: nat)
    ensures forall x :: x in s ==> x <= m
    ensures s != {} ==> m in s
  {
    if s == {} then 0
    else
      MaximumExists(s);
      var m :| m in s && forall x :: x in s ==> x <= m;
      m
  }

  function NextNumber(attempts: map<AttemptKey, Attempt>, a: AssetId): nat {
    Maximum(NumbersOf(attempts, a)) + 1
  }

  predicate Reviewable(s: AssetStatus) {
    s == ReadyForReview || s == Approved || s == Rejected
  }

  predicate Active(attempts: map<AttemptKey, Attempt>, a: AssetId) {
    exists k :: k in attempts && k.0 == a && attempts[k].status == Started
  }

  /** The task row of an asset, when it names one that exists. */
  function TaskOf(w: World, asset: Asset): Option<TaskId> {
    if asset.taskId.Some? && asset.taskId.value in w.tasks then asset.taskId else None
  }

  function WithTask(tasks: map<TaskId, Task>, id: Option<TaskId>, task: Task): map<TaskId, Task> {
    if id.Some? then tasks[id.value := task] else tasks
  }

  function Closed(at: Attempt, status: AttemptStatus, code: Option<string>, message: Option<string>, now: Time): Attempt {
    at.(status := status, errorCode := code, errorMessage := message, completedAt := Some(now))
  }

  /** Every STARTED attempt of the asset takes the terminal status. */
  function ActiveClosed(attempts: map<AttemptKey, Attempt>, a: AssetId, status: AttemptStatus, code: string, message: string, now: Time)
    : map<AttemptKey, Attempt>
  {
    map k | k in attempts :: if k.0 == a && attempts[k].status == Started then Closed(attempts[k], status, Some(code), Some(message), now) else attempts[k]
  }

  datatype Step =
    | Request(jobId: J.JobId, assetId: AssetId, taskId: Option<TaskId>, kind: Kind, key: string, default: int, now: Time)
    | JobStep(step: J.Step)
    | Start(jobId: J.JobId, n: nat, now: Time)
    | Finalize(jobId: J.JobId, n: nat, content: string, now: Time)
    | Finish(jobId: J.JobId, n: nat, cancelled: bool, code: string, message: string, now: Time)
    | Reconcile(jobId: J.JobId, cancelled: bool, errorCode: Option<string>, errorMessage: Option<string>, now: Time)
    | EnsureSuccess(jobId: J.JobId, now: Time)
    | PrepareRetry(jobId: J.JobId)
    | Review(assetId: AssetId, approve: bool, comment: string)

  function EnqueueStep(s: Step): J.Step
    requires s.Request?
  {
    J.Enqueue(s.jobId, if s.kind == Image then "IMAGE_GENERATION" else "VIDEO_STORYBOARD", s.key, 50, None, s.default, None, s.now)
  }

  predicate HasAsset(w: World, jobId: J.JobId) {
    jobId in w.mediaJobs && w.mediaJobs[jobId] in w.assets
  }

  /** A run of this lease that has not started an attempt yet, on an asset whose handler goes on to generate. */
  predicate CanStart(w: World, jobId: J.JobId, n: nat) {
    && (jobId, n) in w.runs && w.runs[(jobId, n)].attempt == None
    && HasAsset(w, jobId)
    && var asset := w.assets[w.mediaJobs[jobId]];
    && asset.status != ReadyForReview
    && (asset.kind == Image ==> asset.status != Approved)
    && (asset.kind == Storyboard ==> TaskOf(w, asset).Some?)
  }

  /** The lease check of the finalisation: owner, attempt number and expiry of the job row. */
  predicate OwnsLiveJobLease(w: World, jobId: J.JobId, workerId: string, n: nat, now: Time) {
    J.OwnsLiveLease(w.queue, jobId, workerId, now) && w.queue.jobs[jobId].attemptCount == n
  }

  predicate HasStarted(w: World, jobId: J.JobId, n: nat) {
    && (jobId, n) in w.runs && w.runs[(jobId, n)].attempt.Some?
    && jobId in w.mediaJobs && (w.mediaJobs[jobId], w.runs[(jobId, n)].attempt.value) in w.attempts
  }

  function KeyOf(w: World, jobId: J.JobId, n: nat): AttemptKey
    requires HasStarted(w, jobId, n)
  {
    (w.mediaJobs[jobId], w.runs[(jobId, n)].attempt.value)
  }

  predicate CanFinalize(w: World, jobId: J.JobId, n: nat, now: Time) {
    && HasStarted(w, jobId, n) && HasAsset(w, jobId)
    && OwnsLiveJobLease(w, jobId, w.runs[(jobId, n)].workerId, n, now)
    && var asset := w.assets[w.mediaJobs[jobId]];
    && var at := w.attempts[KeyOf(w, jobId, n)];
    && at.status == Started && at.workerId == w.runs[(jobId, n)].workerId && at.jobId == jobId
    && at.jobAttempt == n && KeyOf(w, jobId, n).1 == n
    && asset.status == Generating
    && (TaskOf(w, asset).Some? ==> w.tasks[TaskOf(w, asset).value].status == TaskProcessing)
  }

  predicate CanFinish(w: World, jobId: J.JobId, n: nat) {
    && HasStarted(w, jobId, n)
    && w.attempts[KeyOf(w, jobId, n)].workerId == w.runs[(jobId, n)].workerId
    && w.attempts[KeyOf(w, jobId, n)].status == Started
  }

  predicate Enabled(w: World, s: Step) {
    match s
    case Request(jobId, assetId, taskId, _, _, _, _) =>
      && assetId !in w.assets && (taskId.Some? ==> taskId.value !in w.tasks)
      && J.AnswerTo(w.queue, EnqueueStep(s)) == J.Done
    case JobStep(_) => true
    case Start(jobId, n, _) => CanStart(w, jobId, n)
    case Finalize(jobId, n, _, now) => CanFinalize(w, jobId, n, now)
    case Finish(jobId, n, _, _, _, _) => CanFinish(w, jobId, n)
    case Reconcile(jobId, _, _, _, _) => HasAsset(w, jobId)
    case EnsureSuccess(jobId, _) => HasAsset(w, jobId) && !Consistent(w, jobId)
    case PrepareRetry(jobId) => HasAsset(w, jobId)
    case Review(assetId, approve, comment) =>
      assetId in w.assets && w.assets[assetId].status == ReadyForReview && (approve || comment != "")
  }

  /** `ensure_success_consistency` accepts the handler's return. */
  predicate Consistent(w: World, jobId: J.JobId)
    requires HasAsset(w, jobId)
  {
    !Active(w.attempts, w.mediaJobs[jobId]) && Reviewable(w.assets[w.mediaJobs[jobId]].status)
  }

  const ORPHANED := "MEDIA_ATTEMPT_ORPHANED"

  function JobEffect(w: World, s: J.Step): World {
    var leased := s.Lease? && J.AnswerTo(w.queue, s) == J.Done;
    var queue := J.Apply(w.queue, s);
    w.(queue := queue,
       runs := if leased && s.id in queue.jobs then w.runs[(s.id, queue.jobs[s.id].attemptCount) := HandlerRun(s.workerId, None)] else w.runs)
  }

  function StartEffect(w: World, jobId: J.JobId, n: nat, now: Time): World
    requires CanStart(w, jobId, n)
  {
    var a := w.mediaJobs[jobId];
    var asset := w.assets[a];
    var task := TaskOf(w, asset);
    var number := NextNumber(w.attempts, a);
    var run := w.runs[(jobId, n)];
    w.(assets := w.assets[a := if asset.kind == Image then asset.(status := Generating, errorCode := None, errorMessage := None)
                               else asset.(status := Generating)],
       tasks := if task.Some? then
                  var t := w.tasks[task.value];
                  w.tasks[task.value := t.(status := TaskProcessing, startedAt := if t.startedAt.Some? then t.startedAt else Some(now))]
                else w.tasks,
       attempts := w.attempts[(a, number) := Attempt(jobId, run.workerId, n, Started, None, None, None)],
       runs := w.runs[(jobId, n) := run.(attempt := Some(number))])
  }

  function FinalizeEffect(w: World, jobId: J.JobId, n: nat, content: string, now: Time): World
    requires CanFinalize(w, jobId, n, now)
  {
    var a := w.mediaJobs[jobId];
    var asset := w.assets[a];
    var task := TaskOf(w, asset);
    var key := KeyOf(w, jobId, n);
    w.(assets := w.assets[a := asset.(status := ReadyForReview, completedAt := Some(now),
                                      content := if asset.kind == Image then Some(content) else asset.content)],
       tasks := if task.Some? then
                  w.tasks[task.value := w.tasks[task.value].(status := TaskCompleted, result := Some(content), completedAt := Some(now))]
                else w.tasks,
       attempts := w.attempts[key := Closed(w.attempts[key], Completed, None, None, now)],
       readyEvents := w.readyEvents + {a})
  }

  /** The asset and its task after a failure or cancellation. */
  function AssetEnded(w: World, a: AssetId, assetStatus: AssetStatus, taskStatus: TaskStatus, code: Option<string>, message: Option<string>, now: Time): World
    requires a in w.assets
  {
    var asset := w.assets[a];
    var task := TaskOf(w, asset);
    w.(assets := w.assets[a := asset.(status := assetStatus, errorCode := code, errorMessage := message, completedAt := Some(now))],
       tasks := if task.Some? then
                  w.tasks[task.value := w.tasks[task.value].(status := taskStatus, errorCode := code, errorMessage := message, completedAt := Some(now))]
                else w.tasks)
  }

  function Or(o: Option<string>, fallback: string): string {
    if o.Some? && o.value != "" then o.value else fallback
  }

  /** `sanitize_text(message) if message else None`. */
  function Present(o: Option<string>): Option<string> {
    if o == Some("") then None else o
  }

  function ReconcileEffect(w: World, jobId: J.JobId, cancelled: bool, code: Option<string>, message: Option<string>, now: Time): World
    requires HasAsset(w, jobId)
  {
    var a := w.mediaJobs[jobId];
    var v := w.(attempts := ActiveClosed(w.attempts, a, if cancelled then AttemptCancelled else AttemptFailed,
                                         Or(code, "JOB_TERMINAL_RECONCILIATION"), Or(message, "Terminal job reconciled media attempt"), now));
    if Reviewable(w.assets[a].status) then v
    else AssetEnded(v, a, if cancelled then Cancelled else Failed, if cancelled then TaskCancelled else TaskFailed, code, Present(message), now)
  }

  function OrphanEffect(w: World, jobId: J.JobId, now: Time): World
    requires HasAsset(w, jobId)
  {
    var a := w.mediaJobs[jobId];
    var v := w.(attempts := ActiveClosed(w.attempts, a, AttemptFailed, ORPHANED, "Successful handler left an active media attempt", now));
    AssetEnded(v, a, Failed, TaskFailed, Some(ORPHANED), Some("Media generation finalization was incomplete"), now)
  }

  function RetryEffect(w: World, jobId: J.JobId): World
    requires HasAsset(w, jobId)
  {
    var a := w.mediaJobs[jobId];
    var asset := w.assets[a];
    var task := TaskOf(w, asset);
    w.(assets := w.assets[a := asset.(status := Requested, errorCode := None, errorMessage := None, completedAt := None)],
       tasks := if task.Some? then
                  w.tasks[task.value := w.tasks[task.value].(status := TaskPending, errorCode := None, errorMessage := None, completedAt := None)]
                else w.tasks)
  }

  function Effect(w: World, s: Step): World
    requires Enabled(w, s)
  {
    match s
    case Request(jobId, assetId, taskId, kind, _, _, _) =>
      w.(queue := J.Apply(w.queue, EnqueueStep(s)),
         mediaJobs := w.mediaJobs[jobId := assetId],
         assets := w.assets[assetId := Asset(kind, taskId, Requested, None, None, None, None)],
         tasks := WithTask(w.tasks, taskId, Task(TaskPending, None, None, None, None, None)))
    case JobStep(step) => JobEffect(w, step)
    case Start(jobId, n, now) => StartEffect(w, jobId, n, now)
    case Finalize(jobId, n, content, now) => FinalizeEffect(w, jobId, n, content, now)
    case Finish(jobId, n, cancelled, code, message, now) =>
      var key := KeyOf(w, jobId, n);
      w.(attempts := w.attempts[key := Closed(w.attempts[key], if cancelled then AttemptCancelled else AttemptFailed, Some(code), Some(message), now)])
    case Reconcile(jobId, cancelled, code, message, now) => ReconcileEffect(w, jobId, cancelled, code, message, now)
    case EnsureSuccess(jobId, now) => OrphanEffect(w, jobId, now)
    case PrepareRetry(jobId) => RetryEffect(w, jobId)
    case Review(assetId, approve, _) =>
      w.(assets := w.assets[assetId := w.assets[assetId].(status := if approve then Approved else Rejected)])
  }

  function Apply(w: World, s: Step): World {
    if Enabled(w, s) then Effect(w, s) else w
  }

  function Run(w: World, steps: seq<Step>): World
    decreases |steps|
  {
    if steps == [] then w else Run(Apply(w, steps[0]), steps[1..])
  }

  lemma {:induction false} RunAppend(w: World, a: seq<Step>, b: seq<Step>)
    ensures Run(w, a + b) == Run(Run(w, a), b)
    decreases |a|
  {
    if a == [] {
      assert a + b == b;
    } else {
      assert (a + b)[0] == a[0] && (a + b)[1..] == a[1..] + b;
      RunAppend(Apply(w, a[0]), a[1..], b);
    }
  }
}
