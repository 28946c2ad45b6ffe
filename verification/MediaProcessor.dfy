/**
 The handlers `generate_image` and `generate_storyboard` of app/media/service.py: start, call the provider outside any
 transaction, finalise, and on every exception clean up. Other processes commit whatever they like before each of the
 handler's own transactions, except that a lease has one handler run, so nobody else acts as this run.
 */
module MediaProcessor {
  import opened Wrappers
  import opened MediaState
  import opened MediaRepository
  import opened MediaSafety
  import J = JobState

  datatype Fault = NoFault | DatabaseError | CallCancelled | ReplyLost

  /** Before one transaction of ours, `others` commit; then ours runs at `now`, fails, or commits unacknowledged. */
  datatype Moment = Moment(others: seq<Step>, now: Time, fault: Fault)

  /** The provider call, the content checks and the checkpoint, up to the finalisation. */
  datatype Production = Produced(content: string) | Raised(code: string, message: string) | CancelRaised

  datatype Environment = Environment(start: Moment, production: Production, finalization: Moment, cleanup: Moment)

  /** How the handler ends. On `CleanupFailed` alone persistence failed during the cleanup as well. */
  datatype Exit = ReturnedIdle | ReturnedReady | RaisedAtStart | RaisedCancelled | RaisedError | CleanupFailed

  predicate Commits(f: Fault) {
    f == NoFault || f == ReplyLost
  }

  predicate ActsAs(s: Step, jobId: J.JobId, n: nat) {
    (s.Start? || s.Finalize? || s.Finish?) && s.jobId == jobId && s.n == n
  }

  ghost predicate LeaveRunAlone(steps: seq<Step>, jobId: J.JobId, n: nat) {
    forall s :: s in steps ==> !ActsAs(s, jobId, n)
  }

  ghost predicate EnvironmentOk(env: Environment, jobId: J.JobId, n: nat) {
    && LeaveRunAlone(env.start.others, jobId, n)
    && LeaveRunAlone(env.finalization.others, jobId, n)
    && LeaveRunAlone(env.cleanup.others, jobId, n)
  }

  /** A handler run of this lease exists, has started nothing, and its job's payload names an asset of this kind. */
  ghost predicate Fresh(w: World, jobId: J.JobId, n: nat, kind: Kind) {
    && (jobId, n) in w.runs && w.runs[(jobId, n)].attempt == None
    && HasAsset(w, jobId) && w.assets[w.mediaJobs[jobId]].kind == kind
  }

  function StatusOf(w: World, jobId: J.JobId): AssetStatus
    requires HasAsset(w, jobId)
  {
    w.assets[w.mediaJobs[jobId]].status
  }

  /** The run started attempt `key`, which is in the table under the run's worker. */
  ghost predicate Owns(w: World, jobId: J.JobId, n: nat, key: AttemptKey) {
    && HasStarted(w, jobId, n) && KeyOf(w, jobId, n) == key
    && w.attempts[key].workerId == w.runs[(jobId, n)].workerId
  }

  ghost predicate IsCompleted(w: World, key: AttemptKey) {
    key in w.attempts && w.attempts[key].status == Completed
  }

  /** Error code and message an answer is raised with. */
  function ErrorOf(r: FinalizeResult): (string, string) {
    match r
    case Finalized => GENERIC_ERROR
    case LeaseNotOwned => ("MEDIA_ATTEMPT_LEASE_LOST", "Media job lease is no longer owned")
    case FinalizationTargetMissing => ("MEDIA_ATTEMPT_FINALIZATION_ERROR", "Media finalization target is missing")
    case StateConflict => ("MEDIA_ATTEMPT_STATE_CONFLICT", "Media attempt changed before finalization")
  }

  const GENERIC_ERROR := ("MEDIA_ERROR", "Media generation failed")
  const CANCELLATION := ("JOB_CANCELLED", "Media generation was cancelled")

  predicate WasCancelled(env: Environment) {
    env.production.CancelRaised? || (env.production.Produced? && env.finalization.fault == CallCancelled)
  }

  /** The reasons an answer is raised with. */
  lemma ErrorsByAnswer(r: FinalizeResult)
    ensures r == LeaseNotOwned ==> ErrorOf(r) == ("MEDIA_ATTEMPT_LEASE_LOST", "Media job lease is no longer owned")
    ensures r == FinalizationTargetMissing ==> ErrorOf(r) == ("MEDIA_ATTEMPT_FINALIZATION_ERROR", "Media finalization target is missing")
    ensures r == StateConflict ==> ErrorOf(r) == ("MEDIA_ATTEMPT_STATE_CONFLICT", "Media attempt changed before finalization")
  {
  }

  /** What the cleanup records, when the guarded part ran from `w`. */
  function Recorded(w: World, env: Environment, jobId: J.JobId, n: nat): (string, string)
    requires (jobId, n) in Run(w, env.finalization.others).runs
  {
    if WasCancelled(env) then CANCELLATION
    else if env.production.Raised? then (env.production.code, env.production.message)
    else if env.finalization.fault == DatabaseError then GENERIC_ERROR
    else ErrorOf(FinalizeAnswer(Run(w, env.finalization.others), jobId, n, env.finalization.now))
  }

  /** The transactions of the guarded part, with everybody else's: the finalisation if content was produced, then the cleanup unless it succeeded. */
  ghost function GuardedSteps(w: World, env: Environment, jobId: J.JobId, n: nat, ready: bool): seq<Step>
    requires (jobId, n) in Run(w, env.finalization.others).runs
  {
    var recorded := Recorded(w, env, jobId, n);
    FinalizeSteps(env, jobId, n)
    + (if ready then [] else CleanupSteps(env.cleanup, jobId, n, WasCancelled(env), recorded.0, recorded.1))
  }

  /** The finalisation gets through. */
  ghost predicate FinalizationCommits(w: World, env: Environment, jobId: J.JobId, n: nat)
    requires (jobId, n) in Run(w, env.finalization.others).runs
  {
    && env.production.Produced? && Commits(env.finalization.fault)
    && FinalizeAnswer(Run(w, env.finalization.others), jobId, n, env.finalization.now) == Finalized
  }

  /** What the run produced is what the asset and its task have, ready for review. */
  ghost predicate IsDelivered(w: World, jobId: J.JobId, env: Environment) {
    env.production.Produced? && jobId in w.mediaJobs
    && FinalizedWith(w, w.mediaJobs[jobId], env.production.content, env.finalization.now)
  }

  /** How the guarded part ends, when it runs from `w`. */
  ghost function GuardedExit(w: World, env: Environment, jobId: J.JobId, n: nat): Exit
    requires (jobId, n) in Run(w, env.finalization.others).runs
  {
    if FinalizationCommits(w, env, jobId, n) && env.finalization.fault == NoFault then ReturnedReady
    else if env.cleanup.fault != NoFault then CleanupFailed
    else if WasCancelled(env) then RaisedCancelled
    else RaisedError
  }

  /** Which exit happens when. */
  lemma ExitByCase(w: World, env: Environment, jobId: J.JobId, n: nat)
    requires (jobId, n) in Run(w, env.finalization.others).runs
    ensures var through := env.production.Produced? && env.finalization.fault == NoFault
                           && CanFinalize(Run(w, env.finalization.others), jobId, n, env.finalization.now);
      && (GuardedExit(w, env, jobId, n) == ReturnedReady <==> through)
      && (GuardedExit(w, env, jobId, n) == CleanupFailed <==> !through && env.cleanup.fault != NoFault)
      && (GuardedExit(w, env, jobId, n) == RaisedCancelled <==> (!through && env.cleanup.fault == NoFault && WasCancelled(env)))
      && (WasCancelled(env) <==> env.production.CancelRaised? || (env.production.Produced? && env.finalization.fault == CallCancelled))
  {
    FinalizeAnswerByCase(Run(w, env.finalization.others), jobId, n, env.finalization.now);
  }

  /** Which reason the cleanup records when. */
  lemma ReasonByCase(w: World, env: Environment, jobId: J.JobId, n: nat)
    requires (jobId, n) in Run(w, env.finalization.others).runs
    ensures env.production.CancelRaised? ==> Recorded(w, env, jobId, n) == ("JOB_CANCELLED", "Media generation was cancelled")
    ensures env.production.Raised? ==> Recorded(w, env, jobId, n) == (env.production.code, env.production.message)
    ensures env.production.Produced? && env.finalization.fault == CallCancelled ==>
      Recorded(w, env, jobId, n) == ("JOB_CANCELLED", "Media generation was cancelled")
    ensures env.production.Produced? && env.finalization.fault == DatabaseError ==>
      Recorded(w, env, jobId, n) == ("MEDIA_ERROR", "Media generation failed")
    ensures env.production.Produced? && Commits(env.finalization.fault) ==>
      Recorded(w, env, jobId, n) == ErrorOf(FinalizeAnswer(Run(w, env.finalization.others), jobId, n, env.finalization.now))
    ensures ErrorOf(Finalized) == ("MEDIA_ERROR", "Media generation failed")
  {
  }

  ghost function FinalizeSteps(env: Environment, jobId: J.JobId, n: nat): seq<Step> {
    if !env.production.Produced? then []
    else if !Commits(env.finalization.fault) then env.finalization.others
    else env.finalization.others + [Finalize(jobId, n, env.production.content, env.finalization.now)]
  }

  ghost function CleanupSteps(at: Moment, jobId: J.JobId, n: nat, cancelled: bool, code: string, message: string): seq<Step> {
    if Commits(at.fault) then at.others + [Finish(jobId, n, cancelled, code, message, at.now)] else at.others
  }

  ghost function StartSteps(at: Moment, jobId: J.JobId, n: nat): seq<Step> {
    if Commits(at.fault) then at.others + [Start(jobId, n, at.now)] else at.others
  }

  lemma StepKeepsKind(w: World, s: Step, a: AssetId)
    requires a in w.assets
    ensures a in Apply(w, s).assets && Apply(w, s).assets[a].kind == w.assets[a].kind
  {
  }

  /** Nobody else's transaction starts an attempt for this run. */
  lemma {:induction false} FreshStays(w: World, steps: seq<Step>, jobId: J.JobId, n: nat, kind: Kind)
    requires Inv(w) && Fresh(w, jobId, n, kind) && LeaveRunAlone(steps, jobId, n)
    ensures Fresh(Run(w, steps), jobId, n, kind)
    decreases |steps|
  {
    if steps == [] {
    } else {
      assert steps[0] in steps;
      StepOnRun(w, steps[0], (jobId, n));
      StepKeepsLinks(w, steps[0]);
      StepKeepsKind(w, steps[0], w.mediaJobs[jobId]);
      StepKeepsInv(w, steps[0]);
      FreshStays(Apply(w, steps[0]), steps[1..], jobId, n, kind);
    }
  }

  lemma StepOwns(w: World, s: Step, jobId: J.JobId, n: nat, key: AttemptKey)
    requires Inv(w) && Owns(w, jobId, n, key)
    ensures Inv(Apply(w, s)) && Owns(Apply(w, s), jobId, n, key)
    ensures w.attempts[key].status != Started ==> Apply(w, s).attempts[key] == w.attempts[key]
  {
    StepKeepsLinks(w, s);
    StepOnRun(w, s, (jobId, n));
    NextNumberIsFree(w, key.0);
    StepOnAttempt(w, s, key);
    StepKeepsInv(w, s);
  }

  /** A run keeps its attempt through anybody's transactions. */
  lemma {:induction false} OwnsStays(w: World, steps: seq<Step>, jobId: J.JobId, n: nat, key: AttemptKey)
    requires Inv(w) && Owns(w, jobId, n, key)
    ensures Owns(Run(w, steps), jobId, n, key)
    ensures w.attempts[key].status != Started ==> Run(w, steps).attempts[key] == w.attempts[key]
    decreases |steps|
  {
    if steps == [] {
    } else {
      StepOwns(w, steps[0], jobId, n, key);
      OwnsStays(Apply(w, steps[0]), steps[1..], jobId, n, key);
    }
  }

  /** Nobody else's transaction completes the attempt of this run. */
  lemma {:induction false} OnlyTheRunCompletes(w: World, steps: seq<Step>, jobId: J.JobId, n: nat, key: AttemptKey)
    requires Inv(w) && Owns(w, jobId, n, key) && LeaveRunAlone(steps, jobId, n)
    ensures IsCompleted(Run(w, steps), key) <==> IsCompleted(w, key)
    decreases |steps|
  {
    if steps == [] {
    } else {
      assert steps[0] in steps;
      StepOwns(w, steps[0], jobId, n, key);
      StepCompletes(w, steps[0], jobId, n, key);
      OnlyTheRunCompletes(Apply(w, steps[0]), steps[1..], jobId, n, key);
    }
  }

  lemma StepCompletes(w: World, s: Step, jobId: J.JobId, n: nat, key: AttemptKey)
    requires Inv(w) && Owns(w, jobId, n, key) && !ActsAs(s, jobId, n)
    ensures IsCompleted(Apply(w, s), key) <==> IsCompleted(w, key)
  {
    NextNumberIsFree(w, key.0);
    StepOnAttempt(w, s, key);
    if s.Finalize? && Enabled(w, s) {
      assert StartedOk(w, (jobId, n)) && StartedOk(w, (s.jobId, s.n));
    }
  }

  lemma RunIsFresh(w: World, steps: seq<Step>, jobId: J.JobId, n: nat, kind: Kind)
    requires Reachable(w) && Fresh(w, jobId, n, kind) && LeaveRunAlone(steps, jobId, n)
    ensures Reachable(Run(w, steps)) && Fresh(Run(w, steps), jobId, n, kind)
  {
    ReachableIsSafe(w);
    ReachableRun(w, steps);
    FreshStays(w, steps, jobId, n, kind);
  }

  lemma RunOwns(w: World, steps: seq<Step>, jobId: J.JobId, n: nat, key: AttemptKey)
    requires Reachable(w) && Owns(w, jobId, n, key) && LeaveRunAlone(steps, jobId, n)
    ensures Reachable(Run(w, steps)) && Owns(Run(w, steps), jobId, n, key)
    ensures IsCompleted(Run(w, steps), key) <==> IsCompleted(w, key)
    ensures w.attempts[key].status != Started ==> Run(w, steps).attempts[key].status != Started
  {
    ReachableIsSafe(w);
    ReachableRun(w, steps);
    OwnsStays(w, steps, jobId, n, key);
    OnlyTheRunCompletes(w, steps, jobId, n, key);
  }

  lemma StartOwns(w: World, jobId: J.JobId, n: nat, now: Time)
    requires CanStart(w, jobId, n)
    ensures var key := (w.mediaJobs[jobId], NextNumber(w.attempts, w.mediaJobs[jobId]));
      Owns(Apply(w, Start(jobId, n, now)), jobId, n, key) && !IsCompleted(Apply(w, Start(jobId, n, now)), key)
  {
  }

  lemma OwnStep(w: World, before: seq<Step>, v: World, s: Step)
    requires Run(w, before) == v && Reachable(v)
    ensures Run(w, before + [s]) == Apply(v, s) && Reachable(Apply(v, s))
  {
    RunSnoc(w, before, s);
    ReachableStep(v, s);
  }

  class Handler {
    const store: MediaStore

    constructor (store: MediaStore)
      ensures this.store == store
    {
      this.store := store;
    }

    /** `_finish_attempt`: once it commits the attempt is terminal, and a COMPLETED attempt stays COMPLETED. */
    method FinishAttempt(jobId: J.JobId, n: nat, ghost key: AttemptKey, cancelled: bool, code: string, message: string, at: Moment)
      returns (ok: bool, ghost steps: seq<Step>)
      requires Reachable(store.State()) && Owns(store.State(), jobId, n, key) && LeaveRunAlone(at.others, jobId, n)
      modifies store
      ensures store.State() == Run(old(store.State()), steps) && Reachable(store.State())
      ensures Owns(store.State(), jobId, n, key)
      ensures IsCompleted(store.State(), key) <==> IsCompleted(old(store.State()), key)
      ensures ok ==> store.attempts[key].status != Started
      ensures steps == CleanupSteps(at, jobId, n, cancelled, code, message)
      ensures ok <==> at.fault == NoFault
      ensures key in Run(old(store.State()), at.others).attempts
      ensures ok ==> var before := Run(old(store.State()), at.others).attempts[key];
        store.attempts[key] == if before.status != Started then before
                               else before.(status := if cancelled then AttemptCancelled else AttemptFailed, errorCode := Some(code),
                                            errorMessage := Some(message), completedAt := Some(at.now))
    {
      RunOwns(store.State(), at.others, jobId, n, key);
      store.Others(at.others);
      steps := at.others;
      if !Commits(at.fault) {
        return false, steps;
      }
      ghost var v := store.State();
      var attemptId := (store.mediaJobs[jobId], store.runs[(jobId, n)].attempt.value);
      var r := store.MarkTerminal(attemptId, if cancelled then AttemptCancelled else AttemptFailed,
                                  store.runs[(jobId, n)].workerId, Some(code), Some(message), at.now);
      OwnStep(old(store.State()), at.others, v, Finish(jobId, n, cancelled, code, message, at.now));
      return at.fault == NoFault, at.others + [Finish(jobId, n, cancelled, code, message, at.now)];
    }

    /** The finalisation's transaction. */
    method Finalise(jobId: J.JobId, n: nat, ghost key: AttemptKey, content: string, at: Moment)
      returns (r: FinalizeResult, committed: bool, ghost steps: seq<Step>)
      requires Reachable(store.State()) && Owns(store.State(), jobId, n, key) && LeaveRunAlone(at.others, jobId, n)
      requires !IsCompleted(store.State(), key)
      modifies store
      ensures store.State() == Run(old(store.State()), steps) && Reachable(store.State())
      ensures Owns(store.State(), jobId, n, key)
      ensures IsCompleted(store.State(), key) <==> committed
      ensures (jobId, n) in Run(old(store.State()), at.others).runs
      ensures r == FinalizeAnswer(Run(old(store.State()), at.others), jobId, n, at.now) || !Commits(at.fault)
      ensures committed <==> Commits(at.fault) && r == Finalized
      ensures committed ==> jobId in store.mediaJobs && FinalizedWith(store.State(), store.mediaJobs[jobId], content, at.now)
      ensures steps == if Commits(at.fault) then at.others + [Finalize(jobId, n, content, at.now)] else at.others
    {
      RunOwns(store.State(), at.others, jobId, n, key);
      store.Others(at.others);
      steps := at.others;
      if !Commits(at.fault) {
        return StateConflict, false, steps;
      }
      ghost var v := store.State();
      r := store.FinalizeSuccess(jobId, n, content, at.now);
      OwnStep(old(store.State()), at.others, v, Finalize(jobId, n, content, at.now));
      return r, r == Finalized, at.others + [Finalize(jobId, n, content, at.now)];
    }

    /** The body of the guarded part: produce, then finalise; `error` is what it raises unless it got through. */
    method TryToFinalise(jobId: J.JobId, n: nat, ghost key: AttemptKey, env: Environment)
      returns (ready: bool, error: (string, string), committed: bool, ghost steps: seq<Step>)
      requires Reachable(store.State()) && Owns(store.State(), jobId, n, key) && EnvironmentOk(env, jobId, n)
      requires !IsCompleted(store.State(), key)
      modifies store
      ensures store.State() == Run(old(store.State()), steps) && Reachable(store.State())
      ensures Owns(store.State(), jobId, n, key)
      ensures IsCompleted(store.State(), key) <==> committed
      ensures steps == FinalizeSteps(env, jobId, n)
      ensures (jobId, n) in Run(old(store.State()), env.finalization.others).runs
      ensures committed <==> FinalizationCommits(old(store.State()), env, jobId, n)
      ensures ready <==> committed && env.finalization.fault == NoFault
      ensures ready ==> IsDelivered(store.State(), jobId, env)
      ensures !ready && !WasCancelled(env) ==> error == Recorded(old(store.State()), env, jobId, n)
    {
      RunOwns(store.State(), env.finalization.others, jobId, n, key);
      ready, committed, error, steps := false, false, GENERIC_ERROR, [];
      match env.production {
        case CancelRaised =>
        case Raised(code, message) =>
          error := (code, message);
        case Produced(content) =>
          var r;
          r, committed, steps := Finalise(jobId, n, key, content, env.finalization);
          ready := committed && env.finalization.fault == NoFault;
          if Commits(env.finalization.fault) {
            error := ErrorOf(r);
          }
      }
    }

    /** The guarded part of a handler, once its attempt is started. */
    method ProduceAndFinalize(jobId: J.JobId, n: nat, ghost key: AttemptKey, env: Environment)
      returns (exit: Exit, committed: bool, ghost steps: seq<Step>)
      requires Reachable(store.State()) && Owns(store.State(), jobId, n, key) && EnvironmentOk(env, jobId, n)
      requires !IsCompleted(store.State(), key)
      modifies store
      ensures store.State() == Run(old(store.State()), steps) && Reachable(store.State())
      ensures Ended(store.State(), jobId, n, key, exit, committed)
      ensures (jobId, n) in Run(old(store.State()), env.finalization.others).runs
      ensures exit == GuardedExit(old(store.State()), env, jobId, n)
      ensures committed <==> FinalizationCommits(old(store.State()), env, jobId, n)
      ensures exit == ReturnedReady ==> IsDelivered(store.State(), jobId, env)
      ensures steps == GuardedSteps(old(store.State()), env, jobId, n, exit == ReturnedReady)
    {
      var ready, error;
      ready, error, committed, steps := TryToFinalise(jobId, n, key, env);
      if ready {
        return ReturnedReady, true, steps;
      }
      var cancelled := WasCancelled(env);
      if cancelled {
        error := CANCELLATION;
      }
      ghost var more;
      var ok;
      ok, more := FinishAttempt(jobId, n, key, cancelled, error.0, error.1, env.cleanup);
      RunAppend(old(store.State()), steps, more);
      steps := steps + more;
      exit := if !ok then CleanupFailed else if cancelled then RaisedCancelled else RaisedError;
    }

    /** From the answer of the start transaction to the end of the handler. */
    method AfterStart(r: StartResult, jobId: J.JobId, n: nat, ghost key: AttemptKey, env: Environment)
      returns (exit: Exit, committed: bool, ghost steps: seq<Step>)
      requires Reachable(store.State()) && EnvironmentOk(env, jobId, n)
      requires r.AttemptStarted? ==> Owns(store.State(), jobId, n, key) && !IsCompleted(store.State(), key)
      modifies store
      ensures store.State() == Run(old(store.State()), steps) && Reachable(store.State())
      ensures exit == RaisedAtStart <==> env.start.fault != NoFault || r == TargetMissing
      ensures exit == ReturnedIdle <==> env.start.fault == NoFault && r == NothingToDo
      ensures exit != RaisedAtStart && exit != ReturnedIdle ==> Ended(store.State(), jobId, n, key, exit, committed)
      ensures exit == ReturnedReady ==> IsDelivered(store.State(), jobId, env)
      ensures exit != RaisedAtStart && exit != ReturnedIdle ==>
        (jobId, n) in Run(old(store.State()), env.finalization.others).runs && exit == GuardedExit(old(store.State()), env, jobId, n)
      ensures steps == if exit == RaisedAtStart || exit == ReturnedIdle then [] else GuardedSteps(old(store.State()), env, jobId, n, exit == ReturnedReady)
      ensures committed ==> exit == ReturnedReady || env.finalization.fault == ReplyLost
    {
      committed, steps := false, [];
      if env.start.fault != NoFault || r == TargetMissing {
        exit := RaisedAtStart;
      } else if r == NothingToDo {
        exit := ReturnedIdle;
      } else {
        exit, committed, steps := ProduceAndFinalize(jobId, n, key, env);
      }
    }

    /** `generate_image`: every exit after a start leaves the attempt terminal, COMPLETED exactly when its finalisation committed. */
    method GenerateImage(jobId: J.JobId, n: nat, env: Environment)
      returns (exit: Exit, committed: bool, ghost key: AttemptKey, ghost steps: seq<Step>)
      requires Reachable(store.State()) && Fresh(store.State(), jobId, n, Image) && EnvironmentOk(env, jobId, n)
      modifies store
      ensures store.State() == Run(old(store.State()), steps) && Reachable(store.State())
      ensures var w := Run(old(store.State()), StartSteps(env.start, jobId, n));
        if exit == RaisedAtStart || exit == ReturnedIdle then steps == StartSteps(env.start, jobId, n)
        else (jobId, n) in Run(w, env.finalization.others).runs
             && steps == StartSteps(env.start, jobId, n) + GuardedSteps(w, env, jobId, n, exit == ReturnedReady)
             && exit == GuardedExit(w, env, jobId, n)
      ensures exit != RaisedAtStart && exit != ReturnedIdle ==> Ended(store.State(), jobId, n, key, exit, committed)
      ensures exit == ReturnedReady ==> IsDelivered(store.State(), jobId, env)
      ensures committed ==> exit == ReturnedReady || env.finalization.fault == ReplyLost
      ensures exit == RaisedAtStart <==> env.start.fault != NoFault
      ensures exit == ReturnedIdle <==> env.start.fault == NoFault && !CanStart(Run(old(store.State()), env.start.others), jobId, n)
    {
      RunIsFresh(store.State(), env.start.others, jobId, n, Image);
      store.Others(env.start.others);
      steps := env.start.others;
      ghost var v := store.State();
      var a := store.mediaJobs[jobId];
      key := (a, NextNumber(v.attempts, a));
      var r := NothingToDo;
      if Commits(env.start.fault) {
        r := store.StartImage(jobId, n, env.start.now);
        if r.AttemptStarted? {
          StartOwns(v, jobId, n, env.start.now);
        }
        OwnStep(old(store.State()), steps, v, Start(jobId, n, env.start.now));
        steps := steps + [Start(jobId, n, env.start.now)];
      }
      ghost var more;
      exit, committed, more := AfterStart(r, jobId, n, key, env);
      RunAppend(old(store.State()), steps, more);
      steps := steps + more;
    }

    /** `generate_storyboard`, with the same guarantee on every exit. */
    method GenerateStoryboard(jobId: J.JobId, n: nat, env: Environment)
      returns (exit: Exit, committed: bool, ghost key: AttemptKey, ghost steps: seq<Step>)
      requires Reachable(store.State()) && Fresh(store.State(), jobId, n, Storyboard) && EnvironmentOk(env, jobId, n)
      modifies store
      ensures store.State() == Run(old(store.State()), steps) && Reachable(store.State())
      ensures var w := Run(old(store.State()), StartSteps(env.start, jobId, n));
        if exit == RaisedAtStart || exit == ReturnedIdle then steps == StartSteps(env.start, jobId, n)
        else (jobId, n) in Run(w, env.finalization.others).runs
             && steps == StartSteps(env.start, jobId, n) + GuardedSteps(w, env, jobId, n, exit == ReturnedReady)
             && exit == GuardedExit(w, env, jobId, n)
      ensures exit != RaisedAtStart && exit != ReturnedIdle ==> Ended(store.State(), jobId, n, key, exit, committed)
      ensures exit == ReturnedReady ==> IsDelivered(store.State(), jobId, env)
      ensures committed ==> exit == ReturnedReady || env.finalization.fault == ReplyLost
      ensures var v := Run(old(store.State()), env.start.others);
        && HasAsset(v, jobId)
        && (exit == RaisedAtStart <==> env.start.fault != NoFault || (StatusOf(v, jobId) != ReadyForReview && TaskOf(v, v.assets[v.mediaJobs[jobId]]) == None))
        && (exit == ReturnedIdle <==> env.start.fault == NoFault && StatusOf(v, jobId) == ReadyForReview)
    {
      RunIsFresh(store.State(), env.start.others, jobId, n, Storyboard);
      store.Others(env.start.others);
      steps := env.start.others;
      ghost var v := store.State();
      var a := store.mediaJobs[jobId];
      key := (a, NextNumber(v.attempts, a));
      var r := NothingToDo;
      if Commits(env.start.fault) {
        r := store.StartStoryboard(jobId, n, env.start.now);
        if r.AttemptStarted? {
          StartOwns(v, jobId, n, env.start.now);
        }
        OwnStep(old(store.State()), steps, v, Start(jobId, n, env.start.now));
        steps := steps + [Start(jobId, n, env.start.now)];
      }
      ghost var more;
      exit, committed, more := AfterStart(r, jobId, n, key, env);
      RunAppend(old(store.State()), steps, more);
      steps := steps + more;
    }
  }

  /** What a handler that started an attempt leaves behind. */
  ghost predicate Ended(w: World, jobId: J.JobId, n: nat, key: AttemptKey, exit: Exit, committed: bool) {
    && Owns(w, jobId, n, key)
    && (exit != CleanupFailed ==> w.attempts[key].status != Started)
    && (IsCompleted(w, key) <==> committed)
    && (exit == ReturnedReady ==> committed)
    && exit != ReturnedIdle && exit != RaisedAtStart
  }
}
