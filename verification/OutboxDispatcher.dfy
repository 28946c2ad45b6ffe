/**
 The dispatcher of app/outbox/dispatcher.py. Each of its transactions happens at a Moment: first other processes
 commit whatever they like, then ours runs, or fails, at its own clock reading. Every execution is a run of the
 step machine, so the theorems of OutboxSafety hold after it.
 */
module OutboxDispatcher {
  import opened Wrappers
  import opened OutboxState
  import opened OutboxRepository
  import opened OutboxSafety
  import Selection
  import Backoff

  datatype Fault = NoFault | DatabaseError | TaskCancelled

  /** `landed` says of a transaction that fails on our side whether the database committed it all the same. */
  datatype Moment = Moment(others: seq<Step>, now: Time, fault: Fault, landed: bool)

  predicate Commits(at: Moment) {
    at.fault == NoFault || at.landed
  }

  /** How the consumer task ends, and what the dispatcher learns about its commit. */
  datatype ConsumerEnd = Returned | Raised(code: string, message: string) | WasCancelled

  datatype CommitReply = Acknowledged | LostBefore | LostAfter | CancelledAfter

  datatype Environment = Environment(
    heartbeats: seq<Moment>,
    consumer: ConsumerEnd,
    renewal: Moment,
    marking: Moment,
    reply: CommitReply,
    recording: Moment)

  /** One turn of the dispatch loop: the lease, the rows other transactions have locked then, and the dispatch. */
  datatype Round = Round(lease: Moment, lockedElsewhere: set<EventId>, environment: Environment)

  datatype Outcome = Dispatched | LeaseWasLost | FailureRecorded | RecordingFailed | Interrupted

  datatype Settings = Settings(leaseSeconds: int, retryBase: int, retryMaximum: int)

  // ----- what each part of a dispatch does to the tables

  ghost function AfterRenewal(w: World, event: Token, at: Moment, settings: Settings): World {
    var v := Run(w, at.others);
    if Commits(at) then Apply(v, Renew(event, settings.leaseSeconds, at.now)) else v
  }

  ghost predicate RenewalSucceeds(w: World, event: Token, at: Moment) {
    at.fault == NoFault && Holds(Run(w, at.others), event, at.now)
  }

  datatype Beats = Beats(world: World, leaseLost: bool, cancelled: bool)

  /** Renewals one after the other, up to the first that does not succeed. */
  ghost function AfterBeats(w: World, event: Token, beats: seq<Moment>, settings: Settings): Beats
    decreases |beats|
  {
    if beats == [] then Beats(w, false, false)
    else
      var before, at := AfterBeats(w, event, beats[..|beats| - 1], settings), beats[|beats| - 1];
      if before.leaseLost || before.cancelled then before
      else Beats(AfterRenewal(before.world, event, at, settings),
                 !RenewalSucceeds(before.world, event, at) && at.fault != TaskCancelled, at.fault == TaskCancelled)
  }

  /** How a dispatch ends, and whether its consumer transaction committed. */
  datatype Ending = Ending(world: World, outcome: Outcome, committed: bool)

  ghost function FailureStep(event: Token, code: string, message: string, at: Moment, settings: Settings): (s: Step)
    ensures s.Fail? && s.token == event
  {
    Fail(event, code, message, settings.retryBase, settings.retryMaximum, at.now)
  }

  /** A failure recorded in a session of its own, if that session gets through and the lease still holds. */
  ghost function Recorded(w: World, event: Token, code: string, message: string, at: Moment, settings: Settings, committed: bool): Ending {
    var v := Run(w, at.others);
    var after := if Commits(at) then Apply(v, FailureStep(event, code, message, at, settings)) else v;
    match at.fault
    case TaskCancelled => Ending(after, Interrupted, committed)
    case DatabaseError => Ending(after, RecordingFailed, committed)
    case NoFault => Ending(after, if Holds(v, event, at.now) then FailureRecorded else LeaseWasLost, committed)
  }

  const CONSUMER_ERROR := "OUTBOX_CONSUMER_ERROR"
  const CONSUMER_FAILED := "Outbox consumer failed"

  /** From the fenced update to the commit of the consumer's session. */
  ghost function AfterMarking(w: World, event: Token, env: Environment, settings: Settings): Ending {
    var v := Run(w, env.marking.others);
    if env.marking.fault == TaskCancelled then Ending(v, Interrupted, false)
    else if env.marking.fault == DatabaseError then Recorded(v, event, CONSUMER_ERROR, CONSUMER_FAILED, env.recording, settings, false)
    else if !Holds(v, event, env.marking.now) then Ending(v, LeaseWasLost, false)
    else
      match env.reply
      case Acknowledged => Ending(Apply(v, Consume(event, env.marking.now)), Dispatched, true)
      case CancelledAfter => Ending(Apply(v, Consume(event, env.marking.now)), Interrupted, true)
      case LostAfter =>
        Recorded(Apply(v, Consume(event, env.marking.now)), event, CONSUMER_ERROR, CONSUMER_FAILED, env.recording, settings, true)
      case LostBefore => Recorded(v, event, CONSUMER_ERROR, CONSUMER_FAILED, env.recording, settings, false)
  }

  ghost function AfterDispatch(w: World, event: Token, env: Environment, settings: Settings): Ending {
    var beats := AfterBeats(w, event, env.heartbeats, settings);
    if beats.cancelled || (env.consumer == WasCancelled && !beats.leaseLost) then Ending(beats.world, Interrupted, false)
    else if env.consumer.Raised? then
      Recorded(beats.world, event, env.consumer.code, env.consumer.message, env.recording, settings, false)
    else if beats.leaseLost then Ending(beats.world, LeaseWasLost, false)
    else
      var renewed := AfterRenewal(beats.world, event, env.renewal, settings);
      if env.renewal.fault == TaskCancelled then Ending(renewed, Interrupted, false)
      else if !RenewalSucceeds(beats.world, event, env.renewal) then Ending(renewed, LeaseWasLost, false)
      else AfterMarking(renewed, event, env, settings)
  }

  /** `id` is what the query with limit one finds: eligible, not locked elsewhere, and nothing eligible before it. */
  ghost predicate IsNext(w: World, round: Round, id: EventId) {
    && id in EligibleIds(w.rows, round.lease.now) - round.lockedElsewhere
    && forall other :: other in EligibleIds(w.rows, round.lease.now) - round.lockedElsewhere ==> !LeaseBefore(w.rows, other, id)
  }

  /** The world in which a round's lease query runs, after the rounds before it. */
  ghost function BeforeLease(w: World, rounds: seq<Round>, leased: seq<Token>, workerId: string, settings: Settings): World
    requires |leased| < |rounds|
  {
    Run(AfterRounds(w, rounds, leased, workerId, settings), rounds[|leased|].lease.others)
  }

  ghost function AfterRounds(w: World, rounds: seq<Round>, leased: seq<Token>, workerId: string, settings: Settings): World
    requires |leased| <= |rounds|
    decreases |leased|
  {
    if leased == [] then w
    else
      var n := |leased| - 1;
      var before := Run(AfterRounds(w, rounds, leased[..n], workerId, settings), rounds[n].lease.others);
      var lease := Lease(leased[n].eventId, workerId, settings.leaseSeconds, rounds[n].lease.now);
      AfterDispatch(Apply(before, lease), leased[n], rounds[n].environment, settings).world
  }

  /** Every round leased the next event of its moment, and dispatched it under the token of that very lease. */
  ghost predicate RoundsOk(w: World, rounds: seq<Round>, leased: seq<Token>, workerId: string, settings: Settings)
    requires |leased| <= |rounds|
  {
    forall n :: 0 <= n < |leased| ==>
      var before := BeforeLease(w, rounds, leased[..n], workerId, settings);
      && IsNext(before, rounds[n], leased[n].eventId)
      && leased[n] == TokenOf(leased[n].eventId, LeasedRow(before.rows[leased[n].eventId], workerId, settings.leaseSeconds, rounds[n].lease.now), workerId)
  }

  /** A step with whose it is. */
  datatype Action = Mine(step: Step) | Theirs(step: Step)

  ghost function Steps(trace: seq<Action>): seq<Step> {
    seq(|trace|, i requires 0 <= i < |trace| => trace[i].step)
  }

  ghost function AsTheirs(steps: seq<Step>): seq<Action> {
    seq(|steps|, i requires 0 <= i < |steps| => Theirs(steps[i]))
  }

  /** Consumer transactions of our own that took effect along a trace. */
  ghost function OwnCommits(w: World, trace: seq<Action>): nat
    decreases |trace|
  {
    if trace == [] then
      0
    else
      (if trace[0].Mine? && trace[0].step.Consume? && Enabled(w, trace[0].step) then 1 else 0)
      + OwnCommits(Apply(w, trace[0].step), trace[1..])
  }

  /** `trace` leads from `v` to `w`; our own part of it has `commits` effective commits and touches only `event`. */
  ghost predicate Explains(v: World, trace: seq<Action>, w: World, commits: nat, event: Token) {
    && Run(v, Steps(trace)) == w
    && OwnCommits(v, trace) == commits
    && OwnStepsAreFor(trace, event)
  }

  ghost predicate OwnStepsAreFor(trace: seq<Action>, event: Token) {
    forall a :: a in trace && a.Mine? ==> (a.step.Renew? || a.step.Consume? || a.step.Fail?) && a.step.token == event
  }

  lemma {:induction false} OwnCommitsAppend(w: World, a: seq<Action>, b: seq<Action>)
    ensures OwnCommits(w, a + b) == OwnCommits(w, a) + OwnCommits(Run(w, Steps(a)), b)
    decreases |a|
  {
    if a == [] {
      assert a + b == b;
    } else {
      assert (a + b)[0] == a[0] && (a + b)[1..] == a[1..] + b;
      assert Steps(a)[0] == a[0].step && Steps(a)[1..] == Steps(a[1..]);
      OwnCommitsAppend(Apply(w, a[0].step), a[1..], b);
    }
  }

  lemma {:induction false} TheirsCommitNothingOfOurs(w: World, steps: seq<Step>)
    ensures OwnCommits(w, AsTheirs(steps)) == 0 && Steps(AsTheirs(steps)) == steps
    decreases |steps|
  {
    if steps == [] {
    } else {
      assert AsTheirs(steps)[1..] == AsTheirs(steps[1..]);
      TheirsCommitNothingOfOurs(Apply(w, steps[0]), steps[1..]);
    }
  }

  lemma Chain(u: World, a: seq<Action>, v: World, m: nat, b: seq<Action>, w: World, n: nat, event: Token)
    requires Explains(u, a, v, m, event) && Explains(v, b, w, n, event)
    ensures Explains(u, a + b, w, m + n, event)
  {
    assert Steps(a + b) == Steps(a) + Steps(b);
    RunAppend(u, Steps(a), Steps(b));
    OwnCommitsAppend(u, a, b);
  }

  lemma Own(v: World, s: Step, event: Token)
    requires (s.Renew? || s.Consume? || s.Fail?) && s.token == event
    ensures Explains(v, [Mine(s)], Apply(v, s), if s.Consume? && Enabled(v, s) then 1 else 0, event)
  {
    assert Steps([Mine(s)]) == [s];
    assert Run(v, [s]) == Run(Apply(v, s), []);
    assert OwnCommits(v, [Mine(s)]) == (if s.Consume? && Enabled(v, s) then 1 else 0) + OwnCommits(Apply(v, s), []);
  }

  lemma KeepsIssued(w: World, steps: seq<Step>, t: Token)
    requires t in w.issued
    ensures t in Run(w, steps).issued
  {
    IssuedOnlyGrows(w, steps);
  }

  ghost predicate BeatSucceeds(w: World, event: Token, beats: seq<Moment>, settings: Settings, i: nat)
    requires i < |beats|
  {
    RenewalSucceeds(AfterBeats(w, event, beats[..i], settings).world, event, beats[i])
  }

  /** The heartbeats get through exactly if each of them renewed a lease that was held. */
  lemma {:induction false} BeatsGetThroughIff(w: World, event: Token, beats: seq<Moment>, settings: Settings)
    ensures var b := AfterBeats(w, event, beats, settings);
      !b.leaseLost && !b.cancelled <==> forall i: nat :: i < |beats| ==> BeatSucceeds(w, event, beats, settings, i)
    decreases |beats|
  {
    if beats != [] {
      var n := |beats| - 1;
      var front := beats[..n];
      BeatsGetThroughIff(w, event, front, settings);
      forall i: nat | i < n ensures BeatSucceeds(w, event, beats, settings, i) <==> BeatSucceeds(w, event, front, settings, i) {
        assert front[..i] == beats[..i];
      }
      assert BeatSucceeds(w, event, beats, settings, n) <==> RenewalSucceeds(AfterBeats(w, event, front, settings).world, event, beats[n]);
    }
  }

  /** The consumer's work is on the way to its commit: heartbeats, consumer and last renewal got through, and the fenced update holds. */
  ghost predicate GetsToCommit(w: World, event: Token, env: Environment, settings: Settings) {
    var b := AfterBeats(w, event, env.heartbeats, settings);
    && !b.cancelled && !b.leaseLost && env.consumer == Returned && RenewalSucceeds(b.world, event, env.renewal)
    && env.marking.fault == NoFault
    && Holds(Run(AfterRenewal(b.world, event, env.renewal, settings), env.marking.others), event, env.marking.now)
  }

  /** How a dispatch ends, case by case. */
  lemma DispatchEndsIff(w: World, event: Token, env: Environment, settings: Settings)
    ensures var e := AfterDispatch(w, event, env, settings);
      && (e.outcome == Dispatched <==> GetsToCommit(w, event, env, settings) && env.reply == Acknowledged)
      && (e.committed <==> GetsToCommit(w, event, env, settings) && env.reply != LostBefore)
    ensures var e, b := AfterDispatch(w, event, env, settings), AfterBeats(w, event, env.heartbeats, settings);
      && (b.cancelled || (env.consumer == WasCancelled && !b.leaseLost) ==> e.outcome == Interrupted && e.world == b.world)
      && (!b.cancelled && b.leaseLost && !env.consumer.Raised? ==> e.outcome == LeaseWasLost && e.world == b.world)
    ensures var e, b := AfterDispatch(w, event, env, settings), AfterBeats(w, event, env.heartbeats, settings);
      !b.cancelled && env.consumer.Raised? ==>
        IsRecording(b.world, e, event, env.consumer.code, env.consumer.message, env.recording, settings)
    ensures var e, b := AfterDispatch(w, event, env, settings), AfterBeats(w, event, env.heartbeats, settings);
      !b.cancelled && !b.leaseLost && env.consumer == Returned && !RenewalSucceeds(b.world, event, env.renewal) ==>
        && e.world == AfterRenewal(b.world, event, env.renewal, settings)
        && e.outcome == (if env.renewal.fault == TaskCancelled then Interrupted else LeaseWasLost)
    ensures GetsToCommit(w, event, env, settings) && env.reply == LostBefore ==>
      var b := AfterBeats(w, event, env.heartbeats, settings);
      IsRecording(Run(AfterRenewal(b.world, event, env.renewal, settings), env.marking.others), AfterDispatch(w, event, env, settings),
                  event, "OUTBOX_CONSUMER_ERROR", "Outbox consumer failed", env.recording, settings)
  {
  }

  /** `e` is what is left when a failure with this code is recorded from `v`: it is, exactly if the session gets through and the lease holds. */
  ghost predicate IsRecording(v: World, e: Ending, event: Token, code: string, message: string, at: Moment, settings: Settings) {
    var u := Run(v, at.others);
    && (e.outcome == FailureRecorded <==> at.fault == NoFault && Holds(u, event, at.now))
    && (at.fault == TaskCancelled ==> e.outcome == Interrupted)
    && (at.fault == DatabaseError ==> e.outcome == RecordingFailed)
    && (at.fault == NoFault && !Holds(u, event, at.now) ==> e.outcome == LeaseWasLost)
    && e.world == (if at.fault == NoFault || at.landed then Apply(u, Fail(event, code, message, settings.retryBase, settings.retryMaximum, at.now)) else u)
  }

  /** After a renewal that did not succeed there are no more. */
  lemma {:induction false} BeatsStop(w: World, event: Token, beats: seq<Moment>, settings: Settings, i: nat)
    requires i <= |beats|
    requires var b := AfterBeats(w, event, beats[..i], settings); i == |beats| || b.leaseLost || b.cancelled
    ensures AfterBeats(w, event, beats, settings) == AfterBeats(w, event, beats[..i], settings)
    decreases |beats| - i
  {
    if i == |beats| {
      assert beats[..i] == beats;
    } else {
      assert beats[..i + 1][..i] == beats[..i];
      BeatsStop(w, event, beats, settings, i + 1);
    }
  }

  lemma FirstOfOne(ids: seq<EventId>, candidates: set<EventId>, precedes: (EventId, EventId) -> bool)
    requires Selection.IsFirst(ids, candidates, 1, precedes) && Selection.StrictOrder(precedes)
    ensures ids == [] <==> candidates == {}
    ensures ids != [] ==> ids == [ids[0]] && ids[0] in candidates && forall c :: c in candidates ==> !precedes(c, ids[0])
  {
  }

  lemma RunOne(w: World, ids: seq<EventId>, workerId: string, leaseSeconds: int, now: Time)
    requires |ids| == 1
    ensures Run(w, LeaseSteps(ids, workerId, leaseSeconds, now)) == Apply(w, Lease(ids[0], workerId, leaseSeconds, now))
  {
    var s := Lease(ids[0], workerId, leaseSeconds, now);
    assert LeaseSteps(ids, workerId, leaseSeconds, now) == [] + [s];
    RunSnoc(w, [], s);
  }

  class Dispatcher {
    const workerId: string
    const settings: Settings
    const store: OutboxStore

    constructor (workerId: string, settings: Settings, store: OutboxStore)
      ensures this.workerId == workerId && this.settings == settings && this.store == store
    {
      this.workerId, this.settings, this.store := workerId, settings, store;
    }

    method Interfere(steps: seq<Step>, event: Token) returns (ghost trace: seq<Action>)
      modifies store
      ensures Explains(old(store.State()), trace, store.State(), 0, event)
      ensures store.State() == Run(old(store.State()), steps)
    {
      TheirsCommitNothingOfOurs(store.State(), steps);
      trace := AsTheirs(steps);
      store.Others(steps);
    }

    /** Leases one event; the snapshot is taken from the leased row before the commit. */
    method LeaseOne(now: Time, lockedElsewhere: set<EventId>) returns (event: Option<Token>)
      modifies store
      ensures event == None ==> store.State() == old(store.State())
      ensures event.Some? ==> event.value in store.issued && event.value.workerId == workerId
      ensures event.Some? ==> store.State() == Apply(old(store.State()), Lease(event.value.eventId, workerId, settings.leaseSeconds, now))
      ensures event.Some? ==> event.value.eventId in EligibleIds(old(store.rows), now) - lockedElsewhere
      ensures event.Some? ==> forall id :: id in EligibleIds(old(store.rows), now) - lockedElsewhere ==>
        !LeaseBefore(old(store.rows), id, event.value.eventId)
      ensures event.Some? ==>
        event.value == TokenOf(event.value.eventId, LeasedRow(old(store.rows)[event.value.eventId], workerId, settings.leaseSeconds, now), workerId)
      ensures event == None <==> EligibleIds(old(store.rows), now) - lockedElsewhere == {}
    {
      QueriesAreOrdered(store.rows);
      ghost var candidates, order := EligibleIds(store.rows, now) - lockedElsewhere, LeaseOrder(store.rows);
      var ids := store.LeaseBatch(workerId, 1, settings.leaseSeconds, now, lockedElsewhere);
      FirstOfOne(ids, candidates, order);
      if |ids| == 0 {
        return None;
      }
      RunOne(old(store.State()), ids, workerId, settings.leaseSeconds, now);
      var model := store.rows[ids[0]];
      return Some(Token(ids[0], workerId, model.eventType, model.attemptCount, model.maxAttempts, model.leaseVersion));
    }

    /** One renewal; any database error counts as a lost lease, a cancellation propagates. */
    method RenewOnce(event: Token, at: Moment) returns (renewed: bool, cancelled: bool, ghost trace: seq<Action>)
      requires event in store.issued && event.workerId == workerId
      modifies store
      ensures Explains(old(store.State()), trace, store.State(), 0, event)
      ensures event in store.issued
      ensures cancelled <==> at.fault == TaskCancelled
      ensures renewed <==> RenewalSucceeds(old(store.State()), event, at)
      ensures store.State() == AfterRenewal(old(store.State()), event, at, settings)
    {
      KeepsIssued(store.State(), at.others, event);
      trace := Interfere(at.others, event);
      if !Commits(at) {
        return false, at.fault == TaskCancelled, trace;
      }
      ghost var v := store.State();
      var r := store.RenewLease(event.eventId, event.workerId, event.leaseVersion, settings.leaseSeconds, at.now);
      Own(v, Renew(event, settings.leaseSeconds, at.now), event);
      Chain(old(store.State()), trace, v, 0, [Mine(Renew(event, settings.leaseSeconds, at.now))], store.State(), 0, event);
      trace := trace + [Mine(Renew(event, settings.leaseSeconds, at.now))];
      return r == Updated && at.fault == NoFault, at.fault == TaskCancelled, trace;
    }

    /** Records a failure in a session of its own, after the consumer's session was rolled back. */
    method RecordFailure(event: Token, code: string, message: string, at: Moment) returns (outcome: Outcome, ghost trace: seq<Action>)
      requires event in store.issued && event.workerId == workerId
      modifies store
      ensures Explains(old(store.State()), trace, store.State(), 0, event)
      ensures Ending(store.State(), outcome, false) == Recorded(old(store.State()), event, code, message, at, settings, false)
      ensures outcome == FailureRecorded ==> event.eventId in store.rows && store.rows[event.eventId].errorCode == Some(code)
      ensures outcome == FailureRecorded ==> (store.rows[event.eventId].status == DeadLetter <==> event.attemptCount >= event.maxAttempts)
      ensures outcome == FailureRecorded && event.attemptCount >= 1 ==>
        store.rows[event.eventId].availableAt
          == at.now + 1_000_000 * Min(settings.retryBase * Backoff.Pow2(event.attemptCount - 1), settings.retryMaximum)
      ensures outcome != Dispatched
    {
      KeepsIssued(store.State(), at.others, event);
      trace := Interfere(at.others, event);
      if !Commits(at) {
        return if at.fault == TaskCancelled then Interrupted else RecordingFailed, trace;
      }
      ghost var v := store.State();
      var r := store.MarkFailed(event.eventId, event.workerId, event.leaseVersion, event.attemptCount, event.maxAttempts,
                                code, message, settings.retryBase, settings.retryMaximum, at.now);
      ghost var s := FailureStep(event, code, message, at, settings);
      Own(v, s, event);
      Chain(old(store.State()), trace, v, 0, [Mine(s)], store.State(), 0, event);
      trace := trace + [Mine(s)];
      match at.fault {
        case TaskCancelled => outcome := Interrupted;
        case DatabaseError => outcome := RecordingFailed;
        case NoFault => outcome := if r == Updated then FailureRecorded else LeaseWasLost;
      }
    }

    /** Heartbeats while the consumer runs, until one fails. */
    method HeartbeatLoop(event: Token, beats: seq<Moment>) returns (leaseLost: bool, cancelled: bool, ghost trace: seq<Action>)
      requires event in store.issued && event.workerId == workerId
      modifies store
      ensures Explains(old(store.State()), trace, store.State(), 0, event)
      ensures event in store.issued
      ensures Beats(store.State(), leaseLost, cancelled) == AfterBeats(old(store.State()), event, beats, settings)
    {
      leaseLost, cancelled, trace := false, false, [];
      var i := 0;
      while i < |beats| && !leaseLost && !cancelled
        invariant 0 <= i <= |beats|
        invariant Explains(old(store.State()), trace, store.State(), 0, event)
        invariant event in store.issued
        invariant Beats(store.State(), leaseLost, cancelled) == AfterBeats(old(store.State()), event, beats[..i], settings)
      {
        assert beats[..i + 1][..i] == beats[..i];
        ghost var v := store.State();
        ghost var more;
        var renewed;
        renewed, cancelled, more := RenewOnce(event, beats[i]);
        Chain(old(store.State()), trace, v, 0, more, store.State(), 0, event);
        trace := trace + more;
        leaseLost := !renewed && !cancelled;
        i := i + 1;
      }
      BeatsStop(old(store.State()), event, beats, settings, i);
    }

    /** The consumer's session: the enqueued job and the fenced update commit together or not at all. */
    method CommitConsumed(event: Token, at: Moment, reply: CommitReply)
      returns (marked: LeaseUpdateResult, committed: bool, ghost trace: seq<Action>)
      requires event in store.issued && event.workerId == workerId
      modifies store
      ensures Explains(old(store.State()), trace, store.State(), if committed then 1 else 0, event)
      ensures event in store.issued
      ensures committed ==> IsProcessed(store.State(), event.eventId)
      ensures committed <==> reply != LostBefore && Holds(Run(old(store.State()), at.others), event, at.now)
      ensures marked == Updated <==> Holds(Run(old(store.State()), at.others), event, at.now)
      ensures var v := Run(old(store.State()), at.others); store.State() == if committed then Apply(v, Consume(event, at.now)) else v
    {
      KeepsIssued(store.State(), at.others, event);
      trace := Interfere(at.others, event);
      ghost var v := store.State();
      var before := store.rows;
      marked := store.MarkProcessed(event.eventId, event.workerId, event.leaseVersion, at.now);
      committed := marked == Updated && reply != LostBefore;
      if committed {
        store.jobs := Consumed(store.jobs, event.eventId, event.eventType);
        store.effects := store.effects + multiset{event.eventId};
        Own(v, Consume(event, at.now), event);
        Chain(old(store.State()), trace, v, 0, [Mine(Consume(event, at.now))], store.State(), 1, event);
        trace := trace + [Mine(Consume(event, at.now))];
      } else {
        store.rows := before;
      }
    }

    /**
     One dispatch. It commits at most once, only while it holds the lease, and every path that does not reach the
     acknowledged commit leaves no effect of its own, except a commit whose reply was lost or came too late.
     */
    method DispatchEvent(event: Token, env: Environment) returns (outcome: Outcome, committed: bool, ghost trace: seq<Action>)
      requires event in store.issued && event.workerId == workerId
      modifies store
      ensures Explains(old(store.State()), trace, store.State(), if committed then 1 else 0, event)
      ensures outcome == Dispatched ==> committed
      ensures committed ==> outcome == Dispatched || env.reply == LostAfter || env.reply == CancelledAfter
      ensures committed ==> IsProcessed(store.State(), event.eventId)
      ensures env.consumer != Returned ==> !committed
      ensures Ending(store.State(), outcome, committed) == AfterDispatch(old(store.State()), event, env, settings)
    {
      committed := false;
      var leaseLost, cancelled;
      leaseLost, cancelled, trace := HeartbeatLoop(event, env.heartbeats);
      if cancelled || (env.consumer == WasCancelled && !leaseLost) {
        return Interrupted, false, trace;
      }
      if env.consumer.Raised? {
        ghost var v := store.State();
        ghost var more;
        outcome, more := RecordFailure(event, env.consumer.code, env.consumer.message, env.recording);
        Chain(old(store.State()), trace, v, 0, more, store.State(), 0, event);
        return outcome, false, trace + more;
      }
      if leaseLost {
        return LeaseWasLost, false, trace;
      }
      ghost var v := store.State();
      ghost var more;
      var renewed;
      renewed, cancelled, more := RenewOnce(event, env.renewal);
      Chain(old(store.State()), trace, v, 0, more, store.State(), 0, event);
      trace := trace + more;
      if cancelled {
        return Interrupted, false, trace;
      }
      if !renewed {
        return LeaseWasLost, false, trace;
      }
      ghost var afterRenewal := store.State();
      outcome, committed, more := MarkAndCommit(event, env);
      Chain(old(store.State()), trace, afterRenewal, 0, more, store.State(), if committed then 1 else 0, event);
      trace := trace + more;
    }

    method MarkAndCommit(event: Token, env: Environment) returns (outcome: Outcome, committed: bool, ghost trace: seq<Action>)
      requires event in store.issued && event.workerId == workerId
      modifies store
      ensures Explains(old(store.State()), trace, store.State(), if committed then 1 else 0, event)
      ensures outcome == Dispatched ==> committed
      ensures committed ==> outcome == Dispatched || env.reply == LostAfter || env.reply == CancelledAfter
      ensures committed ==> IsProcessed(store.State(), event.eventId)
      ensures Ending(store.State(), outcome, committed) == AfterMarking(old(store.State()), event, env, settings)
    {
      ghost var more;
      if env.marking.fault != NoFault {
        KeepsIssued(store.State(), env.marking.others, event);
        trace := Interfere(env.marking.others, event);
        if env.marking.fault == TaskCancelled {
          return Interrupted, false, trace;
        }
        ghost var v := store.State();
        outcome, more := RecordFailure(event, CONSUMER_ERROR, CONSUMER_FAILED, env.recording);
        Chain(old(store.State()), trace, v, 0, more, store.State(), 0, event);
        return outcome, false, trace + more;
      }
      var marked;
      marked, committed, trace := CommitConsumed(event, env.marking, env.reply);
      if marked != Updated {
        return LeaseWasLost, false, trace;
      }
      if env.reply == Acknowledged {
        return Dispatched, true, trace;
      }
      if env.reply == CancelledAfter {
        return Interrupted, true, trace;
      }
      ghost var v := store.State();
      outcome, more := RecordFailure(event, CONSUMER_ERROR, CONSUMER_FAILED, env.recording);
      if committed {
        TerminalRowsAreFrozen(v, Steps(more), event.eventId);
      }
      Chain(old(store.State()), trace, v, if committed then 1 else 0, more, store.State(), 0, event);
      trace := trace + more;
    }

    method ReconcileStale(limit: int, at: Moment, checkedAt: Time, clock: EventId -> Time, lockedElsewhere: set<EventId>) returns (count: nat, ghost ids: seq<EventId>)
      modifies store
      ensures var v := Run(old(store.State()), at.others);
        && Selection.IsFirst(ids, StaleIds(v.rows, checkedAt) - lockedElsewhere, Min(Max(limit, 1), 100), StaleOrder(v.rows))
        && store.State() == Run(v, ReconcileSteps(ids, checkedAt, clock))
      ensures count == |ids|
    {
      store.Others(at.others);
      var reconciled := store.ReconcileStale(Min(Max(limit, 1), 100), checkedAt, clock, lockedElsewhere);
      return |reconciled|, reconciled;
    }

    /** One turn of the loop, once an event is leased. */
    method DispatchLeased(round: Round, event: Token, ghost w: World, ghost rounds: seq<Round>, ghost leased: seq<Token>)
      returns (ghost steps: seq<Step>)
      requires |leased| < |rounds| && rounds[|leased|] == round && event in store.issued && event.workerId == workerId
      requires store.State() == Apply(BeforeLease(w, rounds, leased, workerId, settings), Lease(event.eventId, workerId, settings.leaseSeconds, round.lease.now))
      modifies store
      ensures store.State() == AfterRounds(w, rounds, leased + [event], workerId, settings)
      ensures store.State() == Run(old(store.State()), steps)
    {
      assert (leased + [event])[..|leased|] == leased;
      ghost var trace;
      var outcome, committed;
      outcome, committed, trace := DispatchEvent(event, round.environment);
      steps := Steps(trace);
    }

    /** One pass: reconcile, then lease and dispatch one event at a time until none is left or the limit is met. */
    method DispatchOnce(limit: int, reconciliation: Moment, checkedAt: Time, clock: EventId -> Time, lockedElsewhere: set<EventId>, rounds: seq<Round>)
      returns (dispatched: nat, ghost reconciled: World, ghost leased: seq<Token>, ghost steps: seq<Step>)
      requires |rounds| == Min(Max(limit, 1), 100)
      modifies store
      ensures exists ids :: AfterReconciling(old(store.State()), limit, reconciliation, checkedAt, clock, lockedElsewhere, ids, reconciled)
      ensures store.State() == Run(old(store.State()), steps)
      ensures dispatched == |leased| <= |rounds| && RoundsOk(reconciled, rounds, leased, workerId, settings)
      ensures dispatched == |rounds| ==> store.State() == AfterRounds(reconciled, rounds, leased, workerId, settings)
      ensures dispatched < |rounds| ==> store.State() == BeforeLease(reconciled, rounds, leased, workerId, settings)
      ensures dispatched < |rounds| ==> EligibleIds(store.rows, rounds[dispatched].lease.now) - rounds[dispatched].lockedElsewhere == {}
    {
      var count;
      ghost var ids;
      count, ids := ReconcileStale(limit, reconciliation, checkedAt, clock, lockedElsewhere);
      reconciled, leased := store.State(), [];
      steps := reconciliation.others + ReconcileSteps(ids, checkedAt, clock);
      RunAppend(old(store.State()), reconciliation.others, ReconcileSteps(ids, checkedAt, clock));
      assert AfterReconciling(old(store.State()), limit, reconciliation, checkedAt, clock, lockedElsewhere, ids, reconciled);
      dispatched := 0;
      while dispatched < |rounds|
        invariant dispatched == |leased| <= |rounds|
        invariant RoundsOk(reconciled, rounds, leased, workerId, settings)
        invariant store.State() == AfterRounds(reconciled, rounds, leased, workerId, settings)
        invariant store.State() == Run(old(store.State()), steps)
      {
        var round := rounds[dispatched];
        RunAppend(old(store.State()), steps, round.lease.others);
        store.Others(round.lease.others);
        steps := steps + round.lease.others;
        var event := LeaseOne(round.lease.now, round.lockedElsewhere);
        if event == None {
          return;
        }
        OneMoreRound(reconciled, rounds, leased, event.value, workerId, settings);
        ghost var lease := Lease(event.value.eventId, workerId, settings.leaseSeconds, round.lease.now);
        RunSnoc(old(store.State()), steps, lease);
        ghost var more := DispatchLeased(round, event.value, reconciled, rounds, leased);
        RunAppend(old(store.State()), steps + [lease], more);
        steps := steps + [lease] + more;
        leased := leased + [event.value];
        dispatched := dispatched + 1;
      }
    }
  }

  ghost predicate AfterReconciling(w: World, limit: int, at: Moment, checkedAt: Time, clock: EventId -> Time, lockedElsewhere: set<EventId>, ids: seq<EventId>, after: World) {
    var v := Run(w, at.others);
    && Selection.IsFirst(ids, StaleIds(v.rows, checkedAt) - lockedElsewhere, Min(Max(limit, 1), 100), StaleOrder(v.rows))
    && after == Run(v, ReconcileSteps(ids, checkedAt, clock))
  }

  lemma OneMoreRound(w: World, rounds: seq<Round>, leased: seq<Token>, event: Token, workerId: string, settings: Settings)
    requires |leased| < |rounds| && RoundsOk(w, rounds, leased, workerId, settings)
    requires var before := BeforeLease(w, rounds, leased, workerId, settings);
      && IsNext(before, rounds[|leased|], event.eventId)
      && event == TokenOf(event.eventId, LeasedRow(before.rows[event.eventId], workerId, settings.leaseSeconds, rounds[|leased|].lease.now), workerId)
    ensures RoundsOk(w, rounds, leased + [event], workerId, settings)
  {
    var more := leased + [event];
    forall n | 0 <= n < |more| ensures more[..n] == leased[..n] {
    }
    assert leased[..|leased|] == leased;
  }
}
