/** What holds of the outbox after any interleaving of dispatchers, crashes, lease expiries and reconciliations. */
module OutboxSafety {
  import opened Wrappers
  import opened OutboxState
  import Backoff
  import Counting

  /** The status of a row fixes its counters and its lock columns. */
  ghost predicate RowOk(r: Row) {
    && r.attemptCount == r.leaseVersion
    && 1 <= r.maxAttempts
    && (r.status == Pending ==> r.attemptCount == 0)
    && (r.status == Processing ==> 1 <= r.attemptCount <= r.maxAttempts && r.lockedBy.Some? && r.lockedAt.Some? && r.leaseExpiresAt.Some?)
    && (r.status != Processing ==> r.lockedBy == None && r.leaseExpiresAt == None)
    && (r.status == Processed ==> 1 <= r.attemptCount <= r.maxAttempts)
    && (r.status == Failed ==> 1 <= r.attemptCount < r.maxAttempts)
    && (r.status == DeadLetter ==> r.attemptCount == r.maxAttempts)
  }

  ghost predicate RowsOk(w: World) {
    forall id :: id in w.rows ==> RowOk(w.rows[id])
  }

  ghost predicate KeysOk(w: World) {
    forall a, b :: a in w.rows && b in w.rows && w.rows[a].key == w.rows[b].key ==> a == b
  }

  /** A token is the snapshot of one lease of its event. */
  ghost predicate TokenOk(w: World, t: Token) {
    && t.eventId in w.rows
    && 1 <= t.leaseVersion <= w.rows[t.eventId].leaseVersion
    && t.attemptCount == t.leaseVersion
    && t.maxAttempts == w.rows[t.eventId].maxAttempts
    && t.eventType == w.rows[t.eventId].eventType
  }

  ghost predicate TokensOk(w: World) {
    && (forall t :: t in w.issued ==> TokenOk(w, t))
    && (forall t, u :: t in w.issued && u in w.issued && t.eventId == u.eventId && t.leaseVersion == u.leaseVersion ==> t == u)
  }

  predicate IsProcessed(w: World, e: EventId) {
    e in w.rows && w.rows[e].status == Processed
  }

  ghost predicate EffectsOk(w: World) {
    && (forall e :: w.effects[e] == if IsProcessed(w, e) then 1 else 0)
    && (forall e, j :: FromEvent(e, j) in w.jobs <==> IsProcessed(w, e) && JobFor(w.rows[e].eventType) == Some(j))
    && (forall e, j :: FromEvent(e, j) in w.jobs ==> w.jobs[FromEvent(e, j)] == j)
  }

  ghost predicate Inv(w: World) {
    RowsOk(w) && KeysOk(w) && TokensOk(w) && EffectsOk(w)
  }

  /** Columns no transaction changes, and the fencing version, which only grows. */
  ghost predicate Evolves(r: Row, s: Row) {
    r.eventType == s.eventType && r.key == s.key && r.maxAttempts == s.maxAttempts && r.leaseVersion <= s.leaseVersion
  }

  /** A step seen from one row. */
  lemma StepOnRow(w: World, s: Step, id: EventId)
    requires id in Apply(w, s).rows
    requires id in w.rows ==> RowOk(w.rows[id])
    requires s.Fail? && s.token in w.issued ==> TokenOk(w, s.token)
    ensures RowOk(Apply(w, s).rows[id])
    ensures id in w.rows ==> Evolves(w.rows[id], Apply(w, s).rows[id])
    ensures id !in w.rows ==> s.AddEvent? && id == s.id && Enabled(w, s)
  {
  }

  lemma StepKeepsRows(w: World, s: Step)
    requires Inv(w)
    ensures RowsOk(Apply(w, s)) && KeysOk(Apply(w, s))
  {
    var v := Apply(w, s);
    forall id | id in v.rows ensures RowOk(v.rows[id]) {
      StepOnRow(w, s, id);
    }
    forall a, b | a in v.rows && b in v.rows && v.rows[a].key == v.rows[b].key ensures a == b {
      StepOnRow(w, s, a);
      StepOnRow(w, s, b);
    }
  }

  /** The only token a step can issue is the snapshot of the lease it takes, under a version no token has. */
  lemma StepOnToken(w: World, s: Step, t: Token)
    requires Inv(w) && t in Apply(w, s).issued
    ensures t in w.issued
      || (s.Lease? && Enabled(w, s) && t == TokenOf(s.id, Apply(w, s).rows[s.id], s.workerId)
          && t.leaseVersion == w.rows[s.id].leaseVersion + 1)
  {
  }

  lemma StepKeepsTokens(w: World, s: Step)
    requires Inv(w)
    ensures TokensOk(Apply(w, s))
  {
    var v := Apply(w, s);
    forall t | t in v.issued ensures TokenOk(v, t) {
      StepOnToken(w, s, t);
      if t in w.issued {
        assert TokenOk(w, t);
        StepOnRow(w, s, t.eventId);
      } else {
        assert RowOk(w.rows[s.id]);
      }
    }
    forall t, u | t in v.issued && u in v.issued && t.eventId == u.eventId && t.leaseVersion == u.leaseVersion ensures t == u {
      StepOnToken(w, s, t);
      StepOnToken(w, s, u);
      assert t in w.issued ==> TokenOk(w, t);
      assert u in w.issued ==> TokenOk(w, u);
    }
  }

  lemma ConsumeKeepsEffects(w: World, t: Token, now: Time)
    requires Inv(w) && Holds(w, t, now)
    ensures EffectsOk(Apply(w, Consume(t, now)))
  {
    var v := Apply(w, Consume(t, now));
    assert TokenOk(w, t);
    assert forall e :: IsProcessed(v, e) <==> e == t.eventId || IsProcessed(w, e);
    assert !IsProcessed(w, t.eventId);
    assert forall e, j :: FromEvent(e, j) in v.jobs <==> FromEvent(e, j) in w.jobs || (e == t.eventId && JobFor(t.eventType) == Some(j));
    assert forall e :: e in v.rows ==> v.rows[e].eventType == w.rows[e].eventType;
  }

  /** No other step processes an event or enqueues a consumer's job. */
  lemma OnlyConsumeHasEffects(w: World, s: Step)
    requires RowsOk(w) && !(s.Consume? && Enabled(w, s))
    ensures Apply(w, s).effects == w.effects
    ensures forall e, j :: FromEvent(e, j) in Apply(w, s).jobs <==> FromEvent(e, j) in w.jobs
    ensures forall e, j :: FromEvent(e, j) in w.jobs ==> Apply(w, s).jobs[FromEvent(e, j)] == w.jobs[FromEvent(e, j)]
    ensures forall e :: IsProcessed(Apply(w, s), e) <==> IsProcessed(w, e)
    ensures forall e :: e in w.rows ==> e in Apply(w, s).rows && Apply(w, s).rows[e].eventType == w.rows[e].eventType
  {
  }

  lemma StepKeepsEffects(w: World, s: Step)
    requires Inv(w)
    ensures EffectsOk(Apply(w, s))
  {
    if s.Consume? && Enabled(w, s) {
      ConsumeKeepsEffects(w, s.token, s.now);
    } else {
      OnlyConsumeHasEffects(w, s);
    }
  }

  lemma {:induction false} RunKeepsInv(w: World, steps: seq<Step>)
    requires Inv(w)
    ensures Inv(Run(w, steps))
    decreases |steps|
  {
    if steps == [] {
    } else {
      StepKeepsRows(w, steps[0]);
      StepKeepsTokens(w, steps[0]);
      StepKeepsEffects(w, steps[0]);
      RunKeepsInv(Apply(w, steps[0]), steps[1..]);
    }
  }

  /** Exactly-once effect: a processed event has one committed consumer transaction and its one job, any other event has neither. */
  lemma ExactlyOnceEffect(steps: seq<Step>, e: EventId, j: JobType)
    ensures var w := Run(EMPTY, steps);
      && w.effects[e] == (if IsProcessed(w, e) then 1 else 0)
      && (FromEvent(e, j) in w.jobs <==> IsProcessed(w, e) && JobFor(w.rows[e].eventType) == Some(j))
  {
    RunKeepsInv(EMPTY, steps);
  }

  /** One event per idempotency key, whoever adds it. */
  lemma OneEventPerKey(steps: seq<Step>, a: EventId, b: EventId)
    requires a in Run(EMPTY, steps).rows && b in Run(EMPTY, steps).rows
    requires Run(EMPTY, steps).rows[a].key == Run(EMPTY, steps).rows[b].key
    ensures a == b
  {
    RunKeepsInv(EMPTY, steps);
  }

  /** Status and counters: retries remain exactly while FAILED, and a dead letter used every attempt. */
  lemma StatusTellsBudget(steps: seq<Step>, e: EventId)
    requires e in Run(EMPTY, steps).rows
    ensures var r := Run(EMPTY, steps).rows[e];
      && r.attemptCount == r.leaseVersion <= r.maxAttempts
      && (r.status == Failed ==> 1 <= r.attemptCount < r.maxAttempts)
      && (r.status == DeadLetter ==> r.attemptCount == r.maxAttempts)
      && (r.status == Processing <==> r.lockedBy.Some?)
  {
    RunKeepsInv(EMPTY, steps);
  }

  predicate Terminal(s: Status) {
    s == Processed || s == DeadLetter
  }

  /** PROCESSED and DEAD_LETTER rows are never changed again, in any column. */
  lemma {:induction false} TerminalRowsAreFrozen(w: World, steps: seq<Step>, e: EventId)
    requires e in w.rows && Terminal(w.rows[e].status)
    ensures e in Run(w, steps).rows && Run(w, steps).rows[e] == w.rows[e]
    decreases |steps|
  {
    if steps == [] {
    } else {
      TerminalRowsAreFrozen(Apply(w, steps[0]), steps[1..], e);
    }
  }

  lemma {:induction false} IssuedOnlyGrows(w: World, steps: seq<Step>)
    ensures w.issued <= Run(w, steps).issued
    decreases |steps|
  {
    if steps == [] {
    } else {
      IssuedOnlyGrows(Apply(w, steps[0]), steps[1..]);
    }
  }

  lemma {:induction false} VersionOnlyGrows(w: World, steps: seq<Step>, e: EventId)
    requires e in w.rows
    ensures e in Run(w, steps).rows && w.rows[e].leaseVersion <= Run(w, steps).rows[e].leaseVersion
    decreases |steps|
  {
    if steps == [] {
    } else {
      VersionOnlyGrows(Apply(w, steps[0]), steps[1..], e);
    }
  }

  /** Fencing: of all dispatches of one event, two by one worker included, at most one can ever pass the lease condition, whatever their clocks. */
  lemma OnlyOneTokenIsLive(steps: seq<Step>, t: Token, u: Token, tNow: Time, uNow: Time)
    requires t.eventId == u.eventId
    requires Holds(Run(EMPTY, steps), t, tNow) && Holds(Run(EMPTY, steps), u, uNow)
    ensures t == u
  {
    RunKeepsInv(EMPTY, steps);
  }

  /** A token superseded by a later lease never passes the lease condition again. */
  lemma SupersededTokenStaysDead(w: World, steps: seq<Step>, t: Token, now: Time)
    requires t.eventId in w.rows && t.leaseVersion < w.rows[t.eventId].leaseVersion
    ensures !Holds(Run(w, steps), t, now)
  {
    VersionOnlyGrows(w, steps, t.eventId);
  }

  /** A fenced-out or crashed dispatch changes nothing with any of its own transactions. */
  lemma DeadTokenChangesNothing(w: World, s: Step)
    requires s.Renew? || s.Consume? || s.Fail?
    requires !Holds(w, s.token, s.now)
    ensures Apply(w, s) == w
  {
  }

  /** A run without the transactions of one dispatch. */
  ghost function Without(steps: seq<Step>, t: Token): seq<Step>
    decreases |steps|
  {
    if steps == [] then []
    else if IsOf(steps[0], t) then Without(steps[1..], t)
    else [steps[0]] + Without(steps[1..], t)
  }

  predicate IsOf(s: Step, t: Token) {
    (s.Renew? || s.Consume? || s.Fail?) && s.token == t
  }

  /** Whatever a superseded dispatch still does and whenever, every run ends as if it had stopped: rows, jobs and effects. */
  lemma {:induction false} SupersededDispatchIsInvisible(w: World, steps: seq<Step>, t: Token)
    requires t.eventId in w.rows && t.leaseVersion < w.rows[t.eventId].leaseVersion
    ensures Run(w, steps) == Run(w, Without(steps, t))
    decreases |steps|
  {
    if steps == [] {
    } else {
      var s, v := steps[0], Apply(w, steps[0]);
      VersionOnlyGrows(w, [s], t.eventId);
      assert Run(w, [s]) == Run(v, []);
      SupersededDispatchIsInvisible(v, steps[1..], t);
      if IsOf(s, t) {
        DeadTokenChangesNothing(w, s);
      } else {
        assert ([s] + Without(steps[1..], t))[1..] == Without(steps[1..], t);
      }
    }
  }

  /** When `mark_failed` succeeds, deciding from the leased snapshot or from the row is the same. */
  lemma SnapshotAgreesWithRow(steps: seq<Step>, t: Token, code: string, message: string, base: int, maximum: int, now: Time)
    requires Holds(Run(EMPTY, steps), t, now)
    ensures var r := Run(EMPTY, steps).rows[t.eventId];
      && t == TokenOf(t.eventId, r, t.workerId)
      && FailedRow(r, t.attemptCount, t.maxAttempts, code, message, base, maximum, now)
           == FailedRow(r, r.attemptCount, r.maxAttempts, code, message, base, maximum, now)
      && (1 <= base && 1 <= maximum ==> 1 <= Backoff.Delay(t.attemptCount, base, maximum) <= maximum)
  {
    var w := Run(EMPTY, steps);
    RunKeepsInv(EMPTY, steps);
    assert TokenOk(w, t);
    if 1 <= base && 1 <= maximum {
      Backoff.DelayIsBoundedAndMonotone(t.attemptCount, t.attemptCount, base, maximum);
    }
  }

  ghost function TokensOf(w: World, e: EventId): set<Token> {
    set t | t in w.issued && t.eventId == e
  }

  lemma {:induction false} OneVersionEach(tokens: set<Token>)
    requires forall t, u :: t in tokens && u in tokens && t.leaseVersion == u.leaseVersion ==> t == u
    ensures |set t | t in tokens :: t.leaseVersion| == |tokens|
    decreases tokens
  {
    if tokens == {} {
      assert (set t | t in tokens :: t.leaseVersion) == {};
    } else {
      var x :| x in tokens;
      OneVersionEach(tokens - {x});
      var fewer := set t | t in tokens - {x} :: t.leaseVersion;
      assert x.leaseVersion !in fewer;
      assert (set t | t in tokens :: t.leaseVersion) == fewer + {x.leaseVersion};
    }
  }

  /** An event is leased at most as often as its budget allows, so at most so many dispatches of it ever start. */
  lemma NoMoreLeasesThanAttempts(steps: seq<Step>, e: EventId)
    requires e in Run(EMPTY, steps).rows
    ensures |TokensOf(Run(EMPTY, steps), e)| <= Run(EMPTY, steps).rows[e].maxAttempts
  {
    var w := Run(EMPTY, steps);
    RunKeepsInv(EMPTY, steps);
    var tokens, n := TokensOf(w, e), w.rows[e].maxAttempts;
    assert forall t :: t in tokens ==> TokenOk(w, t) && 1 <= t.leaseVersion <= n;
    OneVersionEach(tokens);
    Counting.AtMost(set t | t in tokens :: t.leaseVersion, n);
  }
}
