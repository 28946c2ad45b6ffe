/**
 When an event can be leased, how long a lease lasts and what each transaction leaves in the row, in seconds and column
 by column: what a dispatcher or an operator can observe, apart from how the transactions compute it.
 */
module OutboxTimeline {
  import opened Wrappers
  import opened OutboxState
  import opened OutboxSafety
  import opened Backoff

  const SECOND := 1_000_000

  /** The event can be leased at `x`, by any worker and for any time. */
  ghost predicate LeasableAt(w: World, e: EventId, x: Time) {
    forall worker, seconds :: Enabled(w, Lease(e, worker, seconds, x))
  }

  /** Some worker could lease it at `x`. */
  ghost predicate SomeoneCanLease(w: World, e: EventId, x: Time) {
    exists worker, seconds :: Enabled(w, Lease(e, worker, seconds, x))
  }

  lemma LeasableForAllOrNone(w: World, e: EventId, x: Time)
    ensures LeasableAt(w, e, x) <==> SomeoneCanLease(w, e, x)
    ensures LeasableAt(w, e, x) <==> Enabled(w, Lease(e, "", 0, x))
  {
    if SomeoneCanLease(w, e, x) {
      var worker, seconds :| Enabled(w, Lease(e, worker, seconds, x));
    }
    assert LeasableAt(w, e, x) ==> Enabled(w, Lease(e, "", 0, x));
  }

  predicate Released(r: Row) {
    r.lockedBy == None && r.lockedAt == None && r.leaseExpiresAt == None && r.lastHeartbeatAt == None
  }

  predicate KeepsIdentity(r: Row, s: Row) {
    r.eventType == s.eventType && r.key == s.key && r.maxAttempts == s.maxAttempts && r.createdAt == s.createdAt
  }

  /** A new event is due from its creation on, with its whole budget. */
  lemma NewEventIsDueAtOnce(w: World, e: EventId, eventType: EventType, key: string, maxAttempts: int, now: Time, x: Time)
    requires Enabled(w, AddEvent(e, eventType, key, maxAttempts, now))
    ensures var v := Apply(w, AddEvent(e, eventType, key, maxAttempts, now));
      && e in v.rows && v.rows[e].eventType == eventType && v.rows[e].key == key && v.rows[e].maxAttempts == maxAttempts
      && v.rows[e].attemptCount == 0 && v.rows[e].createdAt == now && Released(v.rows[e])
      && (LeasableAt(v, e, x) <==> x >= now)
  {
    LeasableForAllOrNone(Apply(w, AddEvent(e, eventType, key, maxAttempts, now)), e, x);
  }

  /**
   A lease counts one attempt and hands out one token; the token holds for exactly the lease time, and from then on, and
   no sooner, the reconciliation can take the row.
   */
  lemma LeaseLastsItsTime(w: World, e: EventId, worker: string, seconds: int, now: Time, x: Time, later: Time)
    requires Enabled(w, Lease(e, worker, seconds, now))
    ensures var v, t := Apply(w, Lease(e, worker, seconds, now)),
        Token(e, worker, w.rows[e].eventType, w.rows[e].attemptCount + 1, w.rows[e].maxAttempts, w.rows[e].leaseVersion + 1);
      && t in v.issued && e in v.rows && KeepsIdentity(w.rows[e], v.rows[e])
      && v.rows[e].lockedAt == Some(now) && v.rows[e].lastHeartbeatAt == Some(now)
      && (Holds(v, t, x) <==> x < now + seconds * SECOND)
      && (Enabled(v, Reconcile(e, x, later)) <==> x >= now + seconds * SECOND)
      && !LeasableAt(v, e, x)
  {
    LeasableForAllOrNone(Apply(w, Lease(e, worker, seconds, now)), e, x);
  }

  /** A renewal starts the lease time again, and changes nothing else. */
  lemma RenewalRestartsTheLease(w: World, t: Token, seconds: int, now: Time, x: Time, later: Time)
    requires Holds(w, t, now)
    ensures var v := Apply(w, Renew(t, seconds, now));
      && (Holds(v, t, x) <==> x < now + seconds * SECOND)
      && (Enabled(v, Reconcile(t.eventId, x, later)) <==> x >= now + seconds * SECOND)
      && v.rows[t.eventId].lastHeartbeatAt == Some(now)
      && v.rows[t.eventId].(lastHeartbeatAt := None, leaseExpiresAt := None) == w.rows[t.eventId].(lastHeartbeatAt := None, leaseExpiresAt := None)
  {
  }

  /** Whoever holds an event has its token. */
  ghost predicate HoldersHaveTokens(w: World) {
    forall e :: e in w.rows && w.rows[e].status == Processing ==>
      w.rows[e].lockedBy.Some? && TokenOf(e, w.rows[e], w.rows[e].lockedBy.value) in w.issued
  }

  lemma {:induction false} RunKeepsHolders(w: World, steps: seq<Step>)
    requires HoldersHaveTokens(w)
    ensures HoldersHaveTokens(Run(w, steps))
    decreases |steps|
  {
    if steps == [] {
    } else {
      StepKeepsHolders(w, steps[0]);
      RunKeepsHolders(Apply(w, steps[0]), steps[1..]);
    }
  }

  lemma StepKeepsHolders(w: World, s: Step)
    requires HoldersHaveTokens(w)
    ensures HoldersHaveTokens(Apply(w, s))
  {
    var v := Apply(w, s);
    forall e | e in v.rows && v.rows[e].status == Processing
      ensures v.rows[e].lockedBy.Some? && TokenOf(e, v.rows[e], v.rows[e].lockedBy.value) in v.issued
    {
      if s.Lease? && Enabled(w, s) && s.id == e {
      } else {
        assert e in w.rows && w.rows[e].status == Processing;
      }
    }
  }

  ghost predicate IsHeld(w: World, e: EventId, x: Time) {
    exists t: Token :: t in w.issued && t.eventId == e && Holds(w, t, x)
  }

  /** At any time an event under way is either held by a dispatch or free for the reconciliation, and never both. */
  lemma HeldOrReconcilable(steps: seq<Step>, e: EventId, x: Time, later: Time)
    requires e in Run(EMPTY, steps).rows && Run(EMPTY, steps).rows[e].status == Processing
    ensures IsHeld(Run(EMPTY, steps), e, x) <==> !Enabled(Run(EMPTY, steps), Reconcile(e, x, later))
  {
    var w := Run(EMPTY, steps);
    RunKeepsInv(EMPTY, steps);
    RunKeepsHolders(EMPTY, steps);
    assert RowOk(w.rows[e]);
    var t := TokenOf(e, w.rows[e], w.rows[e].lockedBy.value);
    if w.rows[e].leaseExpiresAt.value > x {
      assert t in w.issued && Holds(w, t, x);
    }
  }

  /** The wait after attempt `n`, in microseconds: the base doubled for each attempt before it, up to the maximum. */
  function Wait(n: nat, base: int, maximum: int): int {
    if n == 0 then SECOND * base else SECOND * Min(base * Pow2(n - 1), maximum)
  }

  lemma HeldRow(w: World, t: Token, now: Time)
    requires Inv(w) && Holds(w, t, now)
    ensures RowOk(w.rows[t.eventId]) && t.attemptCount == w.rows[t.eventId].attemptCount && t.maxAttempts == w.rows[t.eventId].maxAttempts
  {
    assert TokenOk(w, t);
  }

  /**
   After a recorded failure of attempt `n` the event waits: nobody can lease it sooner, and from that moment on anybody
   can, if and only if attempts remain. The row names the error and is released.
   */
  lemma FailureDelaysRetry(steps: seq<Step>, t: Token, code: string, message: string, base: int, maximum: int, now: Time, x: Time)
    requires Holds(Run(EMPTY, steps), t, now)
    ensures t.attemptCount >= 1
    ensures var w := Run(EMPTY, steps); var v := Apply(w, Fail(t, code, message, base, maximum, now));
      && t.eventId in v.rows && KeepsIdentity(w.rows[t.eventId], v.rows[t.eventId])
      && v.rows[t.eventId].availableAt == now + Wait(t.attemptCount, base, maximum)
      && (LeasableAt(v, t.eventId, x) <==> t.attemptCount < t.maxAttempts && x >= now + Wait(t.attemptCount, base, maximum))
      && (v.rows[t.eventId].status == DeadLetter <==> t.attemptCount == t.maxAttempts)
      && v.rows[t.eventId].errorCode == Some(code) && v.rows[t.eventId].errorMessage == Some(message)
      && Released(v.rows[t.eventId]) && v.rows[t.eventId].attemptCount == t.attemptCount
  {
    var w := Run(EMPTY, steps);
    RunKeepsInv(EMPTY, steps);
    HeldRow(w, t, now);
    LeasableForAllOrNone(Apply(w, Fail(t, code, message, base, maximum, now)), t.eventId, x);
  }

  ghost predicate NotLeased(steps: seq<Step>, e: EventId) {
    forall s :: s in steps ==> !(s.Lease? && s.id == e)
  }

  ghost predicate LeasesOnlyBefore(steps: seq<Step>, e: EventId, due: Time) {
    forall s :: s in steps && s.Lease? && s.id == e ==> s.now < due
  }

  /** Until then the row stays exactly as it is, whatever anybody tries. */
  lemma {:induction false} FailedEventWaits(w: World, steps: seq<Step>, e: EventId)
    requires e in w.rows && w.rows[e].status == Failed && LeasesOnlyBefore(steps, e, w.rows[e].availableAt)
    ensures e in Run(w, steps).rows && Run(w, steps).rows[e] == w.rows[e]
    decreases |steps|
  {
    if steps == [] {
    } else {
      assert steps[0] in steps && forall s :: s in steps[1..] ==> s in steps;
      assert Apply(w, steps[0]).rows[e] == w.rows[e];
      FailedEventWaits(Apply(w, steps[0]), steps[1..], e);
    }
  }

  /** So from a failure on, no run leases the event before its wait is over. */
  lemma NoLeaseDuringTheWait(before: seq<Step>, t: Token, code: string, message: string, base: int, maximum: int, now: Time,
                             steps: seq<Step>, x: Time)
    requires Holds(Run(EMPTY, before), t, now) && t.attemptCount < t.maxAttempts
    requires LeasesOnlyBefore(steps, t.eventId, now + Wait(t.attemptCount, base, maximum))
    ensures var v := Run(Apply(Run(EMPTY, before), Fail(t, code, message, base, maximum, now)), steps);
      LeasableAt(v, t.eventId, x) <==> x >= now + Wait(t.attemptCount, base, maximum)
  {
    var u := Apply(Run(EMPTY, before), Fail(t, code, message, base, maximum, now));
    FailureDelaysRetry(before, t, code, message, base, maximum, now, x);
    RunKeepsInv(EMPTY, before);
    assert u.rows[t.eventId].status == Failed;
    FailedEventWaits(u, steps, t.eventId);
    LeasableForAllOrNone(Run(u, steps), t.eventId, x);
    LeasableForAllOrNone(u, t.eventId, x);
  }

  /** A reconciled event can be leased again at once, if and only if attempts remain. */
  lemma ReconciledIsDueAtOnce(steps: seq<Step>, e: EventId, checkedAt: Time, now: Time, x: Time)
    requires Enabled(Run(EMPTY, steps), Reconcile(e, checkedAt, now))
    ensures var w := Run(EMPTY, steps); var v := Apply(w, Reconcile(e, checkedAt, now));
      && e in v.rows && KeepsIdentity(w.rows[e], v.rows[e])
      && (LeasableAt(v, e, x) <==> w.rows[e].attemptCount < w.rows[e].maxAttempts && x >= now)
      && (v.rows[e].status == DeadLetter <==> w.rows[e].attemptCount == w.rows[e].maxAttempts)
      && v.rows[e].errorCode == Some("OUTBOX_LEASE_EXPIRED") && v.rows[e].errorMessage == Some("Outbox consumer lease expired")
      && Released(v.rows[e]) && v.rows[e].attemptCount == w.rows[e].attemptCount
  {
    var w := Run(EMPTY, steps);
    RunKeepsInv(EMPTY, steps);
    assert RowOk(w.rows[e]);
    LeasableForAllOrNone(Apply(w, Reconcile(e, checkedAt, now)), e, x);
  }

  /** A consumed event is over and released. */
  lemma ConsumptionEndsTheEvent(w: World, t: Token, now: Time, x: Time)
    requires Holds(w, t, now)
    ensures var v := Apply(w, Consume(t, now)); var e := t.eventId;
      && e in v.rows && KeepsIdentity(w.rows[e], v.rows[e]) && v.rows[e].status == Processed && v.rows[e].processedAt == Some(now)
      && Released(v.rows[e]) && v.rows[e].errorCode == None && v.rows[e].errorMessage == None && !LeasableAt(v, e, x)
  {
    LeasableForAllOrNone(Apply(w, Consume(t, now)), t.eventId, x);
  }

  /** And it has left the job its type asks for, and no other. */
  lemma ConsumptionLeavesItsJob(steps: seq<Step>, t: Token, now: Time, key: JobKey)
    requires Holds(Run(EMPTY, steps), t, now)
    ensures var w := Run(EMPTY, steps); var v := Apply(w, Consume(t, now)); var e := t.eventId;
      && (key in v.jobs && key !in w.jobs <==>
            || (key == FromEvent(e, MemoryReconciliation) && t.eventType == MemoryReconciliationRequired)
            || (key == FromEvent(e, AlertReconciliation) && (t.eventType == WorkflowFailed || t.eventType == ActionFailed))
            || (key == FromEvent(e, EvaluationRun) && t.eventType == EvaluationRequested))
      && (key in w.jobs ==> key in v.jobs && v.jobs[key] == w.jobs[key])
  {
    var w := Run(EMPTY, steps);
    RunKeepsInv(EMPTY, steps);
    assert TokenOk(w, t) && !IsProcessed(w, t.eventId);
    assert forall j :: FromEvent(t.eventId, j) !in w.jobs;
  }
}
