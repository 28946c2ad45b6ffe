/** The outbox table and the transactions of app/repositories/outbox_repository.py and app/outbox/service.py. */
module OutboxRepository {
  import opened Wrappers
  import opened OutboxState
  import Selection
  import Backoff

  datatype AddResult = Added(id: EventId) | Existing(id: EventId) | PersistenceError

  ghost function EligibleIds(rows: Rows, now: Time): set<EventId> {
    set id | id in rows && Eligible(rows[id], now)
  }

  ghost function StaleIds(rows: Rows, checkedAt: Time): set<EventId> {
    set id | id in rows && Stale(rows[id], checkedAt)
  }

  /** ORDER BY available_at, created_at. */
  predicate LeaseBefore(rows: Rows, a: EventId, b: EventId) {
    && a in rows && b in rows
    && (rows[a].availableAt < rows[b].availableAt
        || (rows[a].availableAt == rows[b].availableAt && rows[a].createdAt < rows[b].createdAt))
  }

  /** ORDER BY locked_at, outbox_event_id. */
  predicate StaleBefore(rows: Rows, a: EventId, b: EventId) {
    && a in rows && b in rows && rows[a].lockedAt.Some? && rows[b].lockedAt.Some?
    && (rows[a].lockedAt.value < rows[b].lockedAt.value || (rows[a].lockedAt.value == rows[b].lockedAt.value && a < b))
  }

  function LeaseOrder(rows: Rows): (EventId, EventId) -> bool {
    (a: EventId, b: EventId) => LeaseBefore(rows, a, b)
  }

  function StaleOrder(rows: Rows): (EventId, EventId) -> bool {
    (a: EventId, b: EventId) => StaleBefore(rows, a, b)
  }

  lemma QueriesAreOrdered(rows: Rows)
    ensures Selection.StrictOrder(LeaseOrder(rows)) && Selection.StrictOrder(StaleOrder(rows))
  {
    assert forall a, b, c :: LeaseBefore(rows, a, b) && LeaseBefore(rows, b, c) ==> LeaseBefore(rows, a, c);
    assert forall a, b, c :: StaleBefore(rows, a, b) && StaleBefore(rows, b, c) ==> StaleBefore(rows, a, c);
  }

  function LeaseSteps(ids: seq<EventId>, workerId: string, leaseSeconds: int, now: Time): seq<Step> {
    seq(|ids|, i requires 0 <= i < |ids| => Lease(ids[i], workerId, leaseSeconds, now))
  }

  /** The clock is read again for each row. */
  function ReconcileSteps(ids: seq<EventId>, checkedAt: Time, clock: EventId -> Time): seq<Step> {
    seq(|ids|, i requires 0 <= i < |ids| => Reconcile(ids[i], checkedAt, clock(ids[i])))
  }

  lemma RunSnoc(w: World, steps: seq<Step>, s: Step)
    ensures Run(w, steps + [s]) == Apply(Run(w, steps), s)
  {
    RunAppend(w, steps, [s]);
    assert Run(Run(w, steps), [s]) == Run(Apply(Run(w, steps), s), []);
  }

  /** What the lease query's order means: an eligible event that was due earlier, or as early and created earlier, is chosen before. */
  lemma LeaseQueryByColumns(rows: Rows, now: Time, lockedElsewhere: set<EventId>, limit: nat, events: seq<EventId>, a: EventId, j: nat)
    requires Selection.IsFirst(events, EligibleIds(rows, now) - lockedElsewhere, limit, LeaseOrder(rows))
    requires a in EligibleIds(rows, now) - lockedElsewhere && j < |events| && events[j] in rows
    ensures rows[a].availableAt < rows[events[j]].availableAt ==> a in events[..j]
    ensures rows[a].availableAt == rows[events[j]].availableAt && rows[a].createdAt < rows[events[j]].createdAt ==> a in events[..j]
  {
    QueriesAreOrdered(rows);
    if LeaseBefore(rows, a, events[j]) {
      Selection.AheadIsChosenBefore(events, EligibleIds(rows, now) - lockedElsewhere, limit, LeaseOrder(rows), a, j);
    }
  }

  /** The reconciliation takes the rows locked longest ago first, then by id. */
  lemma StaleQueryByColumns(rows: Rows, checkedAt: Time, lockedElsewhere: set<EventId>, limit: nat, events: seq<EventId>, a: EventId, j: nat)
    requires Selection.IsFirst(events, StaleIds(rows, checkedAt) - lockedElsewhere, limit, StaleOrder(rows))
    requires a in StaleIds(rows, checkedAt) - lockedElsewhere && j < |events| && events[j] in rows
    requires rows[a].lockedAt.Some? && rows[events[j]].lockedAt.Some?
    ensures rows[a].lockedAt.value < rows[events[j]].lockedAt.value ==> a in events[..j]
    ensures rows[a].lockedAt == rows[events[j]].lockedAt && a < events[j] ==> a in events[..j]
  {
    QueriesAreOrdered(rows);
    if StaleBefore(rows, a, events[j]) {
      Selection.AheadIsChosenBefore(events, StaleIds(rows, checkedAt) - lockedElsewhere, limit, StaleOrder(rows), a, j);
    }
  }

  class OutboxStore {
    var rows: Rows
    var jobs: map<JobKey, JobType>
    var issued: set<Token>
    var effects: multiset<EventId>

    function State(): World
      reads this
    {
      World(rows, jobs, issued, effects)
    }

    constructor ()
      ensures State() == EMPTY
    {
      rows, jobs, issued, effects := map[], map[], {}, multiset{};
    }

    /** Transactions other processes commit while this one is between two of its own. */
    method Others(steps: seq<Step>)
      modifies this
      ensures State() == Run(old(State()), steps)
    {
      var i := 0;
      while i < |steps|
        invariant 0 <= i <= |steps|
        invariant State() == Run(old(State()), steps[..i])
      {
        RunSnoc(old(State()), steps[..i], steps[i]);
        assert steps[..i + 1] == steps[..i] + [steps[i]];
        var w := Apply(State(), steps[i]);
        rows, jobs, issued, effects := w.rows, w.jobs, w.issued, w.effects;
        i := i + 1;
      }
      assert steps[..i] == steps;
    }

    /** Inserts in a savepoint; a conflict on the idempotency key returns the row that holds it. */
    method AddEvent(newId: EventId, eventType: EventType, key: string, maxAttempts: int, now: Time) returns (r: AddResult)
      requires 1 <= maxAttempts
      modifies this`rows
      ensures State() == Apply(old(State()), OutboxState.AddEvent(newId, eventType, key, maxAttempts, now))
      ensures r == Added(newId) <==> newId !in old(rows) && !KeyTaken(old(rows), key)
      ensures r.Existing? ==> r.id in old(rows) && old(rows)[r.id].key == key
      ensures r.PersistenceError? <==> newId in old(rows)
    {
      if newId in rows {
        r := PersistenceError;
      } else if KeyTaken(rows, key) {
        var id :| id in rows && rows[id].key == key;
        r := Existing(id);
      } else {
        rows := rows[newId := NewRow(eventType, key, maxAttempts, now)];
        r := Added(newId);
      }
    }

    method LeaseRow(id: EventId, workerId: string, leaseSeconds: int, now: Time)
      requires id in rows && Eligible(rows[id], now)
      modifies this`rows, this`issued
      ensures State() == Apply(old(State()), Lease(id, workerId, leaseSeconds, now))
      ensures rows == old(rows)[id := LeasedRow(old(rows)[id], workerId, leaseSeconds, now)]
      ensures issued == old(issued) + {TokenOf(id, rows[id], workerId)}
    {
      var event := rows[id];
      event := event.(status := Processing, lockedBy := Some(workerId), lockedAt := Some(now), lastHeartbeatAt := Some(now));
      event := event.(leaseExpiresAt := Some(now + Seconds(leaseSeconds)));
      event := event.(leaseVersion := event.leaseVersion + 1, attemptCount := event.attemptCount + 1);
      rows := rows[id := event];
      issued := issued + {TokenOf(id, event, workerId)};
    }

    /** Leases the first `limit` eligible rows no other transaction has locked. */
    method LeaseBatch(workerId: string, limit: nat, leaseSeconds: int, now: Time, lockedElsewhere: set<EventId>) returns (events: seq<EventId>)
      modifies this`rows, this`issued
      ensures Selection.IsFirst(events, EligibleIds(old(rows), now) - lockedElsewhere, limit, LeaseOrder(old(rows)))
      ensures forall a, j :: a in EligibleIds(old(rows), now) - lockedElsewhere && 0 <= j < |events| && events[j] in old(rows) && old(rows)[a].availableAt < old(rows)[events[j]].availableAt ==> a in events[..j]
      ensures forall a, j :: a in EligibleIds(old(rows), now) - lockedElsewhere && 0 <= j < |events| && events[j] in old(rows) && old(rows)[a].availableAt == old(rows)[events[j]].availableAt && old(rows)[a].createdAt < old(rows)[events[j]].createdAt ==> a in events[..j]
      ensures State() == Run(old(State()), LeaseSteps(events, workerId, leaseSeconds, now))
      ensures forall id :: id in events ==> id in rows && TokenOf(id, rows[id], workerId) in issued
    {
      events := SelectEligible(limit, now, lockedElsewhere);
      LeaseRows(events, workerId, leaseSeconds, now);
    }

    method LeaseRows(events: seq<EventId>, workerId: string, leaseSeconds: int, now: Time)
      requires Selection.Distinct(events) && forall k :: 0 <= k < |events| ==> events[k] in rows && Eligible(rows[events[k]], now)
      modifies this`rows, this`issued
      ensures State() == Run(old(State()), LeaseSteps(events, workerId, leaseSeconds, now))
      ensures forall id :: id in events ==> id in rows && TokenOf(id, rows[id], workerId) in issued
    {
      var i := 0;
      while i < |events|
        invariant 0 <= i <= |events|
        invariant forall k :: i <= k < |events| ==> events[k] in rows && rows[events[k]] == old(rows)[events[k]]
        invariant forall k :: 0 <= k < i ==> events[k] in rows && TokenOf(events[k], rows[events[k]], workerId) in issued
        invariant State() == Run(old(State()), LeaseSteps(events[..i], workerId, leaseSeconds, now))
      {
        RunSnoc(old(State()), LeaseSteps(events[..i], workerId, leaseSeconds, now), Lease(events[i], workerId, leaseSeconds, now));
        assert LeaseSteps(events[..i + 1], workerId, leaseSeconds, now)
            == LeaseSteps(events[..i], workerId, leaseSeconds, now) + [Lease(events[i], workerId, leaseSeconds, now)];
        LeaseRow(events[i], workerId, leaseSeconds, now);
        i := i + 1;
      }
      assert events[..i] == events;
    }

    method SelectEligible(limit: nat, now: Time, lockedElsewhere: set<EventId>) returns (events: seq<EventId>)
      ensures Selection.IsFirst(events, EligibleIds(rows, now) - lockedElsewhere, limit, LeaseOrder(rows))
      ensures forall a, j :: a in EligibleIds(rows, now) - lockedElsewhere && 0 <= j < |events| && events[j] in rows && rows[a].availableAt < rows[events[j]].availableAt ==> a in events[..j]
      ensures forall a, j :: a in EligibleIds(rows, now) - lockedElsewhere && 0 <= j < |events| && events[j] in rows && rows[a].availableAt == rows[events[j]].availableAt && rows[a].createdAt < rows[events[j]].createdAt ==> a in events[..j]
      ensures Selection.Distinct(events) && forall k :: 0 <= k < |events| ==> events[k] in rows && Eligible(rows[events[k]], now)
    {
      var candidates := set id | id in rows && Eligible(rows[id], now) && id !in lockedElsewhere;
      assert candidates == EligibleIds(rows, now) - lockedElsewhere;
      QueriesAreOrdered(rows);
      events := Selection.SelectFirst(candidates, limit, LeaseOrder(rows));
      forall a, j | a in candidates && 0 <= j < |events| && events[j] in rows {
        LeaseQueryByColumns(rows, now, lockedElsewhere, limit, events, a, j);
      }
    }

    method ClassifyLeaseFailure(id: EventId) returns (r: LeaseUpdateResult)
      ensures r == NotFound <==> id !in rows
      ensures r == InvalidState <==> id in rows && rows[id].status != Processing
      ensures r == LeaseLost <==> id in rows && rows[id].status == Processing
    {
      if id !in rows {
        return NotFound;
      }
      if rows[id].status != Processing {
        return InvalidState;
      }
      return LeaseLost;
    }

    method MarkProcessed(id: EventId, workerId: string, leaseVersion: nat, now: Time) returns (r: LeaseUpdateResult)
      modifies this`rows
      ensures r == Updated <==> LeaseCondition(old(rows), id, workerId, leaseVersion, now)
      ensures r == Updated ==> rows == old(rows)[id := ProcessedRow(old(rows)[id], now)]
      ensures r != Updated ==> rows == old(rows) && r == ClassifyFailure(rows, id)
    {
      if LeaseCondition(rows, id, workerId, leaseVersion, now) {
        rows := rows[id := rows[id].(status := Processed, processedAt := Some(now), lockedBy := None, lockedAt := None,
                                     leaseExpiresAt := None, lastHeartbeatAt := None, errorCode := None, errorMessage := None)];
        return Updated;
      }
      r := ClassifyLeaseFailure(id);
    }

    method MarkFailed(id: EventId, workerId: string, leaseVersion: nat, attemptCount: nat, maxAttempts: int,
                      code: string, message: string, base: int, maximum: int, now: Time) returns (r: LeaseUpdateResult)
      modifies this`rows
      ensures r == Updated <==> LeaseCondition(old(rows), id, workerId, leaseVersion, now)
      ensures r == Updated ==>
        rows == old(rows)[id := FailedRow(old(rows)[id], attemptCount, maxAttempts, code, message, base, maximum, now)]
      ensures r == Updated && attemptCount >= 1 ==>
        rows[id].availableAt == now + 1_000_000 * Min(base * Backoff.Pow2(attemptCount - 1), maximum)
      ensures r == Updated ==> (rows[id].status == DeadLetter <==> attemptCount >= maxAttempts) && rows[id].lockedBy == None
      ensures r != Updated ==> rows == old(rows) && r == ClassifyFailure(rows, id)
    {
      var deadLetter := attemptCount >= maxAttempts;
      var availableAt := now + Seconds(Backoff.Delay(attemptCount, base, maximum));
      if LeaseCondition(rows, id, workerId, leaseVersion, now) {
        rows := rows[id := rows[id].(status := if deadLetter then DeadLetter else Failed, availableAt := availableAt,
                                     lockedBy := None, lockedAt := None, leaseExpiresAt := None, lastHeartbeatAt := None,
                                     errorCode := Some(code), errorMessage := Some(message))];
        return Updated;
      }
      r := ClassifyLeaseFailure(id);
    }

    method RenewLease(id: EventId, workerId: string, leaseVersion: nat, leaseSeconds: int, now: Time) returns (r: LeaseUpdateResult)
      modifies this`rows
      ensures r == Updated <==> LeaseCondition(old(rows), id, workerId, leaseVersion, now)
      ensures r == Updated ==> rows == old(rows)[id := RenewedRow(old(rows)[id], leaseSeconds, now)]
      ensures r != Updated ==> rows == old(rows) && r == ClassifyFailure(rows, id)
    {
      if LeaseCondition(rows, id, workerId, leaseVersion, now) {
        rows := rows[id := rows[id].(lastHeartbeatAt := Some(now), leaseExpiresAt := Some(now + Seconds(leaseSeconds)))];
        return Updated;
      }
      r := ClassifyLeaseFailure(id);
    }

    method ReconcileRow(id: EventId, checkedAt: Time, now: Time)
      requires id in rows && Stale(rows[id], checkedAt)
      modifies this`rows
      ensures State() == Apply(old(State()), Reconcile(id, checkedAt, now))
      ensures rows == old(rows)[id := ReconciledRow(old(rows)[id], now)]
    {
      var event := rows[id];
      event := event.(status := if event.attemptCount >= event.maxAttempts then DeadLetter else Failed, availableAt := now);
      event := event.(lockedBy := None, lockedAt := None, leaseExpiresAt := None, lastHeartbeatAt := None);
      event := event.(errorCode := Some("OUTBOX_LEASE_EXPIRED"), errorMessage := Some("Outbox consumer lease expired"));
      rows := rows[id := event];
    }

    method SelectStale(limit: nat, checkedAt: Time, lockedElsewhere: set<EventId>) returns (events: seq<EventId>)
      ensures Selection.IsFirst(events, StaleIds(rows, checkedAt) - lockedElsewhere, limit, StaleOrder(rows))
      ensures forall a, j :: a in StaleIds(rows, checkedAt) - lockedElsewhere && 0 <= j < |events| && events[j] in rows && rows[a].lockedAt.Some? && rows[events[j]].lockedAt.Some? && rows[a].lockedAt.value < rows[events[j]].lockedAt.value ==> a in events[..j]
      ensures forall a, j :: a in StaleIds(rows, checkedAt) - lockedElsewhere && 0 <= j < |events| && events[j] in rows && rows[a].lockedAt.Some? && rows[events[j]].lockedAt.Some? && rows[a].lockedAt == rows[events[j]].lockedAt && a < events[j] ==> a in events[..j]
      ensures Selection.Distinct(events) && forall k :: 0 <= k < |events| ==> events[k] in rows && Stale(rows[events[k]], checkedAt)
    {
      var candidates := set id | id in rows && Stale(rows[id], checkedAt) && id !in lockedElsewhere;
      assert candidates == StaleIds(rows, checkedAt) - lockedElsewhere;
      QueriesAreOrdered(rows);
      events := Selection.SelectFirst(candidates, limit, StaleOrder(rows));
      forall a, j | a in candidates && 0 <= j < |events| && events[j] in rows && rows[a].lockedAt.Some? && rows[events[j]].lockedAt.Some? {
        StaleQueryByColumns(rows, checkedAt, lockedElsewhere, limit, events, a, j);
      }
    }

    method ReconcileStale(limit: nat, checkedAt: Time, clock: EventId -> Time, lockedElsewhere: set<EventId>) returns (events: seq<EventId>)
      modifies this`rows
      ensures Selection.IsFirst(events, StaleIds(old(rows), checkedAt) - lockedElsewhere, limit, StaleOrder(old(rows)))
      ensures forall a, j :: a in StaleIds(old(rows), checkedAt) - lockedElsewhere && 0 <= j < |events| && events[j] in old(rows) && old(rows)[a].lockedAt.Some? && old(rows)[events[j]].lockedAt.Some? && old(rows)[a].lockedAt.value < old(rows)[events[j]].lockedAt.value ==> a in events[..j]
      ensures forall a, j :: a in StaleIds(old(rows), checkedAt) - lockedElsewhere && 0 <= j < |events| && events[j] in old(rows) && old(rows)[a].lockedAt.Some? && old(rows)[events[j]].lockedAt.Some? && old(rows)[a].lockedAt == old(rows)[events[j]].lockedAt && a < events[j] ==> a in events[..j]
      ensures State() == Run(old(State()), ReconcileSteps(events, checkedAt, clock))
    {
      events := SelectStale(limit, checkedAt, lockedElsewhere);
      ReconcileRows(events, checkedAt, clock);
    }

    method ReconcileRows(events: seq<EventId>, checkedAt: Time, clock: EventId -> Time)
      requires Selection.Distinct(events) && forall k :: 0 <= k < |events| ==> events[k] in rows && Stale(rows[events[k]], checkedAt)
      modifies this`rows
      ensures State() == Run(old(State()), ReconcileSteps(events, checkedAt, clock))
    {
      var i := 0;
      while i < |events|
        invariant 0 <= i <= |events|
        invariant forall k :: i <= k < |events| ==> events[k] in rows && rows[events[k]] == old(rows)[events[k]]
        invariant State() == Run(old(State()), ReconcileSteps(events[..i], checkedAt, clock))
      {
        RunSnoc(old(State()), ReconcileSteps(events[..i], checkedAt, clock), Reconcile(events[i], checkedAt, clock(events[i])));
        assert ReconcileSteps(events[..i + 1], checkedAt, clock)
            == ReconcileSteps(events[..i], checkedAt, clock) + [Reconcile(events[i], checkedAt, clock(events[i]))];
        ReconcileRow(events[i], checkedAt, clock(events[i]));
        i := i + 1;
      }
      assert events[..i] == events;
    }
  }
}
