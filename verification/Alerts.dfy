/** Operational alerts: app/operations/alert_rules.py, app/operations/alerts.py and app/repositories/alert_repository.py. */
module Alerts {
  import opened Wrappers
  import opened Selection

  datatype AlertType =
    | WorkflowFailureRateHigh | JobQueueBacklog | JobDeadLetter | ActionExecutionFailure | MemoryReconciliationBacklog
    | PostgresUnavailable | MigrationHeadMismatch | OutboxBacklog

  datatype Severity = Low | Medium | High | Critical

  datatype Status = Open | Acknowledged | Resolved

  datatype Identity = Identity(kind: AlertType, resourceType: string, resourceId: string)

  /** The hashed material: an identity and the hour it was seen in. */
  datatype DedupKey = DedupKey(identity: Identity, hour: int)

  datatype Condition = Condition(identity: Identity, severity: Severity, summary: string)

  datatype Row = Row(
    status: Status, severity: Severity, summary: string, firstSeen: Time, lastSeen: Time, occurrences: nat,
    acknowledgedBy: Option<string>, resolvedBy: Option<string>)

  type Rows = map<DedupKey, Row>

  const MANAGED_TYPES: set<AlertType> := {JobQueueBacklog, JobDeadLetter, ActionExecutionFailure, MemoryReconciliationBacklog, OutboxBacklog}

  const RECONCILER := "alert-reconciler"

  function Hour(now: Time): int {
    now / Seconds(3600)
  }

  function KeyOf(c: Condition, now: Time): DedupKey {
    DedupKey(c.identity, Hour(now))
  }

  /** A condition with the time its alert is opened at. */
  datatype Sighting = Sighting(condition: Condition, now: Time)

  function KeyAt(s: Sighting): DedupKey {
    KeyOf(s.condition, s.now)
  }

  /** INSERT ... ON CONFLICT (deduplication_key) DO UPDATE. */
  function Upserted(rows: Rows, s: Sighting): Rows {
    var c, key := s.condition, KeyAt(s);
    if key in rows then
      rows[key := rows[key].(status := Open, severity := c.severity, summary := c.summary, lastSeen := s.now,
                             occurrences := rows[key].occurrences + 1, acknowledgedBy := None, resolvedBy := None)]
    else
      rows[key := Row(Open, c.severity, c.summary, s.now, s.now, 1, None, None)]
  }

  function OpenedAll(rows: Rows, seen: seq<Sighting>): Rows
    decreases |seen|
  {
    if seen == [] then rows else Upserted(OpenedAll(rows, seen[..|seen| - 1]), seen[|seen| - 1])
  }

  predicate Active(rows: Rows, key: DedupKey) {
    key in rows && rows[key].status != Resolved
  }

  predicate Managed(key: DedupKey) {
    key.identity.kind in MANAGED_TYPES
  }

  /** Rows the final pass resolves: managed, active, not locked by someone else, and their condition gone. */
  predicate Cleared(rows: Rows, active: set<Identity>, locked: set<DedupKey>, key: DedupKey) {
    Active(rows, key) && Managed(key) && key !in locked && key.identity !in active
  }

  function ResolvedRow(r: Row): Row {
    r.(status := Resolved, resolvedBy := Some(RECONCILER))
  }

  function ResolvedAll(rows: Rows, keys: set<DedupKey>): Rows {
    map k | k in rows :: if k in keys then ResolvedRow(rows[k]) else rows[k]
  }

  lemma ResolveOneMore(rows: Rows, keys: set<DedupKey>, k: DedupKey)
    requires k in rows && k !in keys
    ensures ResolvedAll(rows, keys)[k] == rows[k]
    ensures ResolvedAll(rows, keys + {k}) == ResolvedAll(rows, keys)[k := ResolvedRow(rows[k])]
  {
  }

  function ClearedKeys(rows: Rows, active: set<Identity>, locked: set<DedupKey>): set<DedupKey> {
    set k | k in rows && Cleared(rows, active, locked, k)
  }

  function AfterResolving(rows: Rows, active: set<Identity>, locked: set<DedupKey>): Rows {
    ResolvedAll(rows, ClearedKeys(rows, active, locked))
  }

  function Identities(seen: seq<Sighting>): set<Identity> {
    set s | s in seen :: s.condition.identity
  }

  function Reconciled(rows: Rows, seen: seq<Sighting>, locked: set<DedupKey>): Rows {
    AfterResolving(OpenedAll(rows, seen), Identities(seen), locked)
  }

  function ActiveManaged(rows: Rows): set<Identity> {
    set k | k in rows && Active(rows, k) && Managed(k) :: k.identity
  }

  // ----- what the sightings leave

  function Count(seen: seq<Sighting>, key: DedupKey): nat
    decreases |seen|
  {
    if seen == [] then 0 else Count(seen[..|seen| - 1], key) + if KeyAt(seen[|seen| - 1]) == key then 1 else 0
  }

  function Before(rows: Rows, key: DedupKey): nat {
    if key in rows then rows[key].occurrences else 0
  }

  /** Opening touches exactly the rows of the sightings: each is open and counts every one of them, the rest are unchanged. */
  lemma {:induction false} OpeningIsExact(rows: Rows, seen: seq<Sighting>, key: DedupKey)
    ensures var after := OpenedAll(rows, seen);
      && (key in after <==> key in rows || Count(seen, key) > 0)
      && (Count(seen, key) == 0 && key in rows ==> after[key] == rows[key])
      && (Count(seen, key) > 0 ==> after[key].status == Open && after[key].acknowledgedBy == None && after[key].resolvedBy == None)
      && (key in after ==> after[key].occurrences == Before(rows, key) + Count(seen, key))
    decreases |seen|
  {
    if seen == [] {
    } else {
      OpeningIsExact(rows, seen[..|seen| - 1], key);
    }
  }

  lemma {:induction false} SeenIsCounted(seen: seq<Sighting>, key: DedupKey)
    ensures Count(seen, key) > 0 <==> exists s :: s in seen && KeyAt(s) == key
    decreases |seen|
  {
    if seen == [] {
    } else {
      var front, last := seen[..|seen| - 1], seen[|seen| - 1];
      SeenIsCounted(front, key);
      assert forall s :: s in seen <==> s in front || s == last;
      if KeyAt(last) == key {
        assert last in seen;
      }
    }
  }

  // ----- agreement

  /** Rows that keep an alert alive after its condition is gone: somebody else holds their lock during the final pass. */
  ghost predicate LockHidesCleared(rows: Rows, seen: seq<Sighting>, locked: set<DedupKey>) {
    exists k :: k in locked && Active(OpenedAll(rows, seen), k) && Managed(k) && k.identity !in Identities(seen)
  }

  ghost predicate AllManaged(seen: seq<Sighting>) {
    forall s :: s in seen ==> s.condition.identity.kind in MANAGED_TYPES
  }

  lemma SightingsAreActive(rows: Rows, seen: seq<Sighting>, locked: set<DedupKey>, s: Sighting)
    requires s in seen && AllManaged(seen)
    ensures s.condition.identity in ActiveManaged(Reconciled(rows, seen, locked))
  {
    var k := KeyAt(s);
    SeenIsCounted(seen, k);
    OpeningIsExact(rows, seen, k);
    assert k.identity in Identities(seen);
    assert Active(Reconciled(rows, seen, locked), k) && Managed(k);
  }

  /** After a reconciliation the active managed alerts are those of the conditions, exactly if no lock hid a cleared one. */
  lemma AgreementIff(rows: Rows, seen: seq<Sighting>, locked: set<DedupKey>)
    requires AllManaged(seen)
    ensures ActiveManaged(Reconciled(rows, seen, locked)) == Identities(seen) <==> !LockHidesCleared(rows, seen, locked)
  {
    var mid, after := OpenedAll(rows, seen), Reconciled(rows, seen, locked);
    forall s | s in seen ensures s.condition.identity in ActiveManaged(after) {
      SightingsAreActive(rows, seen, locked, s);
    }
    assert forall k :: Active(after, k) <==> Active(mid, k) && !Cleared(mid, Identities(seen), locked, k);
    if LockHidesCleared(rows, seen, locked) {
      var k :| k in locked && Active(mid, k) && Managed(k) && k.identity !in Identities(seen);
      assert Active(after, k);
      assert k.identity in ActiveManaged(after);
    } else {
      forall i | i in ActiveManaged(after) ensures i in Identities(seen) {
        var k :| k in after && Active(after, k) && Managed(k) && k.identity == i;
      }
    }
  }

  /** Alerts of other types are left as they were by the final pass. */
  lemma OtherTypesAreUntouched(rows: Rows, seen: seq<Sighting>, locked: set<DedupKey>, k: DedupKey)
    requires AllManaged(seen) && !Managed(k)
    ensures (k in rows <==> k in Reconciled(rows, seen, locked)) && (k in rows ==> Reconciled(rows, seen, locked)[k] == rows[k])
  {
    OpeningIsExact(rows, seen, k);
    SeenIsCounted(seen, k);
    assert forall s :: s in seen ==> KeyAt(s).identity.kind in MANAGED_TYPES;
  }

  // ----- doing it again

  ghost predicate SameConditions(a: seq<Sighting>, b: seq<Sighting>) {
    |a| == |b| && forall i :: 0 <= i < |a| ==> a[i].condition == b[i].condition
  }

  ghost predicate SameHours(a: seq<Sighting>, b: seq<Sighting>) {
    |a| == |b| && forall i :: 0 <= i < |a| ==> Hour(a[i].now) == Hour(b[i].now)
  }

  lemma {:induction false} SameKeysSameCounts(a: seq<Sighting>, b: seq<Sighting>, key: DedupKey)
    requires SameConditions(a, b) && SameHours(a, b)
    ensures Count(a, key) == Count(b, key)
    decreases |a|
  {
    if a == [] {
    } else {
      SameKeysSameCounts(a[..|a| - 1], b[..|b| - 1], key);
    }
  }

  lemma SameIdentities(a: seq<Sighting>, b: seq<Sighting>)
    requires SameConditions(a, b)
    ensures Identities(a) == Identities(b)
  {
    forall i ensures i in Identities(a) <==> i in Identities(b) {
      if i in Identities(a) {
        var n :| 0 <= n < |a| && a[n].condition.identity == i;
        assert b[n] in b && b[n].condition.identity == i;
      }
      if i in Identities(b) {
        var n :| 0 <= n < |b| && b[n].condition.identity == i;
        assert a[n] in a && a[n].condition.identity == i;
      }
    }
  }

  /**
   The same conditions again within the hour: no row is added, nothing is resolved (when nothing was locked the first
   time), the same alerts are active, and each row counts one more occurrence for every sighting of it.
   */
  lemma SecondRunAddsNothing(rows: Rows, first: seq<Sighting>, second: seq<Sighting>, locked: set<DedupKey>)
    requires AllManaged(first) && SameConditions(first, second) && SameHours(first, second)
    ensures var once := Reconciled(rows, first, {}); var twice := Reconciled(once, second, locked);
      && twice.Keys == once.Keys
      && ClearedKeys(OpenedAll(once, second), Identities(second), locked) == {}
      && (forall k :: k in once ==> twice[k].status == once[k].status)
      && (forall k :: k in once ==> twice[k].occurrences == once[k].occurrences + Count(first, k))
  {
    var once := Reconciled(rows, first, {});
    var reopened := OpenedAll(once, second);
    SameIdentities(first, second);
    forall k: DedupKey
      ensures k in reopened <==> k in once
      ensures k in once ==> reopened[k].status == once[k].status && reopened[k].occurrences == once[k].occurrences + Count(first, k)
    {
      SameKeysSameCounts(first, second, k);
      OpeningIsExact(rows, first, k);
      OpeningIsExact(once, second, k);
      SeenIsCounted(first, k);
      if Count(first, k) > 0 {
        var s :| s in first && KeyAt(s) == k;
        assert k.identity in Identities(first);
      }
    }
    forall k | k in reopened ensures !Cleared(reopened, Identities(second), locked, k) {
      assert k in once && (Active(once, k) && Managed(k) ==> k.identity in Identities(first));
    }
  }

  /** Which rows a reconciliation adds: one for each condition not seen before in its hour. */
  lemma AddedRows(rows: Rows, seen: seq<Sighting>, locked: set<DedupKey>, k: DedupKey)
    ensures k in Reconciled(rows, seen, locked) && k !in rows <==> k !in rows && exists s :: s in seen && KeyAt(s) == k
  {
    OpeningIsExact(rows, seen, k);
    SeenIsCounted(seen, k);
  }

  /** A condition that persists takes back the acknowledgement of its alert, unless the hour has changed. */
  lemma AcknowledgementSurvivesIff(rows: Rows, seen: seq<Sighting>, locked: set<DedupKey>, k: DedupKey)
    requires k in rows && rows[k].status == Acknowledged && k.identity in Identities(seen)
    ensures k in Reconciled(rows, seen, locked)
    ensures Reconciled(rows, seen, locked)[k].status == Acknowledged <==> !exists s :: s in seen && KeyAt(s) == k
  {
    OpeningIsExact(rows, seen, k);
    SeenIsCounted(seen, k);
  }

  function AfterAcknowledging(rows: Rows, key: DedupKey, actorId: string): Rows {
    if Active(rows, key) then rows[key := rows[key].(status := Acknowledged, acknowledgedBy := Some(actorId))] else rows
  }

  /** An acknowledgement names its operator on an alert that is not resolved, and changes nothing else. */
  lemma AcknowledgementColumns(rows: Rows, key: DedupKey, actorId: string, k: DedupKey)
    ensures var v := AfterAcknowledging(rows, key, actorId);
      && (k in v <==> k in rows)
      && (k in rows ==> v[k] == (if k == key && rows[k].status != Resolved
                                 then rows[k].(status := Acknowledged, acknowledgedBy := Some(actorId)) else rows[k]))
  {
  }

  /** An operator acknowledges the alert a reconciliation opened; the next one within the hour reopens it. */
  lemma AcknowledgementCanBeLost(c: Condition, actorId: string)
    ensures var key := KeyOf(c, 0);
      var acknowledged := AfterAcknowledging(Reconciled(map[], [Sighting(c, 0)], {}), key, actorId);
      var again := Reconciled(acknowledged, [Sighting(c, Seconds(60))], {});
      && key in acknowledged && acknowledged[key].status == Acknowledged
      && key in again && again[key].status == Open && again[key].acknowledgedBy == None
  {
    var key, first, second := KeyOf(c, 0), Sighting(c, 0), Sighting(c, Seconds(60));
    OpeningIsExact(map[], [first], key);
    SeenIsCounted([first], key);
    assert first in [first] && KeyAt(first) == key;
    assert c.identity in Identities([first]);
    var acknowledged := AfterAcknowledging(Reconciled(map[], [first], {}), key, actorId);
    OpeningIsExact(acknowledged, [second], key);
    SeenIsCounted([second], key);
    assert second in [second] && KeyAt(second) == key;
    assert c.identity in Identities([second]);
  }

  /** An active managed alert without a condition, such as a dead job's beyond the limit, is resolved unless it is locked. */
  lemma AlertWithoutConditionIsResolvedIff(rows: Rows, seen: seq<Sighting>, locked: set<DedupKey>, k: DedupKey)
    requires Active(rows, k) && Managed(k) && k.identity !in Identities(seen)
    ensures k in Reconciled(rows, seen, locked) && (Reconciled(rows, seen, locked)[k].status == Resolved <==> k !in locked)
  {
    OpeningIsExact(rows, seen, k);
    SeenIsCounted(seen, k);
    assert forall s :: s in seen ==> KeyAt(s).identity in Identities(seen);
  }

  // ----- the conditions

  /** What the queries of `_conditions` return, and the thresholds. The two lists hold at most `limit` rows each. */
  datatype Facts = Facts(
    deadJobs: seq<string>, failedActions: seq<string>, memoryBacklog: int, queueBacklog: int, outboxBacklog: int,
    jobBatchSize: int, outboxReadyBacklogLimit: int)

  function DeadJob(id: string): Condition {
    Condition(Identity(JobDeadLetter, "job", id), High, "Background job reached dead letter")
  }

  function FailedAction(id: string): Condition {
    Condition(Identity(ActionExecutionFailure, "action_execution", id), High, "Controlled action execution failed")
  }

  function Each(ids: seq<string>, f: string -> Condition): (r: seq<Condition>)
    ensures |r| == |ids| && forall i :: 0 <= i < |ids| ==> r[i] == f(ids[i])
  {
    seq(|ids|, i requires 0 <= i < |ids| => f(ids[i]))
  }

  const MEMORY := Condition(Identity(MemoryReconciliationBacklog, "system", "memory"), Medium, "Action memory reconciliation is pending")

  const QUEUE := Condition(Identity(JobQueueBacklog, "system", "job-queue"), Medium, "Background job queue exceeds its operational threshold")

  const OUTBOX := Condition(Identity(OutboxBacklog, "system", "outbox"), High, "Transactional outbox exceeds its operational threshold")

  function Backlogs(f: Facts): seq<Condition> {
    (if f.memoryBacklog != 0 then [MEMORY] else [])
    + (if f.queueBacklog > f.jobBatchSize * 10 then [QUEUE] else [])
    + (if f.outboxBacklog > f.outboxReadyBacklogLimit then [OUTBOX] else [])
  }

  function Conditions(f: Facts): seq<Condition> {
    Each(f.deadJobs, DeadJob) + Each(f.failedActions, FailedAction) + Backlogs(f)
  }

  /** Every condition is of a managed type, and no two share an identity. */
  lemma ConditionsAreManagedAndDistinct(f: Facts)
    requires Distinct(f.deadJobs) && Distinct(f.failedActions)
    ensures forall c :: c in Conditions(f) ==> c.identity.kind in MANAGED_TYPES
    ensures forall i, j :: 0 <= i < j < |Conditions(f)| ==> Conditions(f)[i].identity != Conditions(f)[j].identity
  {
    var a, b, c := Each(f.deadJobs, DeadJob), Each(f.failedActions, FailedAction), Backlogs(f);
    assert forall i :: 0 <= i < |a| ==> a[i].identity.kind == JobDeadLetter && a[i].identity.resourceId == f.deadJobs[i];
    assert forall i :: 0 <= i < |b| ==> b[i].identity.kind == ActionExecutionFailure && b[i].identity.resourceId == f.failedActions[i];
    assert forall i :: 0 <= i < |c| ==> c[i] == MEMORY || c[i] == QUEUE || c[i] == OUTBOX;
    assert forall i, j :: 0 <= i < j < |c| ==> c[i].identity != c[j].identity;
  }

  /** Two sightings share an alert exactly if they share an identity and fall into one hour of the clock. */
  lemma SameAlertIff(s: Sighting, t: Sighting)
    ensures KeyAt(s) == KeyAt(t) <==>
      s.condition.identity == t.condition.identity
      && s.now - s.now % 3_600_000_000 == t.now - t.now % 3_600_000_000
  {
  }

  /** Which backlogs are reported, and as what. */
  lemma BacklogsByThreshold(f: Facts)
    ensures Condition(Identity(MemoryReconciliationBacklog, "system", "memory"), Medium, "Action memory reconciliation is pending") in Conditions(f)
            <==> f.memoryBacklog != 0
    ensures Condition(Identity(JobQueueBacklog, "system", "job-queue"), Medium, "Background job queue exceeds its operational threshold") in Conditions(f)
            <==> f.queueBacklog > 10 * f.jobBatchSize
    ensures Condition(Identity(OutboxBacklog, "system", "outbox"), High, "Transactional outbox exceeds its operational threshold") in Conditions(f)
            <==> f.outboxBacklog > f.outboxReadyBacklogLimit
  {
    var a, b, c := Each(f.deadJobs, DeadJob), Each(f.failedActions, FailedAction), Backlogs(f);
    assert forall x :: x in a ==> x.identity.kind == JobDeadLetter;
    assert forall x :: x in b ==> x.identity.kind == ActionExecutionFailure;
    assert forall x :: x in Conditions(f) <==> x in a || x in b || x in c;
  }

  /** Every dead job and failed action the queries return is reported, as what it is, and nothing else is besides backlogs. */
  lemma FailuresAreReported(f: Facts, id: string)
    ensures Condition(Identity(JobDeadLetter, "job", id), High, "Background job reached dead letter") in Conditions(f) <==> id in f.deadJobs
    ensures Condition(Identity(ActionExecutionFailure, "action_execution", id), High, "Controlled action execution failed") in Conditions(f)
            <==> id in f.failedActions
    ensures |Conditions(f)| <= |f.deadJobs| + |f.failedActions| + 3
  {
    var a, b, c := Each(f.deadJobs, DeadJob), Each(f.failedActions, FailedAction), Backlogs(f);
    assert forall x :: x in Conditions(f) <==> x in a || x in b || x in c;
    if id in f.deadJobs {
      var i :| 0 <= i < |f.deadJobs| && f.deadJobs[i] == id;
      assert a[i] == DeadJob(id);
    }
    if id in f.failedActions {
      var i :| 0 <= i < |f.failedActions| && f.failedActions[i] == id;
      assert b[i] == FailedAction(id);
    }
  }

  /** A sighting opens a new alert dated now, or reopens the hour's alert with one more occurrence and its first date. */
  lemma SightingColumns(rows: Rows, s: Sighting)
    ensures var v, k := Upserted(rows, s), KeyAt(s);
      && k in v && v[k].status == Open && v[k].severity == s.condition.severity && v[k].summary == s.condition.summary
      && v[k].lastSeen == s.now && v[k].acknowledgedBy == None && v[k].resolvedBy == None
      && v[k].firstSeen == (if k in rows then rows[k].firstSeen else s.now)
      && v[k].occurrences == (if k in rows then rows[k].occurrences + 1 else 1)
      && forall o :: o != k ==> (o in v <==> o in rows) && (o in rows ==> v[o] == rows[o])
  {
  }

  /** The final pass names itself on what it resolves, and changes nothing else. */
  lemma ResolutionColumns(rows: Rows, active: set<Identity>, locked: set<DedupKey>, k: DedupKey)
    requires k in rows
    ensures var v := AfterResolving(rows, active, locked);
      k in v && v[k] == (if rows[k].status != Resolved && k !in locked && k.identity !in active
                            && k.identity.kind in {JobQueueBacklog, JobDeadLetter, ActionExecutionFailure, MemoryReconciliationBacklog, OutboxBacklog}
                         then rows[k].(status := Resolved, resolvedBy := Some("alert-reconciler")) else rows[k])
  {
  }

  function Clamped(limit: int): int {
    Min(Max(limit, 1), 500)
  }

  lemma LimitIsBetween(limit: int)
    ensures 1 <= Clamped(limit) <= 500 && (1 <= limit <= 500 ==> Clamped(limit) == limit)
    ensures (limit < 1 ==> Clamped(limit) == 1) && (limit > 500 ==> Clamped(limit) == 500)
  {
  }

  /** The dead-letter conditions cover every dead job exactly when there are no more of them than the clamped limit. */
  lemma EveryDeadJobIsACondition(chosen: seq<string>, dead: set<string>, limit: int, precedes: (string, string) -> bool)
    requires IsFirst(chosen, dead, Clamped(limit), precedes)
    ensures (forall id :: id in dead ==> DeadJob(id) in Each(chosen, DeadJob)) <==> |dead| <= Clamped(limit)
  {
    var found := set id | id in chosen;
    DistinctCount(chosen);
    assert found <= dead;
    if forall id :: id in dead ==> DeadJob(id) in Each(chosen, DeadJob) {
      forall id | id in dead ensures id in found {
        var i :| 0 <= i < |chosen| && Each(chosen, DeadJob)[i] == DeadJob(id);
        assert chosen[i] == id;
      }
      assert found == dead;
    }
    if |dead| <= Clamped(limit) {
      SubsetOfSameSize(found, dead);
      forall id | id in dead ensures DeadJob(id) in Each(chosen, DeadJob) {
        assert id in found;
        var i :| 0 <= i < |chosen| && chosen[i] == id;
        assert Each(chosen, DeadJob)[i] == DeadJob(id);
      }
    }
  }

  lemma {:induction false} SubsetOfSameSize<T>(a: set<T>, b: set<T>)
    requires a <= b && |a| == |b|
    ensures a == b
  {
    assert |b - a| == |b| - |a|;
  }
}
