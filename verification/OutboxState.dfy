/** Outbox rows, the dispatchers' tokens, and every transaction that can touch them, each as one atomic step. */
module OutboxState {
  import opened Wrappers
  import Backoff

  type EventId = nat

  /** The event types the consumer reacts to; every other type is audit only. */
  datatype EventType = MemoryReconciliationRequired | WorkflowFailed | ActionFailed | EvaluationRequested | AuditOnly(name: string)

  datatype JobType = MemoryReconciliation | AlertReconciliation | EvaluationRun | OtherType(name: string)

  /** Idempotency keys of queued jobs: the consumer's hash of (event id, job type) is injective, other writers use other keys. */
  datatype JobKey = FromEvent(eventId: EventId, jobType: JobType) | Direct(name: string)

  datatype Status = Pending | Processing | Processed | Failed | DeadLetter

  datatype LeaseUpdateResult = Updated | NotFound | InvalidState | LeaseLost

  datatype Row = Row(
    eventType: EventType,
    key: string,
    status: Status,
    attemptCount: nat,
    maxAttempts: int,
    availableAt: Time,
    createdAt: Time,
    lockedBy: Option<string>,
    lockedAt: Option<Time>,
    leaseExpiresAt: Option<Time>,
    lastHeartbeatAt: Option<Time>,
    leaseVersion: nat,
    processedAt: Option<Time>,
    errorCode: Option<string>,
    errorMessage: Option<string>)

  /** The snapshot a dispatcher keeps of the event it leased, with its own worker id. */
  datatype Token = Token(
    eventId: EventId,
    workerId: string,
    eventType: EventType,
    attemptCount: nat,
    maxAttempts: int,
    leaseVersion: nat)

  type Rows = map<EventId, Row>

  /** `issued` and `effects` are history: tokens ever handed out, consumer transactions ever committed. */
  datatype World = World(rows: Rows, jobs: map<JobKey, JobType>, issued: set<Token>, effects: multiset<EventId>)

  const EMPTY := World(map[], map[], {}, multiset{})

  function NewRow(eventType: EventType, key: string, maxAttempts: int, now: Time): Row {
    Row(eventType, key, Pending, 0, maxAttempts, now, now, None, None, None, None, 0, None, None, None)
  }

  predicate KeyTaken(rows: Rows, key: string) {
    exists id :: id in rows && rows[id].key == key
  }

  predicate Eligible(r: Row, now: Time) {
    (r.status == Pending || r.status == Failed) && r.availableAt <= now
  }

  predicate Stale(r: Row, checkedAt: Time) {
    r.status == Processing && r.leaseExpiresAt.Some? && r.leaseExpiresAt.value <= checkedAt
  }

  predicate LeaseCondition(rows: Rows, id: EventId, workerId: string, version: nat, now: Time) {
    && id in rows
    && rows[id].status == Processing
    && rows[id].lockedBy == Some(workerId)
    && rows[id].leaseVersion == version
    && rows[id].leaseExpiresAt.Some? && rows[id].leaseExpiresAt.value > now
  }

  function ClassifyFailure(rows: Rows, id: EventId): LeaseUpdateResult {
    if id !in rows then NotFound
    else if rows[id].status != Processing then InvalidState
    else LeaseLost
  }

  function Unlocked(r: Row): Row {
    r.(lockedBy := None, lockedAt := None, leaseExpiresAt := None, lastHeartbeatAt := None)
  }

  function LeasedRow(r: Row, workerId: string, leaseSeconds: int, now: Time): Row {
    r.(status := Processing, lockedBy := Some(workerId), lockedAt := Some(now), lastHeartbeatAt := Some(now),
       leaseExpiresAt := Some(now + Seconds(leaseSeconds)), leaseVersion := r.leaseVersion + 1, attemptCount := r.attemptCount + 1)
  }

  function ProcessedRow(r: Row, now: Time): Row {
    Unlocked(r).(status := Processed, processedAt := Some(now), errorCode := None, errorMessage := None)
  }

  /** The decision uses the caller's snapshot of the counters, not the row's. */
  function FailedRow(r: Row, attemptCount: nat, maxAttempts: int, code: string, message: string, base: int, maximum: int, now: Time): Row {
    Unlocked(r).(status := if attemptCount >= maxAttempts then DeadLetter else Failed,
                 availableAt := now + Seconds(Backoff.Delay(attemptCount, base, maximum)),
                 errorCode := Some(code), errorMessage := Some(message))
  }

  function RenewedRow(r: Row, leaseSeconds: int, now: Time): Row {
    r.(lastHeartbeatAt := Some(now), leaseExpiresAt := Some(now + Seconds(leaseSeconds)))
  }

  function ReconciledRow(r: Row, now: Time): Row {
    Unlocked(r).(status := if r.attemptCount >= r.maxAttempts then DeadLetter else Failed, availableAt := now,
                 errorCode := Some("OUTBOX_LEASE_EXPIRED"), errorMessage := Some("Outbox consumer lease expired"))
  }

  function TokenOf(id: EventId, r: Row, workerId: string): Token {
    Token(id, workerId, r.eventType, r.attemptCount, r.maxAttempts, r.leaseVersion)
  }

  /** The job the consumer enqueues for an event, if any. */
  function JobFor(t: EventType): Option<JobType> {
    match t
    case MemoryReconciliationRequired => Some(MemoryReconciliation)
    case WorkflowFailed => Some(AlertReconciliation)
    case ActionFailed => Some(AlertReconciliation)
    case EvaluationRequested => Some(EvaluationRun)
    case AuditOnly(_) => None
  }

  /** Enqueueing under a key that exists returns the existing job. */
  function Enqueued(jobs: map<JobKey, JobType>, key: JobKey, jobType: JobType): map<JobKey, JobType> {
    if key in jobs then jobs else jobs[key := jobType]
  }

  function Consumed(jobs: map<JobKey, JobType>, id: EventId, t: EventType): map<JobKey, JobType> {
    match JobFor(t)
    case None => jobs
    case Some(jobType) => Enqueued(jobs, FromEvent(id, jobType), jobType)
  }

  /** One committed transaction of one process. A step whose guard is false changes nothing. */
  datatype Step =
    | AddEvent(id: EventId, eventType: EventType, key: string, maxAttempts: int, now: Time)
    | Lease(id: EventId, workerId: string, leaseSeconds: int, now: Time)
    | Renew(token: Token, leaseSeconds: int, now: Time)
    | Consume(token: Token, now: Time)
    | Fail(token: Token, code: string, message: string, base: int, maximum: int, now: Time)
    | Reconcile(id: EventId, checkedAt: Time, now: Time)
    | EnqueueDirect(name: string, jobType: JobType)

  predicate Holds(w: World, t: Token, now: Time) {
    t in w.issued && LeaseCondition(w.rows, t.eventId, t.workerId, t.leaseVersion, now)
  }

  predicate Enabled(w: World, s: Step) {
    match s
    case AddEvent(id, _, key, maxAttempts, _) => id !in w.rows && !KeyTaken(w.rows, key) && maxAttempts >= 1
    case Lease(id, _, _, now) => id in w.rows && Eligible(w.rows[id], now)
    case Renew(t, _, now) => Holds(w, t, now)
    case Consume(t, now) => Holds(w, t, now)
    case Fail(t, _, _, _, _, now) => Holds(w, t, now)
    case Reconcile(id, checkedAt, _) => id in w.rows && Stale(w.rows[id], checkedAt)
    case EnqueueDirect(_, _) => true
  }

  function Effect(w: World, s: Step): World
    requires Enabled(w, s)
  {
    match s
    case AddEvent(id, eventType, key, maxAttempts, now) =>
      w.(rows := w.rows[id := NewRow(eventType, key, maxAttempts, now)])
    case Lease(id, workerId, leaseSeconds, now) =>
      var r := LeasedRow(w.rows[id], workerId, leaseSeconds, now);
      w.(rows := w.rows[id := r], issued := w.issued + {TokenOf(id, r, workerId)})
    case Renew(t, leaseSeconds, now) =>
      w.(rows := w.rows[t.eventId := RenewedRow(w.rows[t.eventId], leaseSeconds, now)])
    case Consume(t, now) =>
      w.(rows := w.rows[t.eventId := ProcessedRow(w.rows[t.eventId], now)],
         jobs := Consumed(w.jobs, t.eventId, t.eventType),
         effects := w.effects + multiset{t.eventId})
    case Fail(t, code, message, base, maximum, now) =>
      w.(rows := w.rows[t.eventId := FailedRow(w.rows[t.eventId], t.attemptCount, t.maxAttempts, code, message, base, maximum, now)])
    case Reconcile(id, _, now) =>
      w.(rows := w.rows[id := ReconciledRow(w.rows[id], now)])
    case EnqueueDirect(name, jobType) =>
      w.(jobs := Enqueued(w.jobs, Direct(name), jobType))
  }

  function Apply(w: World, s: Step): World {
    if Enabled(w, s) then Effect(w, s) else w
  }

  function Run(w: World, steps: seq<Step>): World
    decreases |steps|
  {
    if steps == [] then w else Run(Apply(w, steps[0]), steps[1..])
  }

  lemma {:induction false} RunAppend(w: World, a: seq<Step>, b: seq<Step>)
    ensures Run(w, a + b) == Run(Run(w, a), b)
    decreases |a|
  {
    if a == [] {
      assert a + b == b;
    } else {
      assert (a + b)[0] == a[0] && (a + b)[1..] == a[1..] + b;
      RunAppend(Apply(w, a[0]), a[1..], b);
    }
  }
}
