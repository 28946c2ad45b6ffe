/**
 Managed prompt versions of one template, app/prompt_management/service.py. A call reads its version row before it takes
 the template lock, so its copy of the status may be old when the rest of the call runs; the template row and the search
 for the active version come after the lock and are current.
 */
module Prompts {
  import opened Wrappers

  type VersionId = nat
  type CallId = nat

  datatype Role = Marketing | Reviewer | Manager | Admin | System

  datatype Actor = Actor(id: string, role: Role)

  datatype Status = Draft | Testing | Approved | Active | Retired

  datatype Version = Version(number: nat, status: Status, approvedBy: Option<Actor>)

  /** What a call in progress has read without a lock. */
  datatype Read = VersionRead(id: VersionId, status: Status) | NumberRead(number: nat)

  datatype Activation = Activation(id: VersionId, expected: int)

  /** `events` are the activation events in the outbox, `history` the committed activations in order. */
  datatype World = World(
    templateVersion: int,
    versions: map<VersionId, Version>,
    copies: map<CallId, Read>,
    events: set<VersionId>,
    history: seq<Activation>)

  const EMPTY := World(1, map[], map[], {}, [])

  datatype Step =
    | ReadVersion(call: CallId, id: VersionId)
    | ReadNextNumber(call: CallId, number: nat)
    | Insert(call: CallId, id: VersionId, actor: Actor)
    | Transition(call: CallId, target: Status, expected: Status, actor: Actor)
    | Activate(call: CallId, expected: Status, expectedTemplate: int, actor: Actor)

  datatype Answer =
    | Done | NotManager | NotFound | VersionChanged | IllegalTransition | SystemCannotApprove | TemplateChanged
    | NotActivatable | DuplicateNumber

  predicate IsManager(a: Actor) {
    a.role == Manager || a.role == Admin
  }

  /** The state machine of a version outside activation. */
  predicate Edge(current: Status, target: Status) {
    || (target == Testing && current == Draft)
    || (target == Approved && current == Testing)
    || (target == Retired && current == Active)
  }

  predicate Activatable(s: Status) {
    s == Approved || s == Retired
  }

  function TransitionAnswer(read: Status, target: Status, expected: Status, actor: Actor): Answer {
    if !IsManager(actor) then NotManager
    else if read != expected then VersionChanged
    else if !Edge(read, target) then IllegalTransition
    else if target == Approved && actor.role == System then SystemCannotApprove
    else Done
  }

  function ActivateAnswer(templateVersion: int, read: Status, expected: Status, expectedTemplate: int, actor: Actor): Answer {
    if !IsManager(actor) then NotManager
    else if templateVersion != expectedTemplate then TemplateChanged
    else if read != expected || !Activatable(read) then NotActivatable
    else Done
  }

  predicate NumberTaken(versions: map<VersionId, Version>, n: nat) {
    exists id :: id in versions && versions[id].number == n
  }

  /** `max(number) + 1`, or 1. */
  ghost predicate IsNextNumber(versions: map<VersionId, Version>, n: nat) {
    && n >= 1
    && (forall id :: id in versions ==> versions[id].number < n)
    && (n > 1 ==> NumberTaken(versions, n - 1))
  }

  /** Some version with status ACTIVE, as the unordered query finds it. */
  ghost function ActiveVersion(versions: map<VersionId, Version>): Option<VersionId> {
    if id :| id in versions && versions[id].status == Active then Some(id) else None
  }

  ghost predicate HasRead(w: World, call: CallId) {
    call in w.copies && w.copies[call].VersionRead? && w.copies[call].id in w.versions
  }

  ghost predicate Commits(w: World, s: Step) {
    match s
    case ReadVersion(call, id) => call !in w.copies && id in w.versions
    case ReadNextNumber(call, number) => call !in w.copies && IsNextNumber(w.versions, number)
    case Insert(call, id, actor) =>
      && IsManager(actor) && call in w.copies && w.copies[call].NumberRead? && id !in w.versions
      && !NumberTaken(w.versions, w.copies[call].number)
    case Transition(call, target, expected, actor) =>
      HasRead(w, call) && TransitionAnswer(w.copies[call].status, target, expected, actor) == Done
    case Activate(call, expected, expectedTemplate, actor) =>
      HasRead(w, call) && ActivateAnswer(w.templateVersion, w.copies[call].status, expected, expectedTemplate, actor) == Done
  }

  function Moved(v: Version, target: Status, actor: Actor): Version {
    v.(status := target, approvedBy := if target == Approved then Some(actor) else v.approvedBy)
  }

  /** Versions after `id` is activated: only the one other active version found is retired. */
  ghost function Activated(versions: map<VersionId, Version>, id: VersionId): map<VersionId, Version>
    requires id in versions
  {
    var previous := ActiveVersion(versions);
    var others := if previous.Some? && previous.value != id
                  then versions[previous.value := versions[previous.value].(status := Retired)] else versions;
    others[id := others[id].(status := Active)]
  }

  ghost function Effect(w: World, s: Step): World
    requires Commits(w, s)
  {
    match s
    case ReadVersion(call, id) => w.(copies := w.copies[call := VersionRead(id, w.versions[id].status)])
    case ReadNextNumber(call, number) => w.(copies := w.copies[call := NumberRead(number)])
    case Insert(call, id, actor) =>
      w.(versions := w.versions[id := Version(w.copies[call].number, Draft, None)], copies := w.copies - {call})
    case Transition(call, target, expected, actor) =>
      var id := w.copies[call].id;
      w.(versions := w.versions[id := Moved(w.versions[id], target, actor)], copies := w.copies - {call})
    case Activate(call, expected, expectedTemplate, actor) =>
      var id := w.copies[call].id;
      w.(templateVersion := w.templateVersion + 1, versions := Activated(w.versions, id), copies := w.copies - {call},
         events := w.events + {id}, history := w.history + [Activation(id, expectedTemplate)])
  }

  /** A refused call rolls back, and its read is over. */
  ghost function Apply(w: World, s: Step): World {
    if Commits(w, s) then Effect(w, s)
    else if s.ReadVersion? || s.ReadNextNumber? then w
    else w.(copies := w.copies - {s.call})
  }

  ghost function Run(w: World, steps: seq<Step>): World
    decreases |steps|
  {
    if steps == [] then w else Run(Apply(w, steps[0]), steps[1..])
  }

  lemma {:induction false} RunAppend(w: World, a: seq<Step>, b: seq<Step>)
    ensures Run(w, a + b) == Run(Run(w, a), b)
    decreases |a|
  {
    if a == [] {
      assert a + b == b;
    } else {
      assert (a + b)[0] == a[0] && (a + b)[1..] == a[1..] + b;
      RunAppend(Apply(w, a[0]), a[1..], b);
    }
  }

  lemma RunSnoc(w: World, steps: seq<Step>, s: Step)
    ensures Run(w, steps + [s]) == Apply(Run(w, steps), s)
  {
    RunAppend(w, steps, [s]);
    assert Run(Run(w, steps), [s]) == Run(Apply(Run(w, steps), s), []);
  }

  // ----- the inductive invariant

  /** An active version is the one activated last. */
  ghost predicate ActiveIsNewest(w: World) {
    forall id :: id in w.versions && w.versions[id].status == Active ==> w.history != [] && w.history[|w.history| - 1].id == id
  }

  predicate NeedsApproval(s: Status) {
    s == Approved || s == Active || s == Retired
  }

  ghost predicate HasApproval(v: Version) {
    v.approvedBy.Some? && IsManager(v.approvedBy.value)
  }

  /** Whatever has or was read with a status past testing has a human approval. */
  ghost predicate ApprovalsOk(w: World) {
    && (forall id :: id in w.versions && (NeedsApproval(w.versions[id].status) || w.versions[id].approvedBy.Some?)
                     ==> HasApproval(w.versions[id]))
    && (forall c :: c in w.copies && w.copies[c].VersionRead? && NeedsApproval(w.copies[c].status)
                    ==> w.copies[c].id in w.versions && HasApproval(w.versions[w.copies[c].id]))
  }

  ghost predicate HistoryOk(w: World) {
    && w.templateVersion == 1 + |w.history|
    && (forall i :: 0 <= i < |w.history| ==> w.history[i].expected == 1 + i)
    && (forall id :: id in w.events <==> exists i :: 0 <= i < |w.history| && w.history[i].id == id)
  }

  ghost predicate NoGaps(versions: map<VersionId, Version>) {
    forall n: nat, m: nat :: 1 <= n < m && NumberTaken(versions, m) ==> NumberTaken(versions, n)
  }

  ghost predicate NumbersOk(w: World) {
    && (forall id :: id in w.versions ==> w.versions[id].number >= 1)
    && (forall a, b :: a in w.versions && b in w.versions && w.versions[a].number == w.versions[b].number ==> a == b)
    && NoGaps(w.versions)
    && NumberCopiesOk(w)
  }

  ghost predicate Inv(w: World) {
    ActiveIsNewest(w) && ApprovalsOk(w) && HistoryOk(w) && NumbersOk(w)
  }

  ghost predicate AtMostOneActive(versions: map<VersionId, Version>) {
    forall a, b :: a in versions && b in versions && versions[a].status == Active && versions[b].status == Active ==> a == b
  }

  lemma NumbersStay(a: map<VersionId, Version>, b: map<VersionId, Version>, n: nat)
    requires forall id :: id in a ==> id in b && b[id].number == a[id].number
    ensures NumberTaken(a, n) ==> NumberTaken(b, n)
  {
    if NumberTaken(a, n) {
      var id :| id in a && a[id].number == n;
      assert id in b && b[id].number == n;
    }
  }

  lemma SameNumbers(a: map<VersionId, Version>, b: map<VersionId, Version>)
    requires a.Keys == b.Keys && forall id :: id in a ==> b[id].number == a[id].number
    ensures forall n: nat :: NumberTaken(a, n) <==> NumberTaken(b, n)
  {
    forall n: nat ensures NumberTaken(a, n) <==> NumberTaken(b, n) {
      NumbersStay(a, b, n);
      NumbersStay(b, a, n);
    }
  }

  /** A new row with the next number leaves no gap. */
  lemma NextNumberLeavesNoGap(a: map<VersionId, Version>, id: VersionId, v: Version)
    requires id !in a && NoGaps(a) && (v.number > 1 ==> NumberTaken(a, v.number - 1))
    ensures NoGaps(a[id := v])
  {
    var b := a[id := v];
    forall n: nat, m: nat | 1 <= n < m && NumberTaken(b, m) ensures NumberTaken(b, n) {
      var u :| u in b && b[u].number == m;
      if u == id {
        assert NumberTaken(a, v.number - 1) && (n < v.number - 1 ==> NumberTaken(a, n));
      } else {
        assert u in a && a[u].number == m;
        assert NumberTaken(a, m) && NumberTaken(a, n);
      }
      NumbersStay(a, b, n);
    }
  }

  ghost predicate NumberCopiesOk(w: World) {
    forall c :: c in w.copies && w.copies[c].NumberRead?
                ==> w.copies[c].number >= 1 && (w.copies[c].number > 1 ==> NumberTaken(w.versions, w.copies[c].number - 1))
  }

  lemma NumbersCarryOver(w: World, v: World)
    requires NumbersOk(w)
    requires v.versions.Keys == w.versions.Keys && forall id :: id in w.versions ==> v.versions[id].number == w.versions[id].number
    requires forall c :: c in v.copies && v.copies[c].NumberRead?
                         ==> (c in w.copies && v.copies[c] == w.copies[c]) || IsNextNumber(w.versions, v.copies[c].number)
    ensures NumbersOk(v)
  {
    SameNumbers(w.versions, v.versions);
  }

  lemma InsertKeepsNumbers(w: World, call: CallId, id: VersionId, row: Version)
    requires NumbersOk(w) && call in w.copies && w.copies[call] == NumberRead(row.number)
    requires id !in w.versions && !NumberTaken(w.versions, row.number)
    ensures NumbersOk(w.(versions := w.versions[id := row], copies := w.copies - {call}))
  {
    NextNumberLeavesNoGap(w.versions, id, row);
    assert forall u :: u in w.versions ==> w.versions[u].number != row.number;
    forall n: nat ensures NumberTaken(w.versions, n) ==> NumberTaken(w.versions[id := row], n) {
      NumbersStay(w.versions, w.versions[id := row], n);
    }
  }

  lemma StepKeepsNumbers(w: World, s: Step)
    requires NumbersOk(w)
    ensures NumbersOk(Apply(w, s))
  {
    if s.Insert? && Commits(w, s) {
      InsertKeepsNumbers(w, s.call, s.id, Version(w.copies[s.call].number, Draft, None));
    } else {
      NumbersCarryOver(w, Apply(w, s));
    }
  }

  lemma StepKeepsApprovals(w: World, s: Step)
    requires ApprovalsOk(w)
    ensures ApprovalsOk(Apply(w, s))
  {
  }

  lemma StepKeepsHistory(w: World, s: Step)
    requires HistoryOk(w)
    ensures HistoryOk(Apply(w, s))
  {
    if s.Activate? && Commits(w, s) {
      var v := Apply(w, s);
      forall id ensures id in v.events <==> exists i :: 0 <= i < |v.history| && v.history[i].id == id {
        assert v.history[|w.history|].id == w.copies[s.call].id;
        if id in w.events {
          var i :| 0 <= i < |w.history| && w.history[i].id == id;
          assert v.history[i].id == id;
        }
      }
    }
  }

  lemma StepKeepsActiveNewest(w: World, s: Step)
    requires ActiveIsNewest(w)
    ensures ActiveIsNewest(Apply(w, s))
  {
  }

  lemma StepKeepsInv(w: World, s: Step)
    requires Inv(w)
    ensures Inv(Apply(w, s))
  {
    StepKeepsNumbers(w, s);
    StepKeepsApprovals(w, s);
    StepKeepsHistory(w, s);
    StepKeepsActiveNewest(w, s);
  }

  lemma {:induction false} RunKeepsInv(w: World, steps: seq<Step>)
    requires Inv(w)
    ensures Inv(Run(w, steps))
    decreases |steps|
  {
    if steps == [] {
    } else {
      StepKeepsInv(w, steps[0]);
      RunKeepsInv(Apply(w, steps[0]), steps[1..]);
    }
  }

  // ----- what it gives

  /** However calls overlap, at most one version is active, and it is the one whose activation committed last. */
  lemma ActiveVersionIsUnique(steps: seq<Step>)
    ensures var w := Run(EMPTY, steps);
      && AtMostOneActive(w.versions)
      && forall id :: id in w.versions && w.versions[id].status == Active ==> w.history != [] && w.history[|w.history| - 1].id == id
  {
    RunKeepsInv(EMPTY, steps);
  }

  /** The template version counts committed activations, and no two of them expected the same one. */
  lemma OneActivationPerTemplateVersion(steps: seq<Step>)
    ensures var w := Run(EMPTY, steps);
      && w.templateVersion == 1 + |w.history|
      && forall i, j :: 0 <= i < j < |w.history| ==> w.history[i].expected < w.history[j].expected
  {
    RunKeepsInv(EMPTY, steps);
  }

  /** An active or retired version was approved by a manager or admin, never by the system, and so was an approved one. */
  lemma LiveVersionsWereApproved(steps: seq<Step>, id: VersionId)
    requires var w := Run(EMPTY, steps); id in w.versions && NeedsApproval(w.versions[id].status)
    ensures var v := Run(EMPTY, steps).versions[id]; v.approvedBy.Some? && v.approvedBy.value.role in {Manager, Admin}
  {
    RunKeepsInv(EMPTY, steps);
  }

  /** The check against SYSTEM approvals never fires: such an actor is refused before. */
  lemma SystemIsRefusedEarlier(read: Status, target: Status, expected: Status, actor: Actor)
    ensures TransitionAnswer(read, target, expected, actor) != SystemCannotApprove
    ensures actor.role == System ==> TransitionAnswer(read, target, expected, actor) == NotManager
  {
  }

  /** The outbox holds one event for each version ever activated, so activating a version again announces nothing. */
  lemma ReactivationIsSilent(steps: seq<Step>, s: Step)
    requires s.Activate? && Commits(Run(EMPTY, steps), s)
    ensures var w := Run(EMPTY, steps);
      Apply(w, s).events == w.events <==> exists i :: 0 <= i < |w.history| && w.history[i].id == w.copies[s.call].id
  {
    RunKeepsInv(EMPTY, steps);
  }

  /** Version numbers are 1, 2, ... without gap or repetition, although `next_version` takes no lock. */
  lemma VersionsAreNumberedFromOne(steps: seq<Step>, id: VersionId, n: nat)
    requires id in Run(EMPTY, steps).versions && 1 <= n <= Run(EMPTY, steps).versions[id].number
    ensures var versions := Run(EMPTY, steps).versions;
      exists v :: v in versions && versions[v].number == n && forall u :: u in versions && versions[u].number == n ==> u == v
  {
    var w := Run(EMPTY, steps);
    RunKeepsInv(EMPTY, steps);
    assert NumberTaken(w.versions, w.versions[id].number) && NumberTaken(w.versions, n);
    var v :| v in w.versions && w.versions[v].number == n;
    assert forall u :: u in w.versions && w.versions[u].number == n ==> u == v;
  }

  // ----- what needs atomic calls

  /** The status the call read is still the row's. */
  ghost predicate Fresh(w: World, s: Step) {
    (s.Transition? || s.Activate?) && HasRead(w, s.call) ==> w.versions[w.copies[s.call].id].status == w.copies[s.call].status
  }

  /** A committed transition follows an edge of the status machine exactly when what it read is still true. */
  lemma TransitionIsLegalIff(w: World, s: Step)
    requires s.Transition? && Commits(w, s)
    ensures Edge(w.versions[w.copies[s.call].id].status, s.target) <==> Fresh(w, s)
  {
  }

  function Rank(s: Status): nat {
    match s
    case Draft => 0
    case Testing => 1
    case Approved => 2
    case _ => 3
  }

  ghost predicate AllFresh(w: World, steps: seq<Step>)
    decreases |steps|
  {
    steps != [] ==> Fresh(w, steps[0]) && AllFresh(Apply(w, steps[0]), steps[1..])
  }

  /** With atomic calls no version ever goes back to an earlier stage. */
  lemma {:induction false} AtomicCallsNeverGoBack(w: World, steps: seq<Step>, id: VersionId)
    requires AllFresh(w, steps) && id in w.versions
    ensures id in Run(w, steps).versions && Rank(Run(w, steps).versions[id].status) >= Rank(w.versions[id].status)
    decreases |steps|
  {
    if steps == [] {
    } else {
      AtomicCallsNeverGoBack(Apply(w, steps[0]), steps[1..], id);
    }
  }

  /** The life of a version up to its approval, while another call holds on to the DRAFT it read at the start. */
  function Overtaken(id: VersionId, a: CallId, b: CallId, human: Actor): seq<Step> {
    [ReadNextNumber(a, 1), Insert(a, id, human), ReadVersion(b, id), ReadVersion(a, id), Transition(a, Testing, Draft, human),
     ReadVersion(a, id), Transition(a, Approved, Testing, human)]
  }

  /** Up to the point where both calls have read the draft. */
  lemma BothReadDraft(id: VersionId, a: CallId, b: CallId, human: Actor)
    requires a != b && IsManager(human)
    ensures var w := Run(EMPTY, Overtaken(id, a, b, human)[..4]);
      && w.versions == map[id := Version(1, Draft, None)]
      && w.copies == map[b := VersionRead(id, Draft), a := VersionRead(id, Draft)]
  {
    var s := Overtaken(id, a, b, human)[..4];
    var w1 := Apply(EMPTY, s[0]);
    assert IsNextNumber(map[], 1) && w1.copies == map[a := NumberRead(1)];
    var w2 := Apply(w1, s[1]);
    assert w2.versions == map[id := Version(1, Draft, None)] && w2.copies == map[];
    assert s[1..][1..] == [s[2], s[3]] && [s[2], s[3]][1..] == [s[3]];
    assert Run(EMPTY, s) == Run(w1, s[1..]) == Run(w2, [s[2], s[3]]);
    var w3 := Apply(w2, s[2]);
    assert Run(w2, [s[2], s[3]]) == Run(w3, [s[3]]) == Run(Apply(w3, s[3]), []);
  }

  /** One of the calls carries on to the approval. */
  lemma OvertakenRun(id: VersionId, a: CallId, b: CallId, human: Actor)
    requires a != b && IsManager(human)
    ensures var w := Run(EMPTY, Overtaken(id, a, b, human));
      w.versions == map[id := Version(1, Approved, Some(human))] && w.copies == map[b := VersionRead(id, Draft)]
  {
    var steps := Overtaken(id, a, b, human);
    BothReadDraft(id, a, b, human);
    RunAppend(EMPTY, steps[..4], steps[4..]);
    assert steps == steps[..4] + steps[4..];
    var w4, s := Run(EMPTY, steps[..4]), steps[4..];
    var w5 := Apply(w4, s[0]);
    assert w5.versions == map[id := Version(1, Testing, None)] && w5.copies == map[b := VersionRead(id, Draft)];
    assert s == [steps[4], steps[5], steps[6]] && s[1..] == [s[1], s[2]] && [s[1], s[2]][1..] == [s[2]];
    var w6 := Apply(w5, s[1]);
    assert Run(w4, s) == Run(w5, [s[1], s[2]]) == Run(w6, [s[2]]) == Run(Apply(w6, s[2]), []);
  }

  /** Overlapping calls do send one back: a submission that read DRAFT lands after the approval and undoes it. */
  lemma StaleTransitionUndoesApproval(id: VersionId, a: CallId, b: CallId, human: Actor)
    requires a != b && IsManager(human)
    ensures var w := Run(EMPTY, Overtaken(id, a, b, human)); var late := Transition(b, Testing, Draft, human);
      id in w.versions && w.versions[id].status == Approved && Commits(w, late) && Apply(w, late).versions[id].status == Testing
  {
    OvertakenRun(id, a, b, human);
  }

  // ----- the state machine, move by move

  /** A transition commits exactly for a manager or admin who named the status read, along one of three moves. */
  lemma TransitionsByTable(read: Status, target: Status, expected: Status, actor: Actor)
    ensures TransitionAnswer(read, target, expected, actor) == Done <==>
      (actor.role == Manager || actor.role == Admin) && read == expected
      && ((read == Draft && target == Testing) || (read == Testing && target == Approved) || (read == Active && target == Retired))
    ensures TransitionAnswer(read, target, expected, actor) == NotManager <==> actor.role != Manager && actor.role != Admin
    ensures TransitionAnswer(read, target, expected, actor) == VersionChanged ==> read != expected
    ensures TransitionAnswer(read, target, expected, actor) == IllegalTransition ==> read == expected
  {
  }

  /** An activation commits exactly for a manager or admin who knew the template's version and named the status read, APPROVED or RETIRED. */
  lemma ActivationsByTable(templateVersion: int, read: Status, expected: Status, expectedTemplate: int, actor: Actor)
    ensures ActivateAnswer(templateVersion, read, expected, expectedTemplate, actor) == Done <==>
      (actor.role == Manager || actor.role == Admin) && templateVersion == expectedTemplate && read == expected
      && (read == Approved || read == Retired)
    ensures ActivateAnswer(templateVersion, read, expected, expectedTemplate, actor) == NotManager <==> actor.role != Manager && actor.role != Admin
    ensures ActivateAnswer(templateVersion, read, expected, expectedTemplate, actor) == TemplateChanged ==> templateVersion != expectedTemplate
    ensures ActivateAnswer(templateVersion, read, expected, expectedTemplate, actor) == NotActivatable ==> templateVersion == expectedTemplate
  {
  }

  /** A committed transition moves its version, names the approver of an approval, and touches nothing else. */
  lemma TransitionMoves(w: World, s: Step)
    requires s.Transition? && Commits(w, s)
    ensures var v, id := Apply(w, s), w.copies[s.call].id;
      && id in v.versions && v.versions[id].status == s.target && v.versions[id].number == w.versions[id].number
      && v.versions[id].approvedBy == (if s.target == Approved then Some(s.actor) else w.versions[id].approvedBy)
      && (forall o :: o != id ==> (o in v.versions <==> o in w.versions) && (o in w.versions ==> v.versions[o] == w.versions[o]))
      && v.templateVersion == w.templateVersion && v.events == w.events && v.history == w.history
  {
  }

  /** A committed activation makes its version the active one, retires the one before, and touches no other. */
  lemma ActivationMoves(steps: seq<Step>, s: Step, o: VersionId)
    requires s.Activate? && Commits(Run(EMPTY, steps), s) && o in Run(EMPTY, steps).versions
    ensures var w := Run(EMPTY, steps); var v, id := Apply(w, s), w.copies[s.call].id;
      && o in v.versions && v.versions[o].number == w.versions[o].number && v.versions[o].approvedBy == w.versions[o].approvedBy
      && (o == id ==> v.versions[o].status == Active)
      && (o != id && w.versions[o].status == Active ==> v.versions[o].status == Retired)
      && (o != id && w.versions[o].status != Active ==> v.versions[o].status == w.versions[o].status)
      && v.templateVersion == w.templateVersion + 1 && v.events == w.events + {id} && v.history == w.history + [Activation(id, w.templateVersion)]
  {
    RunKeepsInv(EMPTY, steps);
  }

  /** A new version is a draft of the number read, without approval. */
  lemma InsertionDrafts(w: World, s: Step)
    requires s.Insert? && Commits(w, s)
    ensures Apply(w, s).versions == w.versions[s.id := Version(w.copies[s.call].number, Draft, None)]
    ensures s.actor.role == Manager || s.actor.role == Admin
  {
  }

  /** At some moment of the run the version has this status. */
  ghost predicate AtSomeMoment(w: World, steps: seq<Step>, id: VersionId, status: Status)
    decreases |steps|
  {
    (id in w.versions && w.versions[id].status == status) || (steps != [] && AtSomeMoment(Apply(w, steps[0]), steps[1..], id, status))
  }

  /** With atomic calls no version is approved, activated or retired without having been in testing. */
  lemma {:induction false} ApprovalNeedsTesting(w: World, steps: seq<Step>, id: VersionId)
    requires AllFresh(w, steps) && (id in w.versions ==> w.versions[id].status == Draft || w.versions[id].status == Testing)
    requires id in Run(w, steps).versions && NeedsApproval(Run(w, steps).versions[id].status)
    ensures AtSomeMoment(w, steps, id, Testing)
    decreases |steps|
  {
    if steps != [] && !(id in w.versions && w.versions[id].status == Testing) {
      ApprovalNeedsTesting(Apply(w, steps[0]), steps[1..], id);
    }
  }

  // ----- reactivation, reached

  /** The template with one version and no call in progress. */
  predicate Alone(w: World, id: VersionId, v: Version) {
    w.versions == map[id := v] && w.copies == map[]
  }

  lemma TwoSteps(w: World, s: Step, t: Step)
    ensures Run(w, [s, t]) == Apply(Apply(w, s), t)
  {
    assert [s, t][1..] == [t];
    assert Run(w, [s, t]) == Run(Apply(w, s), [t]) == Run(Apply(Apply(w, s), t), []);
  }

  lemma MovesAlone(w: World, id: VersionId, v: Version, a: CallId, target: Status, human: Actor)
    requires Alone(w, id, v) && Edge(v.status, target) && IsManager(human)
    ensures Run(w, [ReadVersion(a, id), Transition(a, target, v.status, human)]) == w.(versions := map[id := Moved(v, target, human)])
  {
    TwoSteps(w, ReadVersion(a, id), Transition(a, target, v.status, human));
    var u := Apply(w, ReadVersion(a, id));
    assert u.copies - {a} == map[];
  }

  lemma ActivatesAlone(w: World, id: VersionId, v: Version, a: CallId, human: Actor)
    requires Alone(w, id, v) && Activatable(v.status) && IsManager(human)
    ensures Run(w, [ReadVersion(a, id), Activate(a, v.status, w.templateVersion, human)])
         == World(w.templateVersion + 1, map[id := v.(status := Active)], map[], w.events + {id},
                  w.history + [Activation(id, w.templateVersion)])
  {
    TwoSteps(w, ReadVersion(a, id), Activate(a, v.status, w.templateVersion, human));
    var u := Apply(w, ReadVersion(a, id));
    assert u.copies - {a} == map[] && ActiveVersion(u.versions) == None;
  }

  lemma CreatesAlone(id: VersionId, a: CallId, human: Actor)
    requires IsManager(human)
    ensures Run(EMPTY, [ReadNextNumber(a, 1), Insert(a, id, human)]) == EMPTY.(versions := map[id := Version(1, Draft, None)])
  {
    TwoSteps(EMPTY, ReadNextNumber(a, 1), Insert(a, id, human));
    assert IsNextNumber(map[], 1);
    assert Apply(EMPTY, ReadNextNumber(a, 1)).copies - {a} == map[];
  }

  /** A version's life up to its approval, and from there to its retirement. */
  function Youth(id: VersionId, a: CallId, human: Actor): seq<Step> {
    [ReadNextNumber(a, 1), Insert(a, id, human)] + [ReadVersion(a, id), Transition(a, Testing, Draft, human)]
    + [ReadVersion(a, id), Transition(a, Approved, Testing, human)]
  }

  function Life(id: VersionId, a: CallId, human: Actor): seq<Step> {
    Youth(id, a, human) + [ReadVersion(a, id), Activate(a, Approved, 1, human)] + [ReadVersion(a, id), Transition(a, Retired, Active, human)]
  }

  lemma YouthRun(id: VersionId, a: CallId, human: Actor)
    requires IsManager(human)
    ensures Run(EMPTY, Youth(id, a, human)) == World(1, map[id := Version(1, Approved, Some(human))], map[], {}, [])
  {
    var p1 := [ReadNextNumber(a, 1), Insert(a, id, human)];
    var p2, p3 := [ReadVersion(a, id), Transition(a, Testing, Draft, human)], [ReadVersion(a, id), Transition(a, Approved, Testing, human)];
    CreatesAlone(id, a, human);
    RunAppend(EMPTY, p1, p2);
    MovesAlone(Run(EMPTY, p1), id, Version(1, Draft, None), a, Testing, human);
    RunAppend(EMPTY, p1 + p2, p3);
    MovesAlone(Run(EMPTY, p1 + p2), id, Version(1, Testing, None), a, Approved, human);
  }

  lemma LifeRun(id: VersionId, a: CallId, human: Actor)
    requires IsManager(human)
    ensures Run(EMPTY, Life(id, a, human))
         == World(2, map[id := Version(1, Retired, Some(human))], map[], {id}, [Activation(id, 1)])
  {
    var youth := Youth(id, a, human);
    var p4, p5 := [ReadVersion(a, id), Activate(a, Approved, 1, human)], [ReadVersion(a, id), Transition(a, Retired, Active, human)];
    YouthRun(id, a, human);
    RunAppend(EMPTY, youth, p4);
    ActivatesAlone(Run(EMPTY, youth), id, Version(1, Approved, Some(human)), a, human);
    RunAppend(EMPTY, youth + p4, p5);
    MovesAlone(Run(EMPTY, youth + p4), id, Version(1, Active, Some(human)), a, Retired, human);
  }

  /** A retired version is rolled back to: the template version counts it, the outbox does not hear of it. */
  lemma ReactivationAddsNoEvent(id: VersionId, a: CallId, human: Actor)
    requires IsManager(human)
    ensures var w := Run(EMPTY, Life(id, a, human));
      var v := Run(EMPTY, Life(id, a, human) + [ReadVersion(a, id), Activate(a, Retired, 2, human)]);
      v.templateVersion == w.templateVersion + 1 && |v.history| == 2 && v.events == w.events == {id}
  {
    LifeRun(id, a, human);
    RunAppend(EMPTY, Life(id, a, human), [ReadVersion(a, id), Activate(a, Retired, 2, human)]);
    ActivatesAlone(Run(EMPTY, Life(id, a, human)), id, Version(1, Retired, Some(human)), a, human);
  }
}
