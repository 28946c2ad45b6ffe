/** The calls of `PromptService` in app/prompt_management/service.py, each read early and decided under the template lock. */
module PromptService {
  import opened Wrappers
  import opened Prompts

  /** A call's own copy is not touched by the steps of others. */
  lemma {:induction false} CopyStays(w: World, others: seq<Step>, call: CallId)
    requires call in w.copies && forall s :: s in others ==> s.call != call
    ensures call in Run(w, others).copies && Run(w, others).copies[call] == w.copies[call]
    decreases |others|
  {
    if others == [] {
    } else {
      assert others[0] in others && forall s :: s in others[1..] ==> s in others;
      CopyStays(Apply(w, others[0]), others[1..], call);
    }
  }

  /** Version rows are never deleted. */
  lemma {:induction false} VersionsStay(w: World, others: seq<Step>, id: VersionId)
    requires id in w.versions
    ensures id in Run(w, others).versions
    decreases |others|
  {
    if others == [] {
    } else {
      VersionsStay(Apply(w, others[0]), others[1..], id);
    }
  }

  class Service {
    var templateVersion: int
    var versions: map<VersionId, Version>
    var events: set<VersionId>
    ghost var copies: map<CallId, Read>
    ghost var history: seq<Activation>

    ghost function State(): World
      reads this
    {
      World(templateVersion, versions, copies, events, history)
    }

    ghost predicate Valid()
      reads this
    {
      Inv(State())
    }

    constructor ()
      ensures Valid() && State() == EMPTY
    {
      templateVersion, versions, events, copies, history := 1, map[], {}, map[], [];
    }

    method Become(w: World)
      modifies this
      ensures State() == w
    {
      templateVersion, versions, events, copies, history := w.templateVersion, w.versions, w.events, w.copies, w.history;
    }

    /** Transactions other callers commit meanwhile. */
    method Others(ghost others: seq<Step>, outcome: World)
      requires Valid() && outcome == Run(State(), others)
      modifies this
      ensures Valid() && State() == Run(old(State()), others)
    {
      RunKeepsInv(State(), others);
      Become(outcome);
    }

    /** `_version`: the row as it is before the lock. */
    method ReadVersionRow(ghost call: CallId, id: VersionId) returns (read: Option<Status>)
      requires Valid() && call !in copies
      modifies this`copies
      ensures Valid() && State() == Apply(old(State()), ReadVersion(call, id))
      ensures read == if id in versions then Some(versions[id].status) else None
    {
      StepKeepsInv(State(), ReadVersion(call, id));
      if id !in versions {
        return None;
      }
      copies := copies[call := VersionRead(id, versions[id].status)];
      return Some(versions[id].status);
    }

    /** An UPDATE of a version row. The partial unique index allows one ACTIVE row. */
    method Write(id: VersionId, v: Version)
      requires AtMostOneActive(versions[id := v])
      modifies this`versions
      ensures versions == old(versions)[id := v]
    {
      versions := versions[id := v];
    }

    /** `transition` once it holds the template lock. */
    method Move(ghost call: CallId, id: VersionId, read: Status, target: Status, expected: Status, actor: Actor)
      returns (answer: Answer)
      requires Valid() && IsManager(actor) && call in copies && copies[call] == VersionRead(id, read) && id in versions
      modifies this
      ensures Valid() && State() == Apply(old(State()), Transition(call, target, expected, actor))
      ensures answer == TransitionAnswer(read, target, expected, actor)
    {
      StepKeepsInv(State(), Transition(call, target, expected, actor));
      copies := copies - {call};
      if read != expected {
        return VersionChanged;
      }
      if !Edge(read, target) {
        return IllegalTransition;
      }
      var row := versions[id];
      if target == Approved {
        if actor.role == System {
          return SystemCannotApprove;
        }
        row := row.(approvedBy := Some(actor));
      }
      Write(id, row.(status := target));
      return Done;
    }

    /** The previous version is retired before this one becomes active, so the index never sees two. */
    method Promote(id: VersionId)
      requires AtMostOneActive(versions) && id in versions
      modifies this`versions
      ensures versions == Activated(old(versions), id)
    {
      if previous :| previous in versions && versions[previous].status == Active {
        assert ActiveVersion(versions) == Some(previous);
        if previous != id {
          Write(previous, versions[previous].(status := Retired));
        }
      }
      Write(id, versions[id].(status := Active));
    }

    /** `activate` once it holds the template lock. */
    method Enter(ghost call: CallId, id: VersionId, read: Status, expected: Status, expectedTemplate: int, actor: Actor)
      returns (answer: Answer)
      requires AtMostOneActive(versions) && IsManager(actor) && call in copies && copies[call] == VersionRead(id, read) && id in versions
      modifies this
      ensures State() == Apply(old(State()), Activate(call, expected, expectedTemplate, actor))
      ensures answer == ActivateAnswer(old(templateVersion), read, expected, expectedTemplate, actor)
    {
      copies := copies - {call};
      if templateVersion != expectedTemplate {
        return TemplateChanged;
      }
      if read != expected || !Activatable(read) {
        return NotActivatable;
      }
      Promote(id);
      templateVersion := templateVersion + 1;
      events := events + {id};
      history := history + [Activation(id, expectedTemplate)];
      return Done;
    }

    /** `transition`. */
    method TransitionTo(ghost call: CallId, id: VersionId, target: Status, expected: Status, actor: Actor,
                        ghost others: seq<Step>, outcome: World)
      returns (answer: Answer)
      requires Valid() && call !in copies && forall s :: s in others ==> s.call != call
      requires id in versions ==> outcome == Run(Apply(State(), ReadVersion(call, id)), others)
      modifies this
      ensures Valid()
      ensures answer == NotManager <==> !IsManager(actor)
      ensures answer == NotFound <==> IsManager(actor) && id !in old(versions)
      ensures answer == NotManager || answer == NotFound ==> State() == old(State())
      ensures answer != NotManager && answer != NotFound ==>
        answer == TransitionAnswer(old(versions)[id].status, target, expected, actor)
      ensures answer != NotManager && answer != NotFound ==>
        State() == Run(old(State()), [ReadVersion(call, id)] + others + [Transition(call, target, expected, actor)])
    {
      if !IsManager(actor) {
        return NotManager;
      }
      ghost var before := State();
      var read := ReadVersionRow(call, id);
      if read == None {
        return NotFound;
      }
      CallRun(before, ReadVersion(call, id), others, Transition(call, target, expected, actor));
      CopyStays(State(), others, call);
      VersionsStay(State(), others, id);
      Others(others, outcome);
      answer := Move(call, id, read.value, target, expected, actor);
    }

    /** `activate`. */
    method ActivateVersion(ghost call: CallId, id: VersionId, expected: Status, expectedTemplate: int, actor: Actor,
                           ghost others: seq<Step>, outcome: World)
      returns (answer: Answer)
      requires Valid() && call !in copies && forall s :: s in others ==> s.call != call
      requires id in versions ==> outcome == Run(Apply(State(), ReadVersion(call, id)), others)
      modifies this
      ensures Valid()
      ensures answer == NotManager <==> !IsManager(actor)
      ensures answer == NotFound <==> IsManager(actor) && id !in old(versions)
      ensures answer == NotManager || answer == NotFound ==> State() == old(State())
      ensures answer != NotManager && answer != NotFound ==>
        answer == ActivateAnswer(outcome.templateVersion, old(versions)[id].status, expected, expectedTemplate, actor)
      ensures answer != NotManager && answer != NotFound ==>
        State() == Run(old(State()), [ReadVersion(call, id)] + others + [Activate(call, expected, expectedTemplate, actor)])
    {
      if !IsManager(actor) {
        return NotManager;
      }
      ghost var before := State();
      var read := ReadVersionRow(call, id);
      if read == None {
        return NotFound;
      }
      CallRun(before, ReadVersion(call, id), others, Activate(call, expected, expectedTemplate, actor));
      CopyStays(State(), others, call);
      VersionsStay(State(), others, id);
      Others(others, outcome);
      StepKeepsInv(State(), Activate(call, expected, expectedTemplate, actor));
      answer := Enter(call, id, read.value, expected, expectedTemplate, actor);
    }

    /** `rollback`: the status it expects is the one it read, so only the template version can be out of date. */
    method Rollback(ghost call: CallId, id: VersionId, expectedTemplate: int, actor: Actor, ghost others: seq<Step>, outcome: World)
      returns (answer: Answer)
      requires Valid() && call !in copies && forall s :: s in others ==> s.call != call
      requires id in versions ==> outcome == Run(Apply(State(), ReadVersion(call, id)), others)
      modifies this
      ensures Valid()
      ensures id !in old(versions) ==> answer == NotFound
      ensures answer == Done ==> State() == Run(old(State()),
        [ReadVersion(call, id)] + others + [Activate(call, old(versions)[id].status, expectedTemplate, actor)])
      ensures answer == Done <==>
        id in old(versions) && IsManager(actor) && outcome.templateVersion == expectedTemplate && Activatable(old(versions)[id].status)
    {
      if id !in versions {
        return NotFound;
      }
      answer := ActivateVersion(call, id, versions[id].status, expectedTemplate, actor, others, outcome);
    }

    /** `create_version`: another call may take the number between the query and the insert. */
    method CreateVersion(ghost call: CallId, id: VersionId, number: nat, actor: Actor, ghost others: seq<Step>, outcome: World)
      returns (answer: Answer)
      requires Valid() && call !in copies && forall s :: s in others ==> s.call != call
      requires IsNextNumber(versions, number)
      requires outcome == Run(Apply(State(), ReadNextNumber(call, number)), others) && id !in outcome.versions
      modifies this
      ensures Valid()
      ensures answer == NotManager <==> !IsManager(actor)
      ensures answer == NotManager ==> State() == old(State())
      ensures answer != NotManager ==>
        State() == Run(old(State()), [ReadNextNumber(call, number)] + others + [Insert(call, id, actor)])
      ensures answer == Done <==> IsManager(actor) && !NumberTaken(outcome.versions, number)
    {
      if !IsManager(actor) {
        return NotManager;
      }
      ghost var before := State();
      StepKeepsInv(State(), ReadNextNumber(call, number));
      copies := copies[call := NumberRead(number)];
      CallRun(before, ReadNextNumber(call, number), others, Insert(call, id, actor));
      CopyStays(State(), others, call);
      Others(others, outcome);
      StepKeepsInv(State(), Insert(call, id, actor));
      copies := copies - {call};
      if NumberTaken(versions, number) {
        return DuplicateNumber;
      }
      versions := versions[id := Version(number, Draft, None)];
      return Done;
    }
  }

  lemma CallRun(w: World, first: Step, others: seq<Step>, last: Step)
    ensures Run(w, [first] + others + [last]) == Apply(Run(Apply(w, first), others), last)
  {
    assert ([first] + others)[0] == first && ([first] + others)[1..] == others;
    RunSnoc(w, [first] + others, last);
  }
}
