/** The writers of impact rows, each with what other transactions commit between its read and its write. */
module ImpactService {
  import opened Wrappers
  import opened Acceptance

  datatype Answer = Recorded | Invalid | AlreadyExists | NotPersisted

  lemma {:induction false} CopyStays(w: World, others: seq<Step>, call: CallId)
    requires Inv(w) && call in w.copies && forall s :: s in others ==> s.RecordImpact? || s.call != call
    ensures call in Run(w, others).copies && Run(w, others).copies[call] == w.copies[call]
    decreases |others|
  {
    if others == [] {
    } else {
      assert others[0] in others && forall s :: s in others[1..] ==> s in others;
      CopyStays(Apply(w, others[0]), others[1..], call);
    }
  }

  /** Rows are never deleted. */
  lemma {:induction false} RowsStay(w: World, steps: seq<Step>, task: TaskId)
    requires task in w.impacts
    ensures task in Run(w, steps).impacts
    decreases |steps|
  {
    if steps == [] {
    } else {
      RowsStay(Apply(w, steps[0]), steps[1..], task);
    }
  }

  lemma CallRun(w: World, first: Step, others: seq<Step>, last: Step)
    ensures Run(w, [first] + others + [last]) == Apply(Run(Apply(w, first), others), last)
  {
    assert ([first] + others)[0] == first && ([first] + others)[1..] == others;
    RunAppend(w, [first] + others, [last]);
    var v := Run(w, [first] + others);
    assert Run(v, [last]) == Run(Apply(v, last), []);
  }

  class Service {
    var impacts: map<TaskId, Impact>
    ghost var copies: map<CallId, Copy>

    ghost function State(): World
      reads this
    {
      World(impacts, copies)
    }

    ghost predicate Valid()
      reads this
    {
      Inv(State())
    }

    constructor ()
      ensures Valid() && State() == EMPTY
    {
      impacts, copies := map[], map[];
    }

    method Others(ghost others: seq<Step>, outcome: World)
      requires Valid() && outcome == Run(State(), others)
      modifies this
      ensures Valid() && State() == Run(old(State()), others)
    {
      RunKeepsInv(State(), others);
      impacts, copies := outcome.impacts, outcome.copies;
    }

    /** `record_impact`, one transaction. */
    method RecordTaskImpact(task: TaskId, fields: Fields, review: AssetReview) returns (answer: Answer)
      requires Valid()
      modifies this
      ensures Valid() && State() == Apply(old(State()), RecordImpact(task, fields, review))
      ensures answer == Invalid <==> !ValidFields(fields)
      ensures answer == AlreadyExists <==> ValidFields(fields) && task in old(impacts)
      ensures answer == Invalid || answer == AlreadyExists || answer == Recorded
    {
      if !ValidFields(fields) {
        return Invalid;
      }
      var accepted := fields.accepted;
      if accepted == None {
        match review {
          case AssetApproved => accepted := Some(true);
          case AssetRejected => accepted := Some(false);
          case _ =>
        }
      }
      NewImpactIsNeverRefused(fields, review);
      if task in impacts {
        return AlreadyExists;
      }
      impacts := impacts[task := Impact(accepted, fields.withoutEditing, fields.editingMinutes, fields.reworkCount)];
      return Recorded;
    }

    /** The flush and commit of a changed copy. */
    method Commit(ghost call: CallId, ghost change: Change, task: TaskId, copy: Option<Impact>, edited: Option<Impact>) returns (answer: Answer)
      requires Valid() && call in copies && copies[call] == Copy(task, copy) && ValidChange(change)
      requires edited == if copy == None then None else Some(Assigned(copy.value, change))
      modifies this
      ensures Valid() && State() == Apply(old(State()), Write(call, change))
      ensures answer == NotPersisted <==> ConstraintRefuses(old(State()), call, change)
      ensures answer == NotPersisted || answer == Recorded
    {
      copies := copies - {call};
      if copy == None {
        return Recorded;
      }
      var row := Merged(impacts[task], copy.value, edited.value);
      if !FirstPassOk(row) {
        return NotPersisted;
      }
      impacts := impacts[task := row];
      return Recorded;
    }

    /** The impact part of `record_feedback`. */
    method RecordFeedback(ghost call: CallId, task: TaskId, fields: Fields, ghost others: seq<Step>, outcome: World) returns (answer: Answer)
      requires Valid() && call !in copies && forall s :: s in others ==> s.RecordImpact? || s.call != call
      requires outcome == Run(Apply(State(), Read(call, task)), others)
      modifies this
      ensures Valid()
      ensures answer == Invalid <==> !ValidFields(fields)
      ensures answer == Invalid ==> State() == old(State())
      ensures answer != Invalid ==> State() == Run(old(State()), [Read(call, task)] + others + [Write(call, Feedback(fields))])
      ensures answer == Recorded || answer == Invalid || answer == NotPersisted
      ensures task in old(impacts) ==> task in outcome.impacts
      ensures answer == NotPersisted <==>
        ValidFields(fields) && task in old(impacts) && FeedbackOffends(old(impacts)[task], outcome.impacts[task], fields)
      ensures others == [] ==> answer != NotPersisted
      ensures others == [] && answer == Recorded && task in old(impacts) && fields.accepted != None ==> impacts == old(impacts)[task := fields]
    {
      if task in impacts {
        RowsStay(Apply(State(), Read(call, task)), others, task);
      }
      if !ValidFields(fields) {
        return Invalid;
      }
      ghost var before := State();
      var copy := if task in impacts then Some(impacts[task]) else None;
      copies := copies[call := Copy(task, copy)];
      var edited := copy;
      if copy.Some? && fields.accepted != None {
        edited := Some(copy.value.(accepted := fields.accepted, withoutEditing := fields.withoutEditing,
                                     editingMinutes := fields.editingMinutes, reworkCount := fields.reworkCount));
      }
      CallRun(before, Read(call, task), others, Write(call, Feedback(fields)));
      CopyStays(State(), others, call);
      Others(others, outcome);
      if copy.Some? {
        FeedbackIsRefusedIff(State(), call, fields);
        if others == [] {
          CurrentCopyIsNeverRefused(State(), call, Feedback(fields));
        }
      }
      answer := Commit(call, Feedback(fields), task, copy, edited);
    }

    /** The impact part of `review`. */
    method RecordReview(ghost call: CallId, task: TaskId, approve: bool, ghost others: seq<Step>, outcome: World) returns (answer: Answer)
      requires Valid() && call !in copies && forall s :: s in others ==> s.RecordImpact? || s.call != call
      requires outcome == Run(Apply(State(), Read(call, task)), others)
      modifies this
      ensures Valid()
      ensures State() == Run(old(State()), [Read(call, task)] + others + [Write(call, Review(approve))])
      ensures answer == Recorded || answer == NotPersisted
      ensures task in old(impacts) ==> task in outcome.impacts
      ensures answer == NotPersisted <==> task in old(impacts) && ReviewOffends(old(impacts)[task], outcome.impacts[task], approve)
      ensures answer == NotPersisted ==> !approve && task in old(impacts) && others != []
      ensures others == [] && task in old(impacts) ==>
        impacts == old(impacts)[task := Assigned(old(impacts)[task], Review(approve))]
    {
      ghost var before := State();
      var copy := if task in impacts then Some(impacts[task]) else None;
      copies := copies[call := Copy(task, copy)];
      var edited := copy;
      if copy.Some? {
        edited := Some(copy.value.(accepted := Some(approve)));
        if !approve {
          edited := Some(edited.value.(withoutEditing := false));
        }
      }
      CallRun(before, Read(call, task), others, Write(call, Review(approve)));
      CopyStays(State(), others, call);
      Others(others, outcome);
      if copy.Some? {
        ReviewIsRefusedIff(State(), call, approve);
        if others == [] {
          CurrentCopyIsNeverRefused(State(), call, Review(approve));
        }
      }
      answer := Commit(call, Review(approve), task, copy, edited);
    }
  }
}
