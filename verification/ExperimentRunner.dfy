/** `PromptExperimentRunner` of app/prompt_management/runners.py, over the rows it reads and writes. */
module ExperimentRunner {
  import opened Wrappers
  import opened Selection
  import opened Experiments

  datatype Exit = Returned | Interrupted | InputsUnavailable

  predicate Over(s: Status) {
    s == Completed || s == Cancelled
  }

  class Runner {
    const cases: seq<CaseId>
    const executor: Executor
    var status: Status
    var rows: Rows
    var result: Option<Report>
    var completedEvent: bool

    function State(): Experiment
      reads this
    {
      Experiment(status, rows, result, completedEvent)
    }

    constructor (cases: seq<CaseId>, executor: Executor)
      ensures this.cases == cases && this.executor == executor && State() == NEW
    {
      this.cases, this.executor := cases, executor;
      status, rows, result, completedEvent := Running, map[], None, false;
    }

    /** Inserts the row of a case and variant or overwrites it. */
    method Record(key: Key, row: Row)
      modifies this`rows
      ensures rows == old(rows)[key := row]
    {
      rows := rows[key := row];
    }

    /** One loop body. */
    method Step(key: Key, incident: Key -> Incident) returns (goOn: bool)
      modifies this`rows
      ensures (rows, goOn) == Worked(old(rows), [key], executor, incident)
    {
      goOn := true;
      if incident(key).CheckpointCancels? {
        return false;
      }
      if Done(rows, key) {
        return true;
      }
      match incident(key) {
        case Proceeds =>
          var executed := executor(key);
          Record(key, CompletedRow(executed.output, if executed.metrics == map[] then FAILURE_METRICS else executed.metrics));
        case ExecutorRaises(code, message) =>
          Record(key, RecordedFailure(code, message));
          goOn := false;
        case _ =>
          goOn := false;
      }
    }

    /** The nested loops over cases and variants. */
    method WorkThrough(incident: Key -> Incident) returns (done: bool)
      modifies this`rows
      ensures (rows, done) == Worked(old(rows), Work(cases), executor, incident)
    {
      done := true;
      var i := 0;
      while i < |cases| && done
        invariant 0 <= i <= |cases|
        invariant done ==> (rows, true) == Worked(old(rows), Work(cases[..i]), executor, incident)
        invariant !done ==> (rows, false) == Worked(old(rows), Work(cases), executor, incident)
      {
        SplitWork(cases, i);
        ghost var before, body := Work(cases[..i]), [(cases[i], Control), (cases[i], Candidate)];
        WorkedAppend(old(rows), before, body, executor, incident);
        WorkedAppend(old(rows), before + body, Work(cases[i + 1..]), executor, incident);
        WorkedAppend(rows, [(cases[i], Control)], [(cases[i], Candidate)], executor, incident);
        assert [(cases[i], Control)] + [(cases[i], Candidate)] == body;
        done := Step((cases[i], Control), incident);
        if done {
          done := Step((cases[i], Candidate), incident);
        }
        i := i + 1;
      }
      assert cases[..|cases|] == cases;
    }

    /** Writes the outcome of a finished experiment. */
    method Write(report: Report)
      modifies this
      ensures State() == FinishedWith(old(State()), report)
    {
      if result == None {
        result := Some(report);
      }
      status := Completed;
      completedEvent := true;
    }

    /** `_complete_experiment`. */
    method Complete(order: seq<Key>)
      modifies this
      ensures State() == if old(status) == Cancelled then old(State()) else Finished(old(State()), order)
    {
      if status != Cancelled {
        Write(ReportFrom(order, rows));
      }
    }

    /** The part of a run up to its final transaction; an operator may cancel meanwhile. */
    method Process(attempt: Attempt) returns (done: bool)
      modifies this
      ensures (rows, done) == Worked(old(rows), Work(cases), executor, attempt.incident)
      ensures State() == old(State()).(status := if attempt.cancelledMeanwhile then Cancelled else Running, rows := rows)
    {
      status := Running;
      done := WorkThrough(attempt.incident);
      if attempt.cancelledMeanwhile {
        status := Cancelled;
      }
    }

    /** `run`. */
    method Run(attempt: Attempt) returns (exit: Exit)
      modifies this
      ensures State() == AfterRun(old(State()), cases, executor, attempt)
      ensures exit == Returned ==> status == Completed || status == Cancelled
      ensures exit == InputsUnavailable <==> !Over(old(status)) && cases == []
      ensures Over(old(status)) || cases == [] ==> State() == old(State())
      ensures exit == Interrupted ==>
        status == (if attempt.cancelledMeanwhile then Cancelled else Running) && result == old(result) && completedEvent == old(completedEvent)
      ensures exit == Returned && !Over(old(status)) ==> status == if attempt.cancelledMeanwhile then Cancelled else Completed
      ensures exit == Returned && status == Completed && old(status) != Completed ==>
        completedEvent && result.Some? && (old(result).Some? ==> result == old(result))
      ensures exit == Interrupted <==>
        !Over(old(status)) && cases != [] && (attempt.crashesAtEnd || !Worked(old(rows), Work(cases), executor, attempt.incident).1)
    {
      exit := Returned;
      if Over(status) {
      } else if cases == [] {
        exit := InputsUnavailable;
      } else {
        var done := Process(attempt);
        if done && !attempt.crashesAtEnd {
          Complete(attempt.order);
        } else {
          exit := Interrupted;
        }
      }
    }
  }

  lemma {:induction false} SplitWork(cases: seq<CaseId>, i: nat)
    requires i < |cases|
    ensures Work(cases[..i + 1]) == Work(cases[..i]) + [(cases[i], Control), (cases[i], Candidate)]
    ensures Work(cases) == Work(cases[..i]) + [(cases[i], Control), (cases[i], Candidate)] + Work(cases[i + 1..])
  {
    WorkAppend(cases[..i], [cases[i]]);
    assert cases[..i + 1] == cases[..i] + [cases[i]];
    WorkAppend(cases[..i + 1], cases[i + 1..]);
    assert cases == cases[..i + 1] + cases[i + 1..];
    assert Work([cases[i]]) == [(cases[i], Control), (cases[i], Candidate)] + Work([]);
  }

  lemma {:induction false} WorkAppend(a: seq<CaseId>, b: seq<CaseId>)
    ensures Work(a + b) == Work(a) + Work(b)
  {
    if a == [] {
      assert a + b == b;
    } else {
      assert (a + b)[0] == a[0] && (a + b)[1..] == a[1..] + b;
      WorkAppend(a[1..], b);
    }
  }
}
