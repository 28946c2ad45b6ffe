/** `ProviderComparisonRunner` of app/prompt_management/runners.py, over the rows it reads and writes. */
module ComparisonRunner {
  import opened Wrappers
  import opened Comparisons
  import E = Experiments

  datatype Exit = Returned | Interrupted | InputsUnavailable | AllExecutionsFailed

  predicate Over(s: E.Status) {
    s == E.Completed || s == E.Cancelled
  }

  class Runner {
    const providers: seq<Provider>
    const cases: seq<E.CaseId>
    const executor: Executor
    var status: E.Status
    var rows: Rows
    var report: Option<Report>

    function State(): Comparison
      reads this
    {
      Comparison(status, rows, report)
    }

    constructor (providers: seq<Provider>, cases: seq<E.CaseId>, executor: Executor)
      ensures this.providers == providers && this.cases == cases && this.executor == executor && State() == NEW
    {
      this.providers, this.cases, this.executor := providers, cases, executor;
      status, rows, report := E.Running, map[], None;
    }

    /** Inserts the row of a provider and case or overwrites it. */
    method Record(key: Key, row: E.Row)
      modifies this`rows
      ensures rows == old(rows)[key := row]
    {
      rows := rows[key := row];
    }

    /** One case of a provider whose client could not be built. */
    method RecordUnavailable(key: Key, a: Attempt) returns (goOn: bool)
      requires a.factoryError(key.0).Some?
      modifies this`rows
      ensures (rows, goOn) == Body(old(rows), key, executor, a)
    {
      if a.incident(key).Crashes? {
        return false;
      }
      var (code, message) := a.factoryError(key.0).value;
      Record(key, E.FailedRow(E.FAILURE_METRICS, code, message));
      return true;
    }

    /** One case of a provider whose client is there. A failed execution does not stop the run. */
    method Execute(key: Key, a: Attempt) returns (goOn: bool)
      requires a.factoryError(key.0) == None
      modifies this`rows
      ensures (rows, goOn) == Body(old(rows), key, executor, a)
    {
      if a.incident(key).CheckpointCancels? {
        return false;
      }
      if Done(rows, key) {
        return true;
      }
      match a.incident(key) {
        case Proceeds =>
          var executed := executor(key);
          Record(key, E.CompletedRow(executed.output, if executed.metrics == map[] then E.FAILURE_METRICS else executed.metrics));
          goOn := true;
        case ExecutorRaises(code, message) =>
          Record(key, E.FailedRow(E.FAILURE_METRICS, code, message));
          goOn := true;
        case _ =>
          goOn := false;
      }
    }

    /** The cases of one provider. */
    method WorkThroughCases(provider: Provider, a: Attempt) returns (done: bool)
      modifies this`rows
      ensures (rows, done) == Worked(old(rows), WorkOf(provider, cases), executor, a)
    {
      done := true;
      var unavailable := a.factoryError(provider).Some?;
      var i := 0;
      ghost var work := WorkOf(provider, cases);
      while i < |cases| && done
        invariant 0 <= i <= |cases|
        invariant done ==> (rows, true) == Worked(old(rows), work[..i], executor, a)
        invariant !done ==> (rows, false) == Worked(old(rows), work, executor, a)
      {
        WorkedAppend(old(rows), work[..i], [work[i]], executor, a);
        WorkedAppend(old(rows), work[..i + 1], work[i + 1..], executor, a);
        assert work[..i + 1] == work[..i] + [work[i]] && work == work[..i + 1] + work[i + 1..];
        if unavailable {
          done := RecordUnavailable((provider, cases[i]), a);
        } else {
          done := Execute((provider, cases[i]), a);
        }
        i := i + 1;
      }
      assert work[..|cases|] == work;
    }

    method WorkThrough(a: Attempt) returns (done: bool)
      modifies this`rows
      ensures (rows, done) == Worked(old(rows), Work(providers, cases), executor, a)
    {
      done := true;
      var i := 0;
      while i < |providers| && done
        invariant 0 <= i <= |providers|
        invariant done ==> (rows, true) == Worked(old(rows), Work(providers[..i], cases), executor, a)
        invariant !done ==> (rows, false) == Worked(old(rows), Work(providers, cases), executor, a)
      {
        SplitWork(providers, cases, i);
        ghost var before, body := Work(providers[..i], cases), WorkOf(providers[i], cases);
        WorkedAppend(old(rows), before, body, executor, a);
        WorkedAppend(old(rows), before + body, Work(providers[i + 1..], cases), executor, a);
        done := WorkThroughCases(providers[i], a);
        i := i + 1;
      }
      assert providers[..|providers|] == providers;
    }

    /** The part of a run up to its final transaction; an operator may cancel meanwhile. */
    method Process(a: Attempt) returns (done: bool)
      modifies this
      ensures (rows, done) == Worked(old(rows), Work(providers, cases), executor, a)
      ensures State() == old(State()).(status := if a.cancelledMeanwhile then E.Cancelled else E.Running, rows := rows)
    {
      status := E.Running;
      done := WorkThrough(a);
      if a.cancelledMeanwhile {
        status := E.Cancelled;
      }
    }

    /** Writes the outcome of a comparison some provider completed a case of. */
    method Conclude(entries: seq<Entry>) returns (exit: Exit, recommended: nat)
      modifies this
      ensures State() == Finished(old(State()), entries, recommended)
      ensures (exists i: nat :: IsRecommended(entries, i)) && old(status) != E.Cancelled ==> IsRecommended(entries, recommended)
      ensures exit == AllExecutionsFailed <==> old(status) != E.Cancelled && forall i :: 0 <= i < |entries| ==> entries[i].metrics.caseCount == 0
      ensures exit == AllExecutionsFailed || (exit == Returned && (old(status) == E.Cancelled || status == E.Completed))
      ensures exit == AllExecutionsFailed || old(status) == E.Cancelled ==> State() == old(State())
    {
      if status == E.Cancelled {
        return Returned, 0;
      }
      var best := Recommend(entries);
      if best == None {
        return AllExecutionsFailed, 0;
      }
      recommended := best.value;
      report := Some(Report(entries, entries[recommended].provider));
      status := E.Completed;
      exit := Returned;
    }

    /** `_complete_comparison`. */
    method Complete(order: seq<Key>) returns (exit: Exit, recommended: nat)
      modifies this
      ensures State() == FinishedFrom(old(State()), providers, order, recommended)
      ensures exit == Returned ==> status == E.Completed || old(status) == E.Cancelled
      ensures exit == AllExecutionsFailed ==> State() == old(State()) && status != E.Cancelled
      ensures old(status) == E.Cancelled ==> State() == old(State())
      ensures exit == Returned || exit == AllExecutionsFailed
    {
      exit, recommended := Conclude(Entries(order, rows, providers));
    }

    /** `run`. */
    method Run(a: Attempt) returns (exit: Exit, recommended: nat)
      modifies this
      ensures State() == AfterRun(old(State()), providers, cases, executor, a, recommended)
      ensures exit == Returned ==> status == E.Completed || status == E.Cancelled
      ensures exit == InputsUnavailable <==> !Over(old(status)) && cases == []
      ensures Over(old(status)) || cases == [] ==> State() == old(State())
      ensures exit == Interrupted || exit == AllExecutionsFailed ==> report == old(report)
      ensures exit == Interrupted ==> status == if a.cancelledMeanwhile then E.Cancelled else E.Running
      ensures exit == AllExecutionsFailed ==> status == E.Running && !a.cancelledMeanwhile
      ensures exit == Returned && !Over(old(status)) ==> status == if a.cancelledMeanwhile then E.Cancelled else E.Completed
      ensures exit == Interrupted <==>
        !Over(old(status)) && cases != [] && (a.crashesAtEnd || !Worked(old(rows), Work(providers, cases), executor, a).1)
    {
      exit, recommended := Returned, 0;
      if Over(status) {
      } else if cases == [] {
        exit := InputsUnavailable;
      } else {
        var done := Process(a);
        if done && !a.crashesAtEnd {
          exit, recommended := Complete(a.order);
        } else {
          exit := Interrupted;
        }
      }
    }
  }

  lemma {:induction false} SplitWork(providers: seq<Provider>, cases: seq<E.CaseId>, i: nat)
    requires i < |providers|
    ensures Work(providers[..i + 1], cases) == Work(providers[..i], cases) + WorkOf(providers[i], cases)
    ensures Work(providers, cases) == Work(providers[..i], cases) + WorkOf(providers[i], cases) + Work(providers[i + 1..], cases)
  {
    WorkAppend(providers[..i], [providers[i]], cases);
    assert providers[..i + 1] == providers[..i] + [providers[i]];
    WorkAppend(providers[..i + 1], providers[i + 1..], cases);
    assert providers == providers[..i + 1] + providers[i + 1..];
    assert Work([providers[i]], cases) == WorkOf(providers[i], cases) + Work([], cases);
  }

  lemma {:induction false} WorkAppend(a: seq<Provider>, b: seq<Provider>, cases: seq<E.CaseId>)
    ensures Work(a + b, cases) == Work(a, cases) + Work(b, cases)
  {
    if a == [] {
      assert a + b == b;
    } else {
      assert (a + b)[0] == a[0] && (a + b)[1..] == a[1..] + b;
      WorkAppend(a[1..], b, cases);
    }
  }
}
