/**
 What one run leaves in each row of an experiment or a comparison, row by row: which rows it reaches, what it writes
 there and what it leaves alone.
 */
module RunOutcomes {
  import opened Wrappers
  import opened Selection
  import opened Experiments
  import C = Comparisons

  /** An experiment's run gets past a row: no cancellation at its checkpoint, and it was completed before or executes without an incident. */
  predicate Passes(rows: Rows, key: Key, incident: Key -> Incident) {
    !incident(key).CheckpointCancels? && (Done(rows, key) || incident(key).Proceeds?)
  }

  ghost predicate Reaches(rows: Rows, work: seq<Key>, incident: Key -> Incident, i: nat) {
    i <= |work| && forall j :: 0 <= j < i ==> Passes(rows, work[j], incident)
  }

  /** The row of a successful execution; without any metrics it counts as a failure. */
  function SuccessRow(e: Executed): Row {
    if e.metrics == map[] then CompletedRow(e.output, map[Success := 0.0, Failure := 1.0]) else CompletedRow(e.output, e.metrics)
  }

  function FailureRow(code: string, message: string): Row {
    FailedRow(map[Success := 0.0, Failure := 1.0], code, message)
  }

  ghost predicate RowIs(rows: Rows, key: Key, row: Row) {
    key in rows && rows[key] == row
  }

  ghost predicate Unchanged(rows: Rows, after: Rows, key: Key) {
    (key in after <==> key in rows) && (key in rows ==> after[key] == rows[key])
  }

  /**
   A run completes every row it gets past that was not complete, stops at the first it does not get past, recording a
   failure there exactly if the execution raised, and leaves everything else as it was.
   */
  lemma {:induction false} ExperimentRowByRow(rows: Rows, work: seq<Key>, executor: Executor, incident: Key -> Incident, i: nat)
    requires Distinct(work) && i < |work|
    ensures var after := Worked(rows, work, executor, incident).0; var k := work[i];
      && (Reaches(rows, work, incident, i + 1) && Done(rows, k) ==> RowIs(after, k, rows[k]))
      && (Reaches(rows, work, incident, i + 1) && !Done(rows, k) ==> RowIs(after, k, SuccessRow(executor(k))))
      && (Reaches(rows, work, incident, i) && !Done(rows, k) && incident(k).ExecutorRaises? ==>
            RowIs(after, k, FailureRow(incident(k).code, incident(k).message)))
      && (!Reaches(rows, work, incident, i) ==> Unchanged(rows, after, k))
      && (!Passes(rows, k, incident) && (Done(rows, k) || !incident(k).ExecutorRaises?) ==> Unchanged(rows, after, k))
    decreases |work|
  {
    var key := work[0];
    FirstRow(rows, work, executor, incident);
    if Passes(rows, key, incident) {
      var mid := if Done(rows, key) then rows else rows[key := SuccessRow(executor(key))];
      assert Worked(rows, work, executor, incident) == Worked(mid, work[1..], executor, incident);
      if i == 0 {
        OutsideUnchanged(mid, work[1..], executor, incident, key);
      } else {
        assert work[1..][i - 1] == work[i] && work[i] != key;
        ExperimentRowByRow(mid, work[1..], executor, incident, i - 1);
        ReachesRest(rows, mid, work, incident, i);
        ReachesRest(rows, mid, work, incident, i + 1);
      }
    }
  }

  lemma FirstRow(rows: Rows, work: seq<Key>, executor: Executor, incident: Key -> Incident)
    requires work != []
    ensures var key := work[0];
      Passes(rows, key, incident) ==>
        Worked(rows, work, executor, incident)
          == Worked(if Done(rows, key) then rows else rows[key := SuccessRow(executor(key))], work[1..], executor, incident)
    ensures var key := work[0];
      !Passes(rows, key, incident) ==>
        Worked(rows, work, executor, incident)
          == (if !Done(rows, key) && incident(key).ExecutorRaises? then rows[key := FailureRow(incident(key).code, incident(key).message)] else rows, false)
  {
  }

  lemma ReachesRest(rows: Rows, mid: Rows, work: seq<Key>, incident: Key -> Incident, i: nat)
    requires Distinct(work) && 0 < i <= |work| && Passes(rows, work[0], incident)
    requires forall k :: k != work[0] ==> (Done(mid, k) <==> Done(rows, k))
    ensures Reaches(rows, work, incident, i) <==> Reaches(mid, work[1..], incident, i - 1)
  {
    assert forall j :: 0 <= j < |work| - 1 ==> work[1..][j] == work[j + 1] && work[j + 1] != work[0];
    if Reaches(mid, work[1..], incident, i - 1) {
      forall j | 0 <= j < i ensures Passes(rows, work[j], incident) {
        if j > 0 {
          assert Passes(mid, work[1..][j - 1], incident);
        }
      }
    }
  }

  lemma {:induction false} OutsideUnchanged(rows: Rows, work: seq<Key>, executor: Executor, incident: Key -> Incident, key: Key)
    requires key !in work
    ensures Unchanged(rows, Worked(rows, work, executor, incident).0, key)
    decreases |work|
  {
    if work != [] {
      FirstRow(rows, work, executor, incident);
      if Passes(rows, work[0], incident) {
        OutsideUnchanged(if Done(rows, work[0]) then rows else rows[work[0] := SuccessRow(executor(work[0]))], work[1..], executor, incident, key);
      }
    }
  }

  /** A run gets to its end exactly if it gets past every row. */
  lemma {:induction false} ExperimentFinishesIff(rows: Rows, work: seq<Key>, executor: Executor, incident: Key -> Incident)
    requires Distinct(work)
    ensures Worked(rows, work, executor, incident).1 <==> Reaches(rows, work, incident, |work|)
    decreases |work|
  {
    if work != [] {
      FirstRow(rows, work, executor, incident);
      if Passes(rows, work[0], incident) {
        var mid := if Done(rows, work[0]) then rows else rows[work[0] := SuccessRow(executor(work[0]))];
        ExperimentFinishesIff(mid, work[1..], executor, incident);
        ReachesRest(rows, mid, work, incident, |work|);
      }
    }
  }

  /** Cases outside, control before candidate inside. */
  lemma {:induction false} WorkOrder(cases: seq<CaseId>, i: nat)
    requires i < |cases|
    ensures |Work(cases)| == 2 * |cases|
    ensures Work(cases)[2 * i] == (cases[i], Control) && Work(cases)[2 * i + 1] == (cases[i], Candidate)
  {
    var head := [(cases[0], Control), (cases[0], Candidate)];
    assert Work(cases) == head + Work(cases[1..]);
    if i > 0 {
      WorkOrder(cases[1..], i - 1);
      assert Work(cases)[2 * i] == Work(cases[1..])[2 * (i - 1)] && Work(cases)[2 * i + 1] == Work(cases[1..])[2 * (i - 1) + 1];
    } else if |cases| > 1 {
      WorkOrder(cases[1..], 0);
    }
  }

  // ----- comparisons

  /** A comparison's run goes on after a row: an unavailable provider needs no checkpoint, a failed execution stops nothing. */
  predicate GoesOn(rows: C.Rows, k: C.Key, a: C.Attempt) {
    if a.factoryError(k.0).Some? then !a.incident(k).Crashes?
    else !a.incident(k).CheckpointCancels? && (C.Done(rows, k) || !a.incident(k).Crashes?)
  }

  /** What a run does with one row of a comparison. */
  lemma ComparisonRow(rows: C.Rows, k: C.Key, executor: C.Executor, a: C.Attempt)
    ensures var (after, goOn) := C.Body(rows, k, executor, a);
      && (goOn <==> GoesOn(rows, k, a))
      && (forall o :: o != k ==> (o in after <==> o in rows) && (o in rows ==> after[o] == rows[o]))
      && (!goOn ==> after == rows)
      && (goOn && a.factoryError(k.0).Some? ==>
            k in after && after[k] == FailureRow(a.factoryError(k.0).value.0, a.factoryError(k.0).value.1))
      && (goOn && a.factoryError(k.0) == None && C.Done(rows, k) ==> after == rows)
      && (goOn && a.factoryError(k.0) == None && !C.Done(rows, k) && a.incident(k).Proceeds? ==> k in after && after[k] == SuccessRow(executor(k)))
      && (goOn && a.factoryError(k.0) == None && !C.Done(rows, k) && a.incident(k).ExecutorRaises? ==>
            k in after && after[k] == FailureRow(a.incident(k).code, a.incident(k).message))
  {
  }

  /** It goes through its rows one after the other, until the first it cannot go on after. */
  lemma {:induction false} ComparisonFinishesIff(rows: C.Rows, work: seq<C.Key>, executor: C.Executor, a: C.Attempt)
    requires Distinct(work)
    ensures C.Worked(rows, work, executor, a).1 <==> forall i :: 0 <= i < |work| ==> GoesOn(rows, work[i], a)
    decreases |work|
  {
    if work != [] {
      ComparisonRow(rows, work[0], executor, a);
      var after := C.Body(rows, work[0], executor, a).0;
      if GoesOn(rows, work[0], a) {
        ComparisonFinishesIff(after, work[1..], executor, a);
        forall i | 0 <= i < |work| - 1 ensures GoesOn(after, work[1..][i], a) <==> GoesOn(rows, work[i + 1], a) {
          assert work[1..][i] == work[i + 1] && work[i + 1] != work[0];
        }
        assert forall i :: 0 < i < |work| ==> work[i] == work[1..][i - 1];
      }
    }
  }

  // ----- what others do to an experiment or a comparison

  /** A dead job fails it and a cancelled job cancels it, whatever its status; a retry puts it back to work; an operator cancels it before its end. None of them touches rows or report. */
  lemma LifecycleMoves(e: Experiment, cases: seq<CaseId>, executor: Executor, s: Step)
    requires !s.RunOnce?
    ensures var f := Apply(e, cases, executor, s);
      && f.rows == e.rows && f.result == e.result && f.completedEvent == e.completedEvent
      && (s == Terminal(true) ==> f.status == Cancelled) && (s == Terminal(false) ==> f.status == Failed)
      && (s == PrepareRetry ==> f.status == Running)
      && (s == CancelByOperator && (e.status == Draft || e.status == Running) ==> f.status == Cancelled)
      && (s == CancelByOperator && e.status != Draft && e.status != Running ==> f == e)
  {
  }

  lemma ComparisonLifecycleMoves(c: C.Comparison, providers: seq<C.Provider>, cases: seq<CaseId>, executor: C.Executor, s: C.Step)
    requires !s.RunOnce?
    ensures var d := C.Apply(c, providers, cases, executor, s);
      && d.rows == c.rows && d.report == c.report
      && (s == C.Terminal(true) ==> d.status == Cancelled) && (s == C.Terminal(false) ==> d.status == Failed)
      && (s == C.PrepareRetry ==> d.status == Running)
  {
  }
}
