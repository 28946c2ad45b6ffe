/** Prompt experiments: the resumable run of app/prompt_management/runners.py and the metrics of execution.py. */
module Experiments {
  import opened Wrappers
  import opened Selection
  import opened Permutations

  type CaseId = nat

  datatype Variant = Control | Candidate

  type Key = (CaseId, Variant)

  /** The keys of a case's metrics. */
  datatype Metric =
    | SchemaValidity | Quality | Success | Failure | ManualReview | FirstPassAcceptance | Revision | LatencyMs
    | InputTokens | OutputTokens | EstimatedCost | LlmCalls | ToolCalls | ActionProposals

  /** A JSON object of numbers. */
  type Metrics = map<Metric, real>

  datatype Row =
    | CompletedRow(output: string, metrics: Metrics)
    | FailedRow(metrics: Metrics, code: string, message: string)

  datatype Executed = Executed(output: string, metrics: Metrics)

  /** The executor's successful result as a function of what it is run on. */
  type Executor = Key -> Executed

  const FAILURE_METRICS: Metrics := map[Success := 0.0, Failure := 1.0]

  /** `metrics or {...}`: an empty object counts as absent. */
  function Recorded(e: Executed): Row {
    CompletedRow(e.output, if e.metrics == map[] then FAILURE_METRICS else e.metrics)
  }

  function RecordedFailure(code: string, message: string): Row {
    FailedRow(FAILURE_METRICS, code, message)
  }

  /** What befalls one case of one run: nothing, a cancelled checkpoint, a crash before or after executing, an executor error. */
  datatype Incident = Proceeds | CheckpointCancels | Crashes | ExecutorRaises(code: string, message: string)

  type Rows = map<Key, Row>

  predicate Done(rows: Rows, key: Key) {
    key in rows && rows[key].CompletedRow?
  }

  /** The loop body order: cases outside, control before candidate inside. */
  function Work(cases: seq<CaseId>): seq<Key> {
    if cases == [] then [] else [(cases[0], Control), (cases[0], Candidate)] + Work(cases[1..])
  }

  /** Rows after working through `work` until the first interruption, and whether it got to the end. */
  function Worked(rows: Rows, work: seq<Key>, executor: Executor, incident: Key -> Incident): (Rows, bool)
    decreases |work|
  {
    if work == [] then (rows, true)
    else
      var key := work[0];
      if incident(key).CheckpointCancels? then (rows, false)
      else if Done(rows, key) then Worked(rows, work[1..], executor, incident)
      else
        match incident(key)
        case Proceeds => Worked(rows[key := Recorded(executor(key))], work[1..], executor, incident)
        case ExecutorRaises(code, message) => (rows[key := RecordedFailure(code, message)], false)
        case _ => (rows, false)
  }

  lemma {:induction false} WorkedAppend(rows: Rows, a: seq<Key>, b: seq<Key>, executor: Executor, incident: Key -> Incident)
    ensures var (mid, finished) := Worked(rows, a, executor, incident);
      Worked(rows, a + b, executor, incident) == (if finished then Worked(mid, b, executor, incident) else (mid, false))
    decreases |a|
  {
    if a == [] {
      assert a + b == b;
    } else {
      assert (a + b)[0] == a[0] && (a + b)[1..] == a[1..] + b;
      var key := a[0];
      if Done(rows, key) {
        WorkedAppend(rows, a[1..], b, executor, incident);
      } else {
        WorkedAppend(rows[key := Recorded(executor(key))], a[1..], b, executor, incident);
      }
    }
  }

  // ----- aggregation

  function Get(m: Metrics, key: Metric): real {
    if key in m then m[key] else 0.0
  }

  /** `int(value)` truncates towards zero. */
  function Truncated(x: real): real {
    if x >= 0.0 then x.Floor as real else -((-x).Floor as real)
  }

  datatype Aggregate = Aggregate(
    caseCount: nat,
    schemaValidityRate: real, qualityScore: real, successRate: real, failureRate: real, manualReviewRate: real,
    firstPassAcceptanceRate: real, revisionRate: real, latencyMs: real,
    inputTokens: real, outputTokens: real, estimatedCost: real, llmCalls: real, toolCalls: real, actionProposals: real)

  function Total(rows: seq<Metrics>, key: Metric): real {
    if rows == [] then 0.0 else Truncated(Get(rows[0], key)) + Total(rows[1..], key)
  }

  function Plain(rows: seq<Metrics>, key: Metric): real {
    if rows == [] then 0.0 else Get(rows[0], key) + Plain(rows[1..], key)
  }

  function Average(rows: seq<Metrics>, key: Metric): real
    requires rows != []
  {
    Plain(rows, key) / |rows| as real
  }

  function AggregateCaseMetrics(rows: seq<Metrics>): Aggregate {
    if rows == [] then Aggregate(0, 0.0, 0.0, 0.0, 0.0, 0.0, 0.0, 0.0, 0.0, 0.0, 0.0, 0.0, 0.0, 0.0, 0.0)
    else
      Aggregate(|rows|,
                Average(rows, SchemaValidity), Average(rows, Quality), Average(rows, Success), Average(rows, Failure),
                Average(rows, ManualReview), Average(rows, FirstPassAcceptance), Average(rows, Revision),
                Average(rows, LatencyMs),
                Total(rows, InputTokens), Total(rows, OutputTokens), Plain(rows, EstimatedCost),
                Total(rows, LlmCalls), Total(rows, ToolCalls), Total(rows, ActionProposals))
  }

  lemma {:induction false} AreSums(rows: seq<Metrics>, key: Metric)
    ensures Plain(rows, key) == Sum(rows, (m: Metrics) => Get(m, key))
    ensures Total(rows, key) == Sum(rows, (m: Metrics) => Truncated(Get(m, key)))
  {
    if rows == [] {
    } else {
      AreSums(rows[1..], key);
    }
  }

  lemma SumsIgnoreOrder(a: seq<Metrics>, b: seq<Metrics>)
    requires multiset(a) == multiset(b)
    ensures |a| == |b| && forall key: Metric :: Total(a, key) == Total(b, key) && Plain(a, key) == Plain(b, key)
  {
    assert |a| == |multiset(a)| == |multiset(b)| == |b|;
    forall key: Metric ensures Total(a, key) == Total(b, key) && Plain(a, key) == Plain(b, key) {
      AreSums(a, key);
      AreSums(b, key);
      SumOfPermutation(a, b, (m: Metrics) => Get(m, key));
      SumOfPermutation(a, b, (m: Metrics) => Truncated(Get(m, key)));
    }
  }

  lemma AggregateIgnoresOrder(a: seq<Metrics>, b: seq<Metrics>)
    requires multiset(a) == multiset(b)
    ensures AggregateCaseMetrics(a) == AggregateCaseMetrics(b)
  {
    SumsIgnoreOrder(a, b);
  }

  function Score(m: Aggregate): real {
    m.qualityScore + m.schemaValidityRate + m.successRate + m.firstPassAcceptanceRate - m.failureRate
    - m.manualReviewRate * 0.25 - m.revisionRate * 0.25 - m.estimatedCost - m.latencyMs * 0.0001
  }

  function Distance(a: real, b: real): real {
    if a >= b then a - b else b - a
  }

  const MARGIN: real := 0.001

  function ChooseWinner(control: Aggregate, candidate: Aggregate): Option<Variant> {
    if Distance(Score(control), Score(candidate)) < MARGIN then None
    else if Score(candidate) > Score(control) then Some(Candidate)
    else Some(Control)
  }

  function Other(v: Variant): Variant {
    if v == Control then Candidate else Control
  }

  /** A winner leads by the margin at least, and exchanging the two versions exchanges the verdict. */
  lemma WinnerLeads(control: Aggregate, candidate: Aggregate)
    ensures ChooseWinner(control, candidate) == Some(Candidate) <==> Score(candidate) >= Score(control) + MARGIN
    ensures ChooseWinner(control, candidate) == Some(Control) <==> Score(control) >= Score(candidate) + MARGIN
    ensures ChooseWinner(candidate, control)
         == (if ChooseWinner(control, candidate) == None then None else Some(Other(ChooseWinner(control, candidate).value)))
  {
  }

  datatype Report = Report(control: Aggregate, candidate: Aggregate, winner: Option<Variant>)

  function ReportOf(control: seq<Metrics>, candidate: seq<Metrics>): Report {
    var c, d := AggregateCaseMetrics(control), AggregateCaseMetrics(candidate);
    Report(c, d, ChooseWinner(c, d))
  }

  /** A listing of the result rows, in whatever order the database returns them. */
  ghost predicate Lists(order: seq<Key>, rows: Rows) {
    Distinct(order) && forall k :: k in order <==> k in rows
  }

  /** The metrics of a row of the variant, if `k` is one. */
  function MetricsAt(k: Key, rows: Rows, v: Variant): seq<Metrics> {
    if k in rows && k.1 == v then [rows[k].metrics] else []
  }

  /** Metrics of one variant's rows, in listing order. */
  function MetricsOf(order: seq<Key>, rows: Rows, v: Variant): seq<Metrics> {
    if order == [] then [] else MetricsAt(order[0], rows, v) + MetricsOf(order[1..], rows, v)
  }

  lemma {:induction false} MetricsAreMapped(order: seq<Key>, rows: Rows, v: Variant)
    ensures MetricsOf(order, rows, v) == FlatMap(order, (k: Key) => MetricsAt(k, rows, v))
  {
    if order == [] {
    } else {
      MetricsAreMapped(order[1..], rows, v);
    }
  }

  function ReportFrom(order: seq<Key>, rows: Rows): Report {
    ReportOf(MetricsOf(order, rows, Control), MetricsOf(order, rows, Candidate))
  }

  // ----- the uninterrupted result, defined on the sampled cases alone

  function IdealMetrics(cases: seq<CaseId>, executor: Executor, v: Variant): seq<Metrics> {
    if cases == [] then [] else [Recorded(executor((cases[0], v))).metrics] + IdealMetrics(cases[1..], executor, v)
  }

  function IdealReport(cases: seq<CaseId>, executor: Executor): Report {
    ReportOf(IdealMetrics(cases, executor, Control), IdealMetrics(cases, executor, Candidate))
  }

  ghost function IdealRows(cases: seq<CaseId>, executor: Executor): Rows {
    map k: Key | k in Work(cases) :: Recorded(executor(k))
  }

  lemma {:induction false} WorkCovers(cases: seq<CaseId>, k: Key)
    ensures k in Work(cases) <==> k.0 in cases
  {
    if cases == [] {
    } else {
      var head := [(cases[0], Control), (cases[0], Candidate)];
      WorkCovers(cases[1..], k);
      assert k in head <==> k == (cases[0], Control) || k == (cases[0], Candidate);
      assert k == (k.0, k.1) && (k.1 == Control || k.1 == Candidate);
      assert k in head <==> k.0 == cases[0];
      assert k in head + Work(cases[1..]) <==> k in head || k in Work(cases[1..]);
    }
  }

  lemma {:induction false} WorkIsDistinct(cases: seq<CaseId>)
    requires Distinct(cases)
    ensures Distinct(Work(cases))
  {
    if cases == [] {
    } else {
      var head, tail := [(cases[0], Control), (cases[0], Candidate)], Work(cases[1..]);
      WorkIsDistinct(cases[1..]);
      forall k | k in tail ensures k.0 != cases[0] {
        WorkCovers(cases[1..], k);
      }
      forall i, j | 0 <= i < j < |Work(cases)| ensures Work(cases)[i] != Work(cases)[j] {
        if j < 2 {
        } else if i < 2 {
          assert Work(cases)[j] == tail[j - 2];
        } else {
          assert Work(cases)[i] == tail[i - 2] && Work(cases)[j] == tail[j - 2];
        }
      }
    }
  }

  /** Of the two rows of a case, one is of the variant. */
  lemma MetricsOfPair(c: CaseId, rest: seq<Key>, rows: Rows, v: Variant)
    ensures MetricsOf([(c, Control), (c, Candidate)] + rest, rows, v) == MetricsAt((c, v), rows, v) + MetricsOf(rest, rows, v)
  {
    var all := [(c, Control), (c, Candidate)] + rest;
    assert all[0] == (c, Control) && all[1..][0] == (c, Candidate) && all[1..][1..] == rest;
  }

  lemma {:induction false} MetricsOfWork(cases: seq<CaseId>, rows: Rows, executor: Executor, v: Variant)
    requires forall k :: k in Work(cases) ==> k in rows && rows[k] == Recorded(executor(k))
    ensures MetricsOf(Work(cases), rows, v) == IdealMetrics(cases, executor, v)
  {
    if cases == [] {
    } else {
      MetricsOfPair(cases[0], Work(cases[1..]), rows, v);
      assert (cases[0], v) in Work(cases) by {
        assert Work(cases)[0] == (cases[0], Control) && Work(cases)[1] == (cases[0], Candidate);
      }
      assert forall k :: k in Work(cases[1..]) ==> k in Work(cases);
      MetricsOfWork(cases[1..], rows, executor, v);
    }
  }

  /** However the rows are listed, complete rows give the report of the uninterrupted run. */
  lemma CompleteRowsGiveIdealReport(order: seq<Key>, cases: seq<CaseId>, executor: Executor)
    requires Distinct(cases) && Lists(order, IdealRows(cases, executor))
    ensures ReportFrom(order, IdealRows(cases, executor)) == IdealReport(cases, executor)
  {
    var rows := IdealRows(cases, executor);
    WorkIsDistinct(cases);
    SameRows(order, Work(cases));
    forall v: Variant ensures AggregateCaseMetrics(MetricsOf(order, rows, v)) == AggregateCaseMetrics(IdealMetrics(cases, executor, v)) {
      MetricsAreMapped(order, rows, v);
      MetricsAreMapped(Work(cases), rows, v);
      FlatMapOfPermutation(order, Work(cases), (k: Key) => MetricsAt(k, rows, v));
      MetricsOfWork(cases, rows, executor, v);
      AggregateIgnoresOrder(MetricsOf(order, rows, v), IdealMetrics(cases, executor, v));
    }
  }

  // ----- runs

  /** Result rows are for sampled cases only, and a completed one holds the executor's result. */
  ghost predicate RowsOk(rows: Rows, cases: seq<CaseId>, executor: Executor) {
    forall k :: k in rows ==> k in Work(cases) && (rows[k].CompletedRow? ==> rows[k] == Recorded(executor(k)))
  }

  lemma {:induction false} WorkedKeepsRows(rows: Rows, work: seq<Key>, cases: seq<CaseId>, executor: Executor, incident: Key -> Incident)
    requires RowsOk(rows, cases, executor) && forall k :: k in work ==> k in Work(cases)
    ensures var (after, finished) := Worked(rows, work, executor, incident);
      && RowsOk(after, cases, executor)
      && (forall k :: Done(rows, k) ==> Done(after, k))
      && (finished ==> forall k :: k in work ==> Done(after, k))
    decreases |work|
  {
    if work == [] {
    } else {
      var key := work[0];
      assert key in work && forall k :: k in work[1..] ==> k in work;
      assert forall k :: k in work ==> k == key || k in work[1..];
      if incident(key).CheckpointCancels? {
      } else if Done(rows, key) {
        WorkedKeepsRows(rows, work[1..], cases, executor, incident);
      } else if incident(key).Proceeds? {
        WorkedKeepsRows(rows[key := Recorded(executor(key))], work[1..], cases, executor, incident);
      }
    }
  }

  datatype Status = Draft | Running | Completed | Cancelled | Failed

  datatype Experiment = Experiment(status: Status, rows: Rows, result: Option<Report>, completedEvent: bool)

  const NEW := Experiment(Running, map[], None, false)

  /** One execution of the job's handler: what befalls each case, a concurrent cancellation, a crash before the final commit, the listing order. */
  datatype Attempt = Attempt(incident: Key -> Incident, cancelledMeanwhile: bool, crashesAtEnd: bool, order: seq<Key>)

  datatype Step =
    | RunOnce(attempt: Attempt)
    | Terminal(cancelled: bool)
    | PrepareRetry
    | CancelByOperator

  /** The result row is only inserted when there is none, and the event only once by its key. */
  function FinishedWith(e: Experiment, report: Report): Experiment {
    e.(status := Completed, result := if e.result == None then Some(report) else e.result, completedEvent := true)
  }

  function Finished(e: Experiment, order: seq<Key>): Experiment {
    FinishedWith(e, ReportFrom(order, e.rows))
  }

  function AfterRun(e: Experiment, cases: seq<CaseId>, executor: Executor, a: Attempt): Experiment {
    if e.status == Completed || e.status == Cancelled || cases == [] then e
    else
      var (rows, done) := Worked(e.rows, Work(cases), executor, a.incident);
      var worked := e.(status := if a.cancelledMeanwhile then Cancelled else Running, rows := rows);
      if !done || a.crashesAtEnd || worked.status == Cancelled then worked else Finished(worked, a.order)
  }

  /** A run's listing shows exactly the rows there are when it finishes. */
  ghost predicate ListingOk(e: Experiment, cases: seq<CaseId>, executor: Executor, a: Attempt) {
    Lists(a.order, Worked(e.rows, Work(cases), executor, a.incident).0)
  }

  ghost function Apply(e: Experiment, cases: seq<CaseId>, executor: Executor, s: Step): Experiment {
    match s
    case RunOnce(a) => if ListingOk(e, cases, executor, a) then AfterRun(e, cases, executor, a) else e
    case Terminal(cancelled) => e.(status := if cancelled then Cancelled else Failed)
    case PrepareRetry => e.(status := Running)
    case CancelByOperator => if e.status == Draft || e.status == Running then e.(status := Cancelled) else e
  }

  ghost function Run(e: Experiment, cases: seq<CaseId>, executor: Executor, steps: seq<Step>): Experiment
    decreases |steps|
  {
    if steps == [] then e else Run(Apply(e, cases, executor, steps[0]), cases, executor, steps[1..])
  }

  ghost predicate Inv(e: Experiment, cases: seq<CaseId>, executor: Executor) {
    && RowsOk(e.rows, cases, executor)
    && (e.status == Completed ==> e.result.Some?)
    && (e.result.Some? <==> e.completedEvent)
    && (e.result.Some? ==> e.rows == IdealRows(cases, executor) && e.result == Some(IdealReport(cases, executor)))
  }

  /** Once every row is complete a run changes none. */
  lemma {:induction false} CompleteRowsStay(rows: Rows, work: seq<Key>, executor: Executor, incident: Key -> Incident)
    requires forall k :: k in work ==> Done(rows, k)
    ensures Worked(rows, work, executor, incident).0 == rows
    decreases |work|
  {
    if work == [] {
    } else {
      assert work[0] in work && forall k :: k in work[1..] ==> k in work;
      CompleteRowsStay(rows, work[1..], executor, incident);
    }
  }

  lemma AllDoneIsIdeal(rows: Rows, cases: seq<CaseId>, executor: Executor)
    requires RowsOk(rows, cases, executor) && forall k :: k in Work(cases) ==> Done(rows, k)
    ensures rows == IdealRows(cases, executor)
  {
  }

  /** The rows a run leaves are still sound, and ideal if it got to the end or a report was there before. */
  lemma RunLeavesSoundRows(e: Experiment, cases: seq<CaseId>, executor: Executor, a: Attempt)
    requires Inv(e, cases, executor)
    ensures var (rows, done) := Worked(e.rows, Work(cases), executor, a.incident);
      RowsOk(rows, cases, executor) && (done || e.result.Some? ==> rows == IdealRows(cases, executor))
  {
    var (rows, done) := Worked(e.rows, Work(cases), executor, a.incident);
    WorkedKeepsRows(e.rows, Work(cases), cases, executor, a.incident);
    if e.result.Some? {
      CompleteRowsStay(e.rows, Work(cases), executor, a.incident);
    } else if done {
      AllDoneIsIdeal(rows, cases, executor);
    }
  }

  /** The three ways a run can end: refused, interrupted, finished. */
  lemma RunEnds(e: Experiment, cases: seq<CaseId>, executor: Executor, a: Attempt)
    ensures var (rows, done) := Worked(e.rows, Work(cases), executor, a.incident);
      var r := AfterRun(e, cases, executor, a);
      || r == e
      || (r.rows == rows && r.result == e.result && r.completedEvent == e.completedEvent && r.status != Completed)
      || (done && r.rows == rows && r.completedEvent && r.result.Some? && (e.result == None ==> r.result.value == ReportFrom(a.order, rows))
          && (e.result.Some? ==> r.result == e.result))
  {
  }

  lemma RunKeepsExperiment(e: Experiment, cases: seq<CaseId>, executor: Executor, a: Attempt)
    requires Distinct(cases) && Inv(e, cases, executor) && ListingOk(e, cases, executor, a)
    ensures Inv(AfterRun(e, cases, executor, a), cases, executor)
  {
    var (rows, done) := Worked(e.rows, Work(cases), executor, a.incident);
    var ideal, report := IdealRows(cases, executor), IdealReport(cases, executor);
    RunLeavesSoundRows(e, cases, executor, a);
    assert done ==> ReportFrom(a.order, rows) == report by {
      if done {
        CompleteRowsGiveIdealReport(a.order, cases, executor);
      }
    }
    var r := AfterRun(e, cases, executor, a);
    RunEnds(e, cases, executor, a);
    assert r == e || r.rows == rows;
  }

  lemma StepKeepsInv(e: Experiment, cases: seq<CaseId>, executor: Executor, s: Step)
    requires Distinct(cases) && Inv(e, cases, executor)
    ensures Inv(Apply(e, cases, executor, s), cases, executor)
  {
    if s.RunOnce? && ListingOk(e, cases, executor, s.attempt) {
      RunKeepsExperiment(e, cases, executor, s.attempt);
    }
  }

  lemma {:induction false} RunKeepsInv(e: Experiment, cases: seq<CaseId>, executor: Executor, steps: seq<Step>)
    requires Distinct(cases) && Inv(e, cases, executor)
    ensures Inv(Run(e, cases, executor, steps), cases, executor)
    decreases |steps|
  {
    if steps == [] {
    } else {
      StepKeepsInv(e, cases, executor, steps[0]);
      RunKeepsInv(Apply(e, cases, executor, steps[0]), cases, executor, steps[1..]);
    }
  }

  /**
   Resumption: whatever runs were interrupted, failed, cancelled, declared dead or retried before, an experiment that is
   COMPLETED has exactly one completed row for each sampled case and variant, and the report of one uninterrupted run.
   */
  lemma ResumptionConverges(cases: seq<CaseId>, executor: Executor, steps: seq<Step>)
    requires Distinct(cases) && Run(NEW, cases, executor, steps).status == Completed
    ensures var e := Run(NEW, cases, executor, steps);
      && (forall c, v :: c in cases ==> (c, v) in e.rows && e.rows[(c, v)] == Recorded(executor((c, v))))
      && (forall k :: k in e.rows ==> k.0 in cases)
      && e.result == Some(IdealReport(cases, executor)) && e.completedEvent
  {
    RunKeepsInv(NEW, cases, executor, steps);
    forall k: Key ensures k in Work(cases) <==> k.0 in cases {
      WorkCovers(cases, k);
    }
  }

  /** A report never changes once written, through any later runs and status changes. */
  lemma ReportIsStable(cases: seq<CaseId>, executor: Executor, before: seq<Step>, after: seq<Step>)
    requires Distinct(cases) && Run(NEW, cases, executor, before).result.Some?
    ensures Run(Run(NEW, cases, executor, before), cases, executor, after).result == Run(NEW, cases, executor, before).result
  {
    RunKeepsInv(NEW, cases, executor, before);
    ResultStays(Run(NEW, cases, executor, before), cases, executor, after);
    RunKeepsInv(Run(NEW, cases, executor, before), cases, executor, after);
  }

  lemma {:induction false} ResultStays(e: Experiment, cases: seq<CaseId>, executor: Executor, steps: seq<Step>)
    requires e.result.Some?
    ensures Run(e, cases, executor, steps).result == e.result
    decreases |steps|
  {
    if steps == [] {
    } else {
      ResultStays(Apply(e, cases, executor, steps[0]), cases, executor, steps[1..]);
    }
  }

  /** An uninterrupted run from the start does finish, so the report above is the one it produces. */
  lemma {:induction false} UninterruptedRunFinishes(cases: seq<CaseId>, executor: Executor, a: Attempt)
    requires Distinct(cases) && cases != [] && ListingOk(NEW, cases, executor, a)
    requires (forall k :: a.incident(k).Proceeds?) && !a.cancelledMeanwhile && !a.crashesAtEnd
    ensures Apply(NEW, cases, executor, RunOnce(a)).status == Completed
    ensures Apply(NEW, cases, executor, RunOnce(a)).result == Some(IdealReport(cases, executor))
  {
    NothingInterrupts(NEW.rows, Work(cases), executor, a.incident);
    RunKeepsExperiment(NEW, cases, executor, a);
  }

  lemma {:induction false} NothingInterrupts(rows: Rows, work: seq<Key>, executor: Executor, incident: Key -> Incident)
    requires forall k :: incident(k).Proceeds?
    ensures Worked(rows, work, executor, incident).1
    decreases |work|
  {
    if work == [] {
    } else if Done(rows, work[0]) {
      NothingInterrupts(rows, work[1..], executor, incident);
    } else {
      NothingInterrupts(rows[work[0] := Recorded(executor(work[0]))], work[1..], executor, incident);
    }
  }
}
