/**
 What the numbers in experiment and comparison reports say about the executor's own results, and what decides a winner
 and a recommendation, apart from how app/prompt_management/execution.py and runners.py compute them.
 */
module ReportMeaning {
  import opened Wrappers
  import opened Selection
  import opened Experiments
  import C = Comparisons

  // ----- the executor's own metrics

  /** A metric of one result: absent ones count as zero, and a result without any metrics counts as a failure. */
  function MetricOf(e: Executed, key: Metric): real {
    if e.metrics == map[] then (if key == Failure then 1.0 else 0.0)
    else if key in e.metrics then e.metrics[key]
    else 0.0
  }

  function CaseSum(cases: seq<CaseId>, executor: Executor, v: Variant, key: Metric): real {
    if cases == [] then 0.0 else MetricOf(executor((cases[0], v)), key) + CaseSum(cases[1..], executor, v, key)
  }

  /** The same of whole numbers, each cut off towards zero. */
  function WholeSum(cases: seq<CaseId>, executor: Executor, v: Variant, key: Metric): real {
    if cases == [] then 0.0 else Truncated(MetricOf(executor((cases[0], v)), key)) + WholeSum(cases[1..], executor, v, key)
  }

  lemma CutsOffTowardsZero(x: real)
    ensures x >= 0.0 ==> 0.0 <= Truncated(x) <= x < Truncated(x) + 1.0
    ensures x < 0.0 ==> Truncated(x) - 1.0 < x <= Truncated(x) <= 0.0
    ensures Truncated(x) == Truncated(x).Floor as real
  {
    if x >= 0.0 {
      assert Truncated(x) == x.Floor as real;
    } else {
      assert Truncated(x) == (-((-x).Floor)) as real;
    }
  }

  lemma RecordedMetric(e: Executed, key: Metric)
    ensures Get(Experiments.Recorded(e).metrics, key) == MetricOf(e, key)
  {
  }

  lemma {:induction false} IdealSums(cases: seq<CaseId>, executor: Executor, v: Variant, key: Metric)
    ensures |IdealMetrics(cases, executor, v)| == |cases|
    ensures Plain(IdealMetrics(cases, executor, v), key) == CaseSum(cases, executor, v, key)
    ensures Total(IdealMetrics(cases, executor, v), key) == WholeSum(cases, executor, v, key)
  {
    if cases == [] {
    } else {
      IdealSums(cases[1..], executor, v, key);
      var m := Experiments.Recorded(executor((cases[0], v))).metrics;
      RecordedMetric(executor((cases[0], v)), key);
      SumsOfOneMore(m, IdealMetrics(cases[1..], executor, v), key);
    }
  }

  lemma DividedBack(x: real, n: real)
    requires n > 0.0
    ensures x / n * n == x
  {
  }

  /** The report's field of a metric's name. */
  function RateOf(a: Aggregate, key: Metric): real {
    match key
    case SchemaValidity => a.schemaValidityRate
    case Quality => a.qualityScore
    case Success => a.successRate
    case Failure => a.failureRate
    case ManualReview => a.manualReviewRate
    case FirstPassAcceptance => a.firstPassAcceptanceRate
    case Revision => a.revisionRate
    case LatencyMs => a.latencyMs
    case EstimatedCost => a.estimatedCost
    case InputTokens => a.inputTokens
    case OutputTokens => a.outputTokens
    case LlmCalls => a.llmCalls
    case ToolCalls => a.toolCalls
    case ActionProposals => a.actionProposals
  }

  predicate IsRate(key: Metric) {
    key in {SchemaValidity, Quality, Success, Failure, ManualReview, FirstPassAcceptance, Revision, LatencyMs}
  }

  /** `x` is `sum` shared out among `n`, nothing if there is none. */
  predicate IsMean(x: real, sum: real, n: nat) {
    if n == 0 then x == 0.0 else x == sum / n as real
  }

  lemma MeanTimesCount(x: real, sum: real, n: nat)
    requires IsMean(x, sum, n) && n > 0
    ensures x * n as real == sum
  {
    DividedBack(sum, n as real);
  }

  /** Every rate is the mean over the cases, the cost is their sum, and the other totals are sums of whole numbers. */
  ghost predicate Sums(a: Aggregate, n: nat, sum: Metric -> real, whole: Metric -> real) {
    && a.caseCount == n
    && (forall key :: IsRate(key) ==> IsMean(RateOf(a, key), sum(key), n))
    && a.estimatedCost == sum(EstimatedCost)
    && (forall key :: !IsRate(key) && key != EstimatedCost ==> RateOf(a, key) == whole(key))
  }

  lemma RateIsMean(rows: seq<Metrics>, key: Metric)
    requires IsRate(key)
    ensures IsMean(RateOf(AggregateCaseMetrics(rows), key), Plain(rows, key), |rows|)
  {
  }

  lemma TotalIsSum(rows: seq<Metrics>, key: Metric)
    requires !IsRate(key)
    ensures RateOf(AggregateCaseMetrics(rows), key) == (if key == EstimatedCost then Plain(rows, key) else Total(rows, key))
    ensures AggregateCaseMetrics(rows).caseCount == |rows|
  {
  }

  lemma AggregateSums(rows: seq<Metrics>, a: Aggregate, sum: Metric -> real, whole: Metric -> real)
    requires a == AggregateCaseMetrics(rows) && forall key :: sum(key) == Plain(rows, key) && whole(key) == Total(rows, key)
    ensures Sums(a, |rows|, sum, whole)
  {
    forall key | IsRate(key) ensures IsMean(RateOf(a, key), sum(key), |rows|) {
      RateIsMean(rows, key);
    }
    TotalIsSum(rows, EstimatedCost);
    forall key | !IsRate(key) && key != EstimatedCost ensures RateOf(a, key) == whole(key) {
      TotalIsSum(rows, key);
    }
  }

  /** A finished experiment reports, for each version, the executor's own metrics summed over the sampled cases. */
  lemma ReportSumsTheCases(cases: seq<CaseId>, executor: Executor, steps: seq<Step>)
    requires Distinct(cases) && Run(NEW, cases, executor, steps).status == Completed
    ensures Run(NEW, cases, executor, steps).result.Some?
    ensures var r := Run(NEW, cases, executor, steps).result.value;
      && Sums(r.control, |cases|, (key: Metric) => CaseSum(cases, executor, Control, key), (key: Metric) => WholeSum(cases, executor, Control, key))
      && Sums(r.candidate, |cases|, (key: Metric) => CaseSum(cases, executor, Candidate, key), (key: Metric) => WholeSum(cases, executor, Candidate, key))
  {
    ResumptionConverges(cases, executor, steps);
    VersionSums(cases, executor, Control);
    VersionSums(cases, executor, Candidate);
  }

  /** Rate by rate: the mean of the executor's metrics of that name, so that times the number of cases it is their sum. */
  lemma RatesAreMeans(cases: seq<CaseId>, executor: Executor, steps: seq<Step>, key: Metric)
    requires Distinct(cases) && Run(NEW, cases, executor, steps).status == Completed && IsRate(key)
    ensures Run(NEW, cases, executor, steps).result.Some?
    ensures var r := Run(NEW, cases, executor, steps).result.value;
      && IsMean(RateOf(r.control, key), CaseSum(cases, executor, Control, key), |cases|)
      && IsMean(RateOf(r.candidate, key), CaseSum(cases, executor, Candidate, key), |cases|)
  {
    ReportSumsTheCases(cases, executor, steps);
  }

  lemma VersionSums(cases: seq<CaseId>, executor: Executor, v: Variant)
    ensures Sums(AggregateCaseMetrics(IdealMetrics(cases, executor, v)), |cases|,
                 (key: Metric) => CaseSum(cases, executor, v, key), (key: Metric) => WholeSum(cases, executor, v, key))
  {
    var rows := IdealMetrics(cases, executor, v);
    IdealSums(cases, executor, v, Success);
    forall key: Metric ensures CaseSum(cases, executor, v, key) == Plain(rows, key) && WholeSum(cases, executor, v, key) == Total(rows, key) {
      IdealSums(cases, executor, v, key);
    }
    AggregateSums(rows, AggregateCaseMetrics(rows), (key: Metric) => CaseSum(cases, executor, v, key), (key: Metric) => WholeSum(cases, executor, v, key));
  }

  // ----- the winner

  /** How far the candidate leads: quality, validity, success and first-pass acceptance for it, the rest against it. */
  function Lead(c: Aggregate, d: Aggregate): real {
    (d.qualityScore - c.qualityScore) + (d.schemaValidityRate - c.schemaValidityRate) + (d.successRate - c.successRate)
    + (d.firstPassAcceptanceRate - c.firstPassAcceptanceRate) - (d.failureRate - c.failureRate)
    - (d.manualReviewRate - c.manualReviewRate) / 4.0 - (d.revisionRate - c.revisionRate) / 4.0
    - (d.estimatedCost - c.estimatedCost) - (d.latencyMs - c.latencyMs) / 10000.0
  }

  lemma LeadIsScoreGap(c: Aggregate, d: Aggregate)
    ensures Score(d) - Score(c) == Lead(c, d)
  {
  }

  lemma WinnerOf(c: Aggregate, d: Aggregate)
    ensures ChooseWinner(c, d) == Some(Candidate) <==> Lead(c, d) >= 0.001
    ensures ChooseWinner(c, d) == Some(Control) <==> Lead(c, d) <= -0.001
    ensures ChooseWinner(c, d) == None <==> -0.001 < Lead(c, d) < 0.001
  {
    LeadIsScoreGap(c, d);
  }

  /** A version wins exactly if it leads by a thousandth or more. */
  lemma WinnerByLead(control: seq<Metrics>, candidate: seq<Metrics>)
    ensures var r := ReportOf(control, candidate);
      && (r.winner == Some(Candidate) <==> Lead(r.control, r.candidate) >= 0.001)
      && (r.winner == Some(Control) <==> Lead(r.control, r.candidate) <= -0.001)
      && (r.winner == None <==> -0.001 < Lead(r.control, r.candidate) < 0.001)
  {
    WinnerOf(AggregateCaseMetrics(control), AggregateCaseMetrics(candidate));
  }

  lemma FinishedWinnerByLead(cases: seq<CaseId>, executor: Executor, steps: seq<Step>)
    requires Distinct(cases) && Run(NEW, cases, executor, steps).status == Completed
    ensures Run(NEW, cases, executor, steps).result.Some?
    ensures var r := Run(NEW, cases, executor, steps).result.value;
      && (r.winner == Some(Candidate) <==> Lead(r.control, r.candidate) >= 0.001)
      && (r.winner == Some(Control) <==> Lead(r.control, r.candidate) <= -0.001)
  {
    ResumptionConverges(cases, executor, steps);
    WinnerByLead(IdealMetrics(cases, executor, Control), IdealMetrics(cases, executor, Candidate));
  }

  /** At least as good in every respect that counts. */
  predicate AtLeastAsGood(a: Aggregate, b: Aggregate) {
    && a.qualityScore >= b.qualityScore && a.schemaValidityRate >= b.schemaValidityRate && a.successRate >= b.successRate
    && a.firstPassAcceptanceRate >= b.firstPassAcceptanceRate && a.failureRate <= b.failureRate
    && a.manualReviewRate <= b.manualReviewRate && a.revisionRate <= b.revisionRate && a.estimatedCost <= b.estimatedCost
    && a.latencyMs <= b.latencyMs
  }

  /** Getting better, or an opponent getting worse, never loses a win; and so getting worse never gains one. */
  lemma BetterNeverLosesAWin(control: seq<Metrics>, candidate: seq<Metrics>, control': seq<Metrics>, candidate': seq<Metrics>)
    requires ReportOf(control, candidate).winner == Some(Candidate)
    requires AtLeastAsGood(ReportOf(control', candidate').candidate, ReportOf(control, candidate).candidate)
    requires AtLeastAsGood(ReportOf(control, candidate).control, ReportOf(control', candidate').control)
    ensures ReportOf(control', candidate').winner == Some(Candidate)
  {
    WinnerByLead(control, candidate);
    WinnerByLead(control', candidate');
  }

  /** The two sides are treated alike. */
  lemma ExchangedSidesExchangeWinner(control: seq<Metrics>, candidate: seq<Metrics>)
    ensures ReportOf(control, candidate).winner == Some(Control) <==> ReportOf(candidate, control).winner == Some(Candidate)
    ensures ReportOf(control, candidate).winner == None <==> ReportOf(candidate, control).winner == None
  {
    WinnerByLead(control, candidate);
    WinnerByLead(candidate, control);
  }

  // ----- comparisons

  function RowMetric(rows: C.Rows, k: C.Key, provider: C.Provider, key: Metric): real {
    if k in rows && k.0 == provider && rows[k].CompletedRow? && key in rows[k].metrics then rows[k].metrics[key] else 0.0
  }

  /** Over the provider's completed rows in a listing. */
  function RowSum(order: seq<C.Key>, rows: C.Rows, provider: C.Provider, key: Metric): real {
    if order == [] then 0.0 else RowMetric(rows, order[0], provider, key) + RowSum(order[1..], rows, provider, key)
  }

  function WholeRowSum(order: seq<C.Key>, rows: C.Rows, provider: C.Provider, key: Metric): real {
    if order == [] then 0.0 else Truncated(RowMetric(rows, order[0], provider, key)) + WholeRowSum(order[1..], rows, provider, key)
  }

  lemma SumsOfOneMore(m: Metrics, rest: seq<Metrics>, key: Metric)
    ensures Plain([m] + rest, key) == Get(m, key) + Plain(rest, key)
    ensures Total([m] + rest, key) == Truncated(Get(m, key)) + Total(rest, key)
  {
    assert ([m] + rest)[1..] == rest;
  }

  predicate Counts(rows: C.Rows, k: C.Key, provider: C.Provider) {
    k in rows && k.0 == provider && rows[k].CompletedRow?
  }

  lemma CompletedStep(order: seq<C.Key>, rows: C.Rows, provider: C.Provider)
    requires order != []
    ensures C.CompletedOf(order, rows, provider)
         == (if Counts(rows, order[0], provider) then [rows[order[0]].metrics] else []) + C.CompletedOf(order[1..], rows, provider)
  {
  }

  lemma RowMetricIs(rows: C.Rows, k: C.Key, provider: C.Provider, key: Metric)
    ensures RowMetric(rows, k, provider, key) == (if Counts(rows, k, provider) then Get(rows[k].metrics, key) else 0.0)
    ensures Truncated(0.0) == 0.0
  {
  }

  lemma {:induction false} CompletedSums(order: seq<C.Key>, rows: C.Rows, provider: C.Provider, key: Metric)
    ensures Plain(C.CompletedOf(order, rows, provider), key) == RowSum(order, rows, provider, key)
    ensures Total(C.CompletedOf(order, rows, provider), key) == WholeRowSum(order, rows, provider, key)
  {
    if order == [] {
    } else {
      var k, rest := order[0], C.CompletedOf(order[1..], rows, provider);
      CompletedSums(order[1..], rows, provider, key);
      CompletedStep(order, rows, provider);
      RowMetricIs(rows, k, provider, key);
      if Counts(rows, k, provider) {
        SumsOfOneMore(rows[k].metrics, rest, key);
      } else {
        assert [] + rest == rest;
      }
    }
  }

  /** A provider's line: its completed rows' own metrics, and the share of failures among the attempted. */
  lemma LineSumsItsRows(order: seq<C.Key>, rows: C.Rows, provider: C.Provider)
    ensures var e := C.EntryOf(order, rows, provider);
      Sums(e.metrics, |C.CompletedOf(order, rows, provider)|,
              (key: Metric) => RowSum(order, rows, provider, key), (key: Metric) => WholeRowSum(order, rows, provider, key))
  {
    var completed := C.CompletedOf(order, rows, provider);
    forall key: Metric
      ensures RowSum(order, rows, provider, key) == Plain(completed, key) && WholeRowSum(order, rows, provider, key) == Total(completed, key)
    {
      CompletedSums(order, rows, provider, key);
    }
    AggregateSums(completed, AggregateCaseMetrics(completed), (key: Metric) => RowSum(order, rows, provider, key), (key: Metric) => WholeRowSum(order, rows, provider, key));
  }

  /** A line's score: quality, validity and success for the provider, its share of failures, its cost and its latency against it. */
  predicate ScoreIsRight(e: C.Entry) {
    && e.score == e.metrics.qualityScore + e.metrics.schemaValidityRate + e.metrics.successRate - e.failureRate
                  - e.metrics.estimatedCost - e.metrics.latencyMs / 10000.0
    && IsMean(e.failureRate, e.failed as real, e.attempted)
  }

  lemma LineIsScored(order: seq<C.Key>, rows: C.Rows, provider: C.Provider)
    ensures ScoreIsRight(C.EntryOf(order, rows, provider))
  {
    C.EntryCounts(order, rows, provider);
  }

  /** All lines of a comparison are scored so. */
  ghost predicate ReportScored(c: C.Comparison) {
    c.report.Some? ==> forall i :: 0 <= i < |c.report.value.entries| ==> ScoreIsRight(c.report.value.entries[i])
  }

  lemma FinishKeepsScores(c: C.Comparison, providers: seq<C.Provider>, order: seq<C.Key>, recommended: nat)
    requires ReportScored(c)
    ensures ReportScored(C.FinishedFrom(c, providers, order, recommended))
  {
    var entries := C.Entries(order, c.rows, providers);
    forall i | 0 <= i < |entries| ensures ScoreIsRight(entries[i]) {
      LineIsScored(order, c.rows, providers[i]);
    }
  }

  lemma {:induction false} ReportsAreScored(c: C.Comparison, providers: seq<C.Provider>, cases: seq<CaseId>, executor: C.Executor, steps: seq<C.Step>)
    requires ReportScored(c)
    ensures ReportScored(C.Run(c, providers, cases, executor, steps))
    decreases |steps|
  {
    if steps == [] {
    } else {
      var s := steps[0];
      if s.RunOnce? {
        RunKeepsScores(c, providers, cases, executor, s.attempt, s.recommended);
      }
      ReportsAreScored(C.Apply(c, providers, cases, executor, s), providers, cases, executor, steps[1..]);
    }
  }

  lemma RunKeepsScores(c: C.Comparison, providers: seq<C.Provider>, cases: seq<CaseId>, executor: C.Executor, a: C.Attempt, recommended: nat)
    requires ReportScored(c)
    ensures ReportScored(C.AfterRun(c, providers, cases, executor, a, recommended))
  {
    var (rows, done) := C.Worked(c.rows, C.Work(providers, cases), executor, a);
    var worked := c.(status := if a.cancelledMeanwhile then Cancelled else Running, rows := rows);
    assert ReportScored(worked);
    FinishKeepsScores(worked, providers, a.order, recommended);
  }

  /** In every report ever produced the recommended provider completed a case, and no other that did scores higher, in terms of what the lines say. */
  lemma RecommendationByScore(providers: seq<C.Provider>, cases: seq<CaseId>, executor: C.Executor, steps: seq<C.Step>)
    requires Distinct(cases) && C.Run(C.NEW, providers, cases, executor, steps).report.Some?
    ensures var r := C.Run(C.NEW, providers, cases, executor, steps).report.value;
      && (forall i :: 0 <= i < |r.entries| ==> ScoreIsRight(r.entries[i]))
      && exists i: nat :: i < |r.entries| && r.entries[i].provider == r.recommended && r.entries[i].metrics.caseCount > 0
           && forall j :: 0 <= j < |r.entries| && r.entries[j].metrics.caseCount > 0 ==> r.entries[j].score <= r.entries[i].score
  {
    ReportsAreScored(C.NEW, providers, cases, executor, steps);
    C.ReportsAccountForEveryCase(providers, cases, executor, steps);
    var r := C.Run(C.NEW, providers, cases, executor, steps).report.value;
    var i: nat :| C.IsRecommended(r.entries, i) && r.entries[i].provider == r.recommended;
  }
}
