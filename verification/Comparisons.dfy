/** Provider comparisons: the run and the report of `ProviderComparisonRunner` in app/prompt_management/runners.py. */
module Comparisons {
  import opened Wrappers
  import opened Selection
  import opened Permutations
  import E = Experiments

  type Provider = string

  type Key = (Provider, E.CaseId)

  type Rows = map<Key, E.Row>

  type Executor = Key -> E.Executed

  /** What befalls the comparison: provider clients that cannot be built, and an incident for each provider and case. */
  datatype Attempt = Attempt(
    factoryError: Provider -> Option<(string, string)>,
    incident: Key -> E.Incident,
    cancelledMeanwhile: bool,
    crashesAtEnd: bool,
    order: seq<Key>)

  predicate Done(rows: Rows, key: Key) {
    key in rows && rows[key].CompletedRow?
  }

  function WorkOf(provider: Provider, cases: seq<E.CaseId>): seq<Key> {
    seq(|cases|, i requires 0 <= i < |cases| => (provider, cases[i]))
  }

  /** Providers outside, cases inside. */
  function Work(providers: seq<Provider>, cases: seq<E.CaseId>): seq<Key> {
    if providers == [] then [] else WorkOf(providers[0], cases) + Work(providers[1..], cases)
  }

  /** The row one loop body leaves, or None when it leaves what was there; the flag is false when the run stops here. */
  function Body(rows: Rows, key: Key, executor: Executor, a: Attempt): (Rows, bool) {
    var failed := a.factoryError(key.0);
    var incident := a.incident(key);
    if failed.Some? then
      // no checkpoint and no look at the row on this path
      if incident.Crashes? then (rows, false) else (rows[key := E.RecordedFailure(failed.value.0, failed.value.1)], true)
    else if incident.CheckpointCancels? then (rows, false)
    else if Done(rows, key) then (rows, true)
    else
      match incident
      case Proceeds => (rows[key := E.Recorded(executor(key))], true)
      case ExecutorRaises(code, message) => (rows[key := E.RecordedFailure(code, message)], true)
      case _ => (rows, false)
  }

  function Worked(rows: Rows, work: seq<Key>, executor: Executor, a: Attempt): (Rows, bool)
    decreases |work|
  {
    if work == [] then (rows, true)
    else
      var (after, goOn) := Body(rows, work[0], executor, a);
      if goOn then Worked(after, work[1..], executor, a) else (after, false)
  }

  lemma {:induction false} WorkedAppend(rows: Rows, a: seq<Key>, b: seq<Key>, executor: Executor, attempt: Attempt)
    ensures var (mid, finished) := Worked(rows, a, executor, attempt);
      Worked(rows, a + b, executor, attempt) == (if finished then Worked(mid, b, executor, attempt) else (mid, false))
    decreases |a|
  {
    if a == [] {
      assert a + b == b;
    } else {
      assert (a + b)[0] == a[0] && (a + b)[1..] == a[1..] + b;
      WorkedAppend(Body(rows, a[0], executor, attempt).0, a[1..], b, executor, attempt);
    }
  }

  /**
   A completed row does not survive every later run: one whose provider's client cannot be built overwrites it. Of a run
   that gets to the end, these are exactly the completed rows it loses; all others are left as they were.
   */
  lemma {:induction false} CompletedRowSurvivesIff(rows: Rows, work: seq<Key>, executor: Executor, a: Attempt, k: Key)
    requires Done(rows, k) && k in work && Worked(rows, work, executor, a).1
    ensures Done(Worked(rows, work, executor, a).0, k) <==> a.factoryError(k.0) == None
    ensures a.factoryError(k.0) == None ==> Worked(rows, work, executor, a).0[k] == rows[k]
    decreases |work|
  {
    var after := Body(rows, work[0], executor, a).0;
    assert k == work[0] || k in work[1..];
    if a.factoryError(k.0) == None {
      AvailableProviderKeepsRow(after, work[1..], executor, a, k);
    } else if k in work[1..] && Done(after, k) {
      CompletedRowSurvivesIff(after, work[1..], executor, a, k);
    } else {
      UnavailableProviderAddsNone(after, work[1..], executor, a, k);
    }
  }

  lemma {:induction false} AvailableProviderKeepsRow(rows: Rows, work: seq<Key>, executor: Executor, a: Attempt, k: Key)
    requires Done(rows, k) && a.factoryError(k.0) == None
    ensures var after := Worked(rows, work, executor, a).0; k in after && after[k] == rows[k]
    decreases |work|
  {
    if work == [] {
    } else {
      AvailableProviderKeepsRow(Body(rows, work[0], executor, a).0, work[1..], executor, a, k);
    }
  }

  lemma {:induction false} UnavailableProviderAddsNone(rows: Rows, work: seq<Key>, executor: Executor, a: Attempt, k: Key)
    requires !Done(rows, k) && a.factoryError(k.0) != None
    ensures !Done(Worked(rows, work, executor, a).0, k)
    decreases |work|
  {
    if work == [] {
    } else {
      UnavailableProviderAddsNone(Body(rows, work[0], executor, a).0, work[1..], executor, a, k);
    }
  }

  // ----- report

  ghost predicate Lists(order: seq<Key>, rows: Rows) {
    Distinct(order) && forall k :: k in order <==> k in rows
  }

  function CompletedOf(order: seq<Key>, rows: Rows, provider: Provider): seq<E.Metrics> {
    if order == [] then []
    else
      (if order[0] in rows && order[0].0 == provider && rows[order[0]].CompletedRow? then [rows[order[0]].metrics] else [])
      + CompletedOf(order[1..], rows, provider)
  }

  function FailedCount(order: seq<Key>, rows: Rows, provider: Provider): nat {
    if order == [] then 0
    else
      (if order[0] in rows && order[0].0 == provider && rows[order[0]].FailedRow? then 1 else 0) + FailedCount(order[1..], rows, provider)
  }

  /** A provider's line of the report. `failureRate` replaces the one computed from the completed rows. */
  datatype Entry = Entry(provider: Provider, metrics: E.Aggregate, attempted: nat, failed: nat, failureRate: real, score: real)

  function ScoreOf(m: E.Aggregate, failureRate: real): real {
    m.qualityScore + m.schemaValidityRate + m.successRate - failureRate - m.estimatedCost - m.latencyMs * 0.0001
  }

  function EntryOf(order: seq<Key>, rows: Rows, provider: Provider): Entry {
    var metrics := E.AggregateCaseMetrics(CompletedOf(order, rows, provider));
    var failed := FailedCount(order, rows, provider);
    var attempted := metrics.caseCount + failed;
    var failureRate := if attempted == 0 then 0.0 else failed as real / attempted as real;
    Entry(provider, metrics, attempted, failed, failureRate, ScoreOf(metrics, failureRate))
  }

  function Entries(order: seq<Key>, rows: Rows, providers: seq<Provider>): (r: seq<Entry>)
    ensures |r| == |providers| && forall i :: 0 <= i < |providers| ==> r[i] == EntryOf(order, rows, providers[i])
  {
    if providers == [] then [] else [EntryOf(order, rows, providers[0])] + Entries(order, rows, providers[1..])
  }

  datatype Report = Report(entries: seq<Entry>, recommended: Provider)

  /** Entry `i` is the first of maximal score among the entries with a completed case. */
  ghost predicate IsRecommended(entries: seq<Entry>, i: nat) {
    && i < |entries| && entries[i].metrics.caseCount > 0
    && (forall j :: 0 <= j < |entries| && entries[j].metrics.caseCount > 0 ==> entries[j].score <= entries[i].score)
    && (forall j :: 0 <= j < i && entries[j].metrics.caseCount > 0 ==> entries[j].score < entries[i].score)
  }

  /** `max(successful, key=score)`, or nothing when every execution failed. */
  method Recommend(entries: seq<Entry>) returns (best: Option<nat>)
    ensures best.Some? ==> IsRecommended(entries, best.value)
    ensures best == None <==> forall j :: 0 <= j < |entries| ==> entries[j].metrics.caseCount == 0
  {
    best := None;
    var i := 0;
    while i < |entries|
      invariant 0 <= i <= |entries|
      invariant best.Some? ==> best.value < i && IsRecommended(entries[..i], best.value)
      invariant best == None <==> forall j :: 0 <= j < i ==> entries[j].metrics.caseCount == 0
    {
      if entries[i].metrics.caseCount > 0 && (best == None || entries[i].score > entries[best.value].score) {
        best := Some(i);
      }
      i := i + 1;
    }
    assert entries[..|entries|] == entries;
  }

  lemma RecommendationIsUnique(entries: seq<Entry>, i: nat, j: nat)
    requires IsRecommended(entries, i) && IsRecommended(entries, j)
    ensures i == j
  {
  }

  // ----- accounting

  ghost predicate Complete(rows: Rows, providers: seq<Provider>, cases: seq<E.CaseId>) {
    forall k: Key :: k in rows <==> k.0 in providers && k.1 in cases
  }

  ghost predicate Within(rows: Rows, providers: seq<Provider>, cases: seq<E.CaseId>) {
    forall k: Key :: k in rows ==> k.0 in providers && k.1 in cases
  }

  lemma {:induction false} WorkCovers(providers: seq<Provider>, cases: seq<E.CaseId>, k: Key)
    ensures k in Work(providers, cases) <==> k.0 in providers && k.1 in cases
  {
    if providers == [] {
    } else {
      var head := WorkOf(providers[0], cases);
      WorkCovers(providers[1..], cases, k);
      assert k in head <==> k.0 == providers[0] && k.1 in cases by {
        if k.0 == providers[0] && k.1 in cases {
          var i :| 0 <= i < |cases| && cases[i] == k.1;
          assert head[i] == k;
        }
      }
      assert k in head + Work(providers[1..], cases) <==> k in head || k in Work(providers[1..], cases);
    }
  }

  /** Rows only appear for the work at hand, and a run that gets to the end has one for all of it. */
  lemma {:induction false} WorkedFills(rows: Rows, work: seq<Key>, executor: Executor, a: Attempt)
    ensures var (after, finished) := Worked(rows, work, executor, a);
      && (forall k :: k in after ==> k in rows || k in work)
      && (forall k :: k in rows ==> k in after)
      && (finished ==> forall k :: k in work ==> k in after)
    decreases |work|
  {
    if work == [] {
    } else {
      var (after, goOn) := Body(rows, work[0], executor, a);
      assert work[0] in work && forall k :: k in work <==> k == work[0] || k in work[1..];
      if goOn {
        WorkedFills(after, work[1..], executor, a);
      }
    }
  }

  lemma {:induction false} SplitByStatus(order: seq<Key>, rows: Rows, provider: Provider)
    requires forall k :: k in order ==> k in rows
    ensures |CompletedOf(order, rows, provider)| + FailedCount(order, rows, provider) == |Ours(order, provider)|
  {
    if order == [] {
    } else {
      assert order[0] in order && forall k :: k in order[1..] ==> k in order;
      SplitByStatus(order[1..], rows, provider);
    }
  }

  /** The case ids of a provider's rows in a listing. */
  function Ours(order: seq<Key>, provider: Provider): seq<E.CaseId> {
    if order == [] then [] else (if order[0].0 == provider then [order[0].1] else []) + Ours(order[1..], provider)
  }

  lemma {:induction false} OursAre(order: seq<Key>, provider: Provider)
    requires Distinct(order)
    ensures Distinct(Ours(order, provider)) && forall c :: c in Ours(order, provider) <==> (provider, c) in order
  {
    if order == [] {
    } else {
      OursAre(order[1..], provider);
      assert forall k :: k in order <==> k == order[0] || k in order[1..];
      assert order[0] !in order[1..];
      var head, tail := if order[0].0 == provider then [order[0].1] else [], Ours(order[1..], provider);
      assert Ours(order, provider) == head + tail;
      assert forall c :: c in head + tail <==> c in head || c in tail;
      assert order[0] == (order[0].0, order[0].1);
    }
  }

  lemma EveryCaseIsCounted(order: seq<Key>, rows: Rows, providers: seq<Provider>, cases: seq<E.CaseId>, provider: Provider)
    requires Distinct(cases) && Lists(order, rows) && Complete(rows, providers, cases) && provider in providers
    ensures |CompletedOf(order, rows, provider)| + FailedCount(order, rows, provider) == |cases|
  {
    SplitByStatus(order, rows, provider);
    OursAre(order, provider);
    SameRows(Ours(order, provider), cases);
    assert |multiset(Ours(order, provider))| == |Ours(order, provider)| && |multiset(cases)| == |cases|;
  }

  /** What a line counts. */
  lemma EntryCounts(order: seq<Key>, rows: Rows, provider: Provider)
    ensures var e := EntryOf(order, rows, provider);
      e.metrics.caseCount == |CompletedOf(order, rows, provider)| && e.failed == FailedCount(order, rows, provider)
      && e.attempted == e.metrics.caseCount + e.failed
  {
  }

  /** With a row for every provider and case, each provider attempted exactly the sampled cases. */
  lemma CompleteRowsAccount(order: seq<Key>, rows: Rows, providers: seq<Provider>, cases: seq<E.CaseId>, provider: Provider)
    requires Distinct(cases) && Lists(order, rows) && Complete(rows, providers, cases) && provider in providers
    ensures var e := EntryOf(order, rows, provider);
      e.attempted == e.metrics.caseCount + e.failed == |cases|
  {
    EveryCaseIsCounted(order, rows, providers, cases, provider);
    EntryCounts(order, rows, provider);
  }

  // ----- runs

  datatype Comparison = Comparison(status: E.Status, rows: Rows, report: Option<Report>)

  const NEW := Comparison(E.Running, map[], None)

  datatype Step =
    | RunOnce(attempt: Attempt, recommended: nat)
    | Terminal(cancelled: bool)
    | PrepareRetry

  /** A finished run's listing shows the rows there are, and its recommendation is the one `Recommend` makes, if any. */
  ghost predicate StepOk(c: Comparison, providers: seq<Provider>, cases: seq<E.CaseId>, executor: Executor, s: Step) {
    s.RunOnce? ==>
      var rows := Worked(c.rows, Work(providers, cases), executor, s.attempt).0;
      && Lists(s.attempt.order, rows)
      && ((exists i: nat :: IsRecommended(Entries(s.attempt.order, rows, providers), i))
          ==> IsRecommended(Entries(s.attempt.order, rows, providers), s.recommended))
  }

  /** What the final transaction writes: nothing for a cancelled comparison or when no case completed. */
  ghost function Finished(c: Comparison, entries: seq<Entry>, recommended: nat): Comparison {
    if c.status == E.Cancelled || !IsRecommended(entries, recommended) then c
    else c.(status := E.Completed, report := Some(Report(entries, entries[recommended].provider)))
  }

  ghost function FinishedFrom(c: Comparison, providers: seq<Provider>, order: seq<Key>, recommended: nat): Comparison {
    Finished(c, Entries(order, c.rows, providers), recommended)
  }

  ghost function AfterRun(c: Comparison, providers: seq<Provider>, cases: seq<E.CaseId>, executor: Executor, a: Attempt, recommended: nat): Comparison {
    if c.status == E.Completed || c.status == E.Cancelled || cases == [] then c
    else
      var (rows, done) := Worked(c.rows, Work(providers, cases), executor, a);
      var worked := c.(status := if a.cancelledMeanwhile then E.Cancelled else E.Running, rows := rows);
      if !done || a.crashesAtEnd then worked else FinishedFrom(worked, providers, a.order, recommended)
  }

  ghost function Apply(c: Comparison, providers: seq<Provider>, cases: seq<E.CaseId>, executor: Executor, s: Step): Comparison {
    match s
    case RunOnce(a, recommended) => if StepOk(c, providers, cases, executor, s) then AfterRun(c, providers, cases, executor, a, recommended) else c
    case Terminal(cancelled) => c.(status := if cancelled then E.Cancelled else E.Failed)
    case PrepareRetry => c.(status := E.Running)
  }

  ghost function Run(c: Comparison, providers: seq<Provider>, cases: seq<E.CaseId>, executor: Executor, steps: seq<Step>): Comparison
    decreases |steps|
  {
    if steps == [] then c else Run(Apply(c, providers, cases, executor, steps[0]), providers, cases, executor, steps[1..])
  }

  /** What a report says, whatever came before it. */
  ghost predicate ReportOk(r: Report, providers: seq<Provider>, cases: seq<E.CaseId>) {
    && |r.entries| == |providers|
    && (forall i :: 0 <= i < |providers| ==> r.entries[i].provider == providers[i])
    && (forall i :: 0 <= i < |providers| ==>
          r.entries[i].attempted == r.entries[i].metrics.caseCount + r.entries[i].failed == |cases|)
    && exists i: nat :: IsRecommended(r.entries, i) && r.entries[i].provider == r.recommended
  }

  ghost predicate Inv(c: Comparison, providers: seq<Provider>, cases: seq<E.CaseId>) {
    Within(c.rows, providers, cases) && (c.report.Some? ==> ReportOk(c.report.value, providers, cases))
  }

  lemma FinishedRowsAreComplete(rows: Rows, providers: seq<Provider>, cases: seq<E.CaseId>, executor: Executor, a: Attempt)
    requires Within(rows, providers, cases)
    ensures var (after, done) := Worked(rows, Work(providers, cases), executor, a);
      Within(after, providers, cases) && (done ==> Complete(after, providers, cases))
  {
    WorkedFills(rows, Work(providers, cases), executor, a);
    forall k: Key ensures k in Work(providers, cases) <==> k.0 in providers && k.1 in cases {
      WorkCovers(providers, cases, k);
    }
  }

  lemma CompleteRowsReport(order: seq<Key>, rows: Rows, providers: seq<Provider>, cases: seq<E.CaseId>, recommended: nat)
    requires Distinct(cases) && Lists(order, rows) && Complete(rows, providers, cases)
    requires IsRecommended(Entries(order, rows, providers), recommended)
    ensures ReportOk(Report(Entries(order, rows, providers), Entries(order, rows, providers)[recommended].provider), providers, cases)
  {
    forall i | 0 <= i < |providers|
      ensures var e := Entries(order, rows, providers)[i]; e.attempted == e.metrics.caseCount + e.failed == |cases|
    {
      CompleteRowsAccount(order, rows, providers, cases, providers[i]);
    }
  }

  lemma FinishKeepsInv(c: Comparison, providers: seq<Provider>, cases: seq<E.CaseId>, order: seq<Key>, recommended: nat)
    requires Distinct(cases) && Inv(c, providers, cases) && Complete(c.rows, providers, cases) && Lists(order, c.rows)
    ensures Inv(FinishedFrom(c, providers, order, recommended), providers, cases)
  {
    if c.status != E.Cancelled && IsRecommended(Entries(order, c.rows, providers), recommended) {
      CompleteRowsReport(order, c.rows, providers, cases, recommended);
    }
  }

  lemma StepKeepsInv(c: Comparison, providers: seq<Provider>, cases: seq<E.CaseId>, executor: Executor, s: Step)
    requires Distinct(cases) && Inv(c, providers, cases)
    ensures Inv(Apply(c, providers, cases, executor, s), providers, cases)
  {
    if s.RunOnce? && StepOk(c, providers, cases, executor, s) {
      var (rows, done) := Worked(c.rows, Work(providers, cases), executor, s.attempt);
      FinishedRowsAreComplete(c.rows, providers, cases, executor, s.attempt);
      var worked := c.(status := if s.attempt.cancelledMeanwhile then E.Cancelled else E.Running, rows := rows);
      assert Inv(worked, providers, cases);
      if done {
        FinishKeepsInv(worked, providers, cases, s.attempt.order, s.recommended);
      }
    }
  }

  lemma {:induction false} RunKeepsInv(c: Comparison, providers: seq<Provider>, cases: seq<E.CaseId>, executor: Executor, steps: seq<Step>)
    requires Distinct(cases) && Inv(c, providers, cases)
    ensures Inv(Run(c, providers, cases, executor, steps), providers, cases)
    decreases |steps|
  {
    if steps == [] {
    } else {
      StepKeepsInv(c, providers, cases, executor, steps[0]);
      RunKeepsInv(Apply(c, providers, cases, executor, steps[0]), providers, cases, executor, steps[1..]);
    }
  }

  /**
   Comparison accounting: any report, after any interrupted runs and retries, has one line per provider whose completed
   and failed cases add up to the sampled cases, and recommends the first provider of maximal score with a completed case.
   */
  lemma ReportsAccountForEveryCase(providers: seq<Provider>, cases: seq<E.CaseId>, executor: Executor, steps: seq<Step>)
    requires Distinct(cases) && Run(NEW, providers, cases, executor, steps).report.Some?
    ensures ReportOk(Run(NEW, providers, cases, executor, steps).report.value, providers, cases)
  {
    RunKeepsInv(NEW, providers, cases, executor, steps);
  }

  // ----- a reachable example

  const KEY: Key := ("p", 0)

  function Unfinished(unavailable: bool): Attempt {
    Attempt((p: Provider) => if unavailable then Some(("PROVIDER_CONFIGURATION", "m")) else None, (k: Key) => E.Proceeds, false, true, [KEY])
  }

  function OneRow(executor: Executor, unavailable: bool): E.Row {
    if unavailable then E.RecordedFailure("PROVIDER_CONFIGURATION", "m") else E.Recorded(executor(KEY))
  }

  lemma OneBody(rows: Rows, executor: Executor, unavailable: bool)
    requires rows.Keys <= {KEY} && !(Done(rows, KEY) && !unavailable)
    ensures Worked(rows, Work(["p"], [0]), executor, Unfinished(unavailable)) == (map[KEY := OneRow(executor, unavailable)], true)
  {
    var a, work := Unfinished(unavailable), Work(["p"], [0]);
    assert WorkOf("p", [0]) == [KEY] && Work([], [0]) == [] && work == [KEY];
    var after := Body(rows, KEY, executor, a);
    assert after == (rows[KEY := OneRow(executor, unavailable)], true);
    assert Worked(rows, work, executor, a) == Worked(after.0, [], executor, a) == (after.0, true);
    assert after.0 == map[KEY := OneRow(executor, unavailable)];
  }

  lemma OneRun(c: Comparison, executor: Executor, unavailable: bool)
    requires c.status == E.Running && c.rows.Keys <= {KEY} && !(Done(c.rows, KEY) && !unavailable)
    ensures Apply(c, ["p"], [0], executor, RunOnce(Unfinished(unavailable), 0)) == c.(rows := map[KEY := OneRow(executor, unavailable)])
  {
    var a := Unfinished(unavailable);
    OneBody(c.rows, executor, unavailable);
    var rows := map[KEY := OneRow(executor, unavailable)];
    assert Lists(a.order, rows);
    if exists i: nat :: IsRecommended(Entries(a.order, rows, ["p"]), i) {
      var i: nat :| IsRecommended(Entries(a.order, rows, ["p"]), i);
      assert i == 0;
    }
  }

  /** A comparison is interrupted with its case completed; the next run cannot build the provider's client and records a failure over it. */
  lemma CompletedRowCanBeOverwritten(executor: Executor)
    ensures Done(Run(NEW, ["p"], [0], executor, [RunOnce(Unfinished(false), 0)]).rows, KEY)
    ensures var c := Run(NEW, ["p"], [0], executor, [RunOnce(Unfinished(false), 0), RunOnce(Unfinished(true), 0)]);
      KEY in c.rows && c.rows[KEY].FailedRow?
  {
    var s, t := RunOnce(Unfinished(false), 0), RunOnce(Unfinished(true), 0);
    OneRun(NEW, executor, false);
    var c := Apply(NEW, ["p"], [0], executor, s);
    OneRun(c, executor, true);
    assert [s, t][1..] == [t];
    assert Run(NEW, ["p"], [0], executor, [s]) == Run(c, ["p"], [0], executor, []);
    assert Run(NEW, ["p"], [0], executor, [s, t]) == Run(c, ["p"], [0], executor, [t])
        == Run(Apply(c, ["p"], [0], executor, t), ["p"], [0], executor, []);
  }
}
