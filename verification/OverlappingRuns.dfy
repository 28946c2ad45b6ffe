/**
 Two runs of one experiment at once, of app/prompt_management/runners.py: a stale handler whose lease has passed on may
 still work beside its successor. Both look at a row in one transaction and write it in a later one, and a failed
 execution is recorded over whatever row is there.
 */
module OverlappingRuns {
  import opened Wrappers
  import opened Selection
  import opened Experiments

  /** A row written by any run. */
  datatype Write = Completes(key: Key) | Fails(key: Key, code: string, message: string)

  function RowOf(w: Write, executor: Executor): Row {
    match w
    case Completes(key) => Recorded(executor(key))
    case Fails(_, code, message) => RecordedFailure(code, message)
  }

  function AfterWrites(rows: Rows, writes: seq<Write>, executor: Executor): Rows
    decreases |writes|
  {
    if writes == [] then rows
    else
      var last := writes[|writes| - 1];
      AfterWrites(rows, writes[..|writes| - 1], executor)[last.key := RowOf(last, executor)]
  }

  lemma {:induction false} AfterWritesAppend(rows: Rows, a: seq<Write>, b: seq<Write>, executor: Executor)
    ensures AfterWrites(rows, a + b, executor) == AfterWrites(AfterWrites(rows, a, executor), b, executor)
    decreases |b|
  {
    if b == [] {
      assert a + b == a;
    } else {
      assert (a + b)[..|a + b| - 1] == a + b[..|b| - 1];
      AfterWritesAppend(rows, a, b[..|b| - 1], executor);
    }
  }

  /** The last write to the row, if there is one. */
  function LastWrite(writes: seq<Write>, k: Key): Option<Write>
    decreases |writes|
  {
    if writes == [] then None
    else if writes[|writes| - 1].key == k then Some(writes[|writes| - 1])
    else LastWrite(writes[..|writes| - 1], k)
  }

  predicate EndsInFailure(writes: seq<Write>, k: Key) {
    LastWrite(writes, k).Some? && LastWrite(writes, k).value.Fails?
  }

  lemma {:induction false} LastWriteDecides(rows: Rows, writes: seq<Write>, executor: Executor, k: Key)
    ensures var after := AfterWrites(rows, writes, executor);
      match LastWrite(writes, k)
      case None => (k in after <==> k in rows) && (k in rows ==> after[k] == rows[k])
      case Some(w) => k in after && after[k] == RowOf(w, executor) && w.key == k
    decreases |writes|
  {
    if writes == [] {
    } else {
      LastWriteDecides(rows, writes[..|writes| - 1], executor, k);
    }
  }

  /** What other runs write before this one looks at a row, and between its look and its own write. */
  datatype Slot = Slot(beforeCheck: seq<Write>, beforeRecord: seq<Write>)

  /** The writes while this run handles one case: it skips a completed row, else executes and records. */
  function BodyWrites(rows: Rows, key: Key, executor: Executor, slot: Slot): seq<Write> {
    if Done(AfterWrites(rows, slot.beforeCheck, executor), key) then slot.beforeCheck
    else slot.beforeCheck + slot.beforeRecord + [Completes(key)]
  }

  /** All writes while this run works through its cases without an incident of its own. */
  function WalkWrites(rows: Rows, work: seq<Key>, executor: Executor, slots: Key -> Slot): seq<Write>
    decreases |work|
  {
    if work == [] then []
    else
      var body := BodyWrites(rows, work[0], executor, slots(work[0]));
      body + WalkWrites(AfterWrites(rows, body, executor), work[1..], executor, slots)
  }

  lemma BodySeesRowDone(rows: Rows, key: Key, executor: Executor, slot: Slot)
    ensures Done(AfterWrites(rows, BodyWrites(rows, key, executor, slot), executor), key)
  {
    if !Done(AfterWrites(rows, slot.beforeCheck, executor), key) {
      var before := slot.beforeCheck + slot.beforeRecord;
      assert (before + [Completes(key)])[..|before|] == before;
    }
  }

  /** After the walk, however it overlapped, a row of its work that nobody wrote was completed before, so only a last failure leaves one incomplete. */
  lemma {:induction false} WalkLeavesDoneUnlessFailed(rows: Rows, work: seq<Key>, executor: Executor, slots: Key -> Slot, k: Key)
    requires k in work
    ensures var writes := WalkWrites(rows, work, executor, slots);
      Done(AfterWrites(rows, writes, executor), k) <==> !EndsInFailure(writes, k)
    ensures LastWrite(WalkWrites(rows, work, executor, slots), k) == None ==> Done(rows, k)
    decreases |work|
  {
    var body := BodyWrites(rows, work[0], executor, slots(work[0]));
    var mid := AfterWrites(rows, body, executor);
    var rest := WalkWrites(mid, work[1..], executor, slots);
    assert k == work[0] || k in work[1..];
    AfterWritesAppend(rows, body, rest, executor);
    LastWriteAppend(body, rest, k);
    LastWriteDecides(rows, body, executor, k);
    LastWriteDecides(mid, rest, executor, k);
    if k == work[0] {
      BodySeesRowDone(rows, k, executor, slots(k));
    } else {
      WalkLeavesDoneUnlessFailed(mid, work[1..], executor, slots, k);
    }
  }

  lemma {:induction false} LastWriteAppend(a: seq<Write>, b: seq<Write>, k: Key)
    ensures LastWrite(a + b, k) == if LastWrite(b, k).Some? then LastWrite(b, k) else LastWrite(a, k)
    decreases |b|
  {
    if b == [] {
      assert a + b == a;
    } else {
      assert (a + b)[..|a + b| - 1] == a + b[..|b| - 1];
      LastWriteAppend(a, b[..|b| - 1], k);
    }
  }

  ghost predicate OnlySampled(writes: seq<Write>, cases: seq<CaseId>) {
    forall i :: 0 <= i < |writes| ==> writes[i].key in Work(cases)
  }

  lemma {:induction false} WritesKeepRows(rows: Rows, writes: seq<Write>, cases: seq<CaseId>, executor: Executor)
    requires RowsOk(rows, cases, executor) && OnlySampled(writes, cases)
    ensures RowsOk(AfterWrites(rows, writes, executor), cases, executor)
    decreases |writes|
  {
    if writes == [] {
    } else {
      WritesKeepRows(rows, writes[..|writes| - 1], cases, executor);
    }
  }

  /** The rows the finishing run's last transaction finds: `tail` is written after its walk. */
  function FinalRows(rows: Rows, cases: seq<CaseId>, executor: Executor, slots: Key -> Slot, tail: seq<Write>): Rows {
    AfterWrites(rows, WalkWrites(rows, Work(cases), executor, slots) + tail, executor)
  }

  /**
   A run that finishes while others write finds exactly the rows of an undisturbed run if and only if no row's last
   write in that time is a failure; its own writes never are, so that takes another run's, after this one passed the row.
   */
  lemma OverlapIsHarmlessIff(rows: Rows, cases: seq<CaseId>, executor: Executor, slots: Key -> Slot, tail: seq<Write>)
    requires RowsOk(rows, cases, executor)
    requires OnlySampled(WalkWrites(rows, Work(cases), executor, slots) + tail, cases)
    ensures FinalRows(rows, cases, executor, slots, tail) == IdealRows(cases, executor) <==>
      forall k :: k in Work(cases) ==> !EndsInFailure(WalkWrites(rows, Work(cases), executor, slots) + tail, k)
  {
    var walk := WalkWrites(rows, Work(cases), executor, slots);
    var final := FinalRows(rows, cases, executor, slots, tail);
    WritesKeepRows(rows, walk + tail, cases, executor);
    forall k | k in Work(cases) ensures Done(final, k) <==> !EndsInFailure(walk + tail, k) {
      WalkLeavesDoneUnlessFailed(rows, Work(cases), executor, slots, k);
      AfterWritesAppend(rows, walk, tail, executor);
      LastWriteAppend(walk, tail, k);
      LastWriteDecides(AfterWrites(rows, walk, executor), tail, executor, k);
    }
    if forall k :: k in Work(cases) ==> Done(final, k) {
      AllDoneIsIdeal(final, cases, executor);
    }
    if final == IdealRows(cases, executor) {
      assert forall k :: k in Work(cases) ==> Done(final, k);
    }
  }

  /** Then its report is the one of an undisturbed run as well. */
  lemma HarmlessOverlapReportsIdeal(rows: Rows, cases: seq<CaseId>, executor: Executor, slots: Key -> Slot, tail: seq<Write>, order: seq<Key>)
    requires Distinct(cases) && RowsOk(rows, cases, executor)
    requires OnlySampled(WalkWrites(rows, Work(cases), executor, slots) + tail, cases)
    requires forall k :: k in Work(cases) ==> !EndsInFailure(WalkWrites(rows, Work(cases), executor, slots) + tail, k)
    requires Lists(order, FinalRows(rows, cases, executor, slots, tail))
    ensures ReportFrom(order, FinalRows(rows, cases, executor, slots, tail)) == IdealReport(cases, executor)
  {
    OverlapIsHarmlessIff(rows, cases, executor, slots, tail);
    CompleteRowsGiveIdealReport(order, cases, executor);
  }

  /** The other case is reachable from an empty table: a stale run that looked before fails its case after this run completed it. */
  lemma StaleFailureSpoilsReport(executor: Executor)
    ensures var slots := (k: Key) => Slot([], []); var tail := [Fails((0, Control), "LLM_TIMEOUT", "m")];
      && OnlySampled(WalkWrites(map[], Work([0]), executor, slots) + tail, [0])
      && FinalRows(map[], [0], executor, slots, tail) != IdealRows([0], executor)
  {
    var slots := (k: Key) => Slot([], []);
    var k, tail := (0, Control), [Fails((0, Control), "LLM_TIMEOUT", "m")];
    var walk := WalkWrites(map[], Work([0]), executor, slots);
    SampledWalk(map[], Work([0]), executor, slots, [0]);
    LastWriteAppend(walk, tail, k);
    assert tail[|tail| - 1].key == k;
    assert Work([0])[0] == k;
    OverlapIsHarmlessIff(map[], [0], executor, slots, tail);
  }

  lemma {:induction false} SampledWalk(rows: Rows, work: seq<Key>, executor: Executor, slots: Key -> Slot, cases: seq<CaseId>)
    requires forall k :: k in work ==> k in Work(cases) && OnlySampled(slots(k).beforeCheck, cases) && OnlySampled(slots(k).beforeRecord, cases)
    ensures OnlySampled(WalkWrites(rows, work, executor, slots), cases)
    decreases |work|
  {
    if work == [] {
    } else {
      var body := BodyWrites(rows, work[0], executor, slots(work[0]));
      assert work[0] in work && OnlySampled(body, cases);
      SampledWalk(AfterWrites(rows, body, executor), work[1..], executor, slots, cases);
    }
  }
}
