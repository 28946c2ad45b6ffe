/**
 The acceptance columns of impact rows and their three writers: `record_impact` and `record_feedback` of
 app/business_impact/service.py and `MediaService.review`. The last two read the row without a lock and write back only
 the columns whose value they changed, and a table constraint checks the row that results.
 */
module Acceptance {
  import opened Wrappers
  import opened Rates

  type TaskId = nat
  type CallId = nat

  datatype Impact = Impact(accepted: Option<bool>, withoutEditing: bool, editingMinutes: real, reworkCount: int)

  /** The columns a caller sends, app/schemas/business_impact.py. */
  type Fields = Impact

  /** ck_ai_task_impact_first_pass_acceptance, and what the validator demands of a request. */
  predicate FirstPassOk(i: Impact) {
    i.withoutEditing ==> i.accepted == Some(true) && i.editingMinutes == 0.0 && i.reworkCount == 0
  }

  predicate ValidFields(f: Fields) {
    f.editingMinutes >= 0.0 && f.reworkCount >= 0 && FirstPassOk(f)
  }

  datatype AssetReview = NoAsset | NotReviewed | AssetApproved | AssetRejected

  /** What `record_impact` stores: a missing decision is taken from the asset's review. */
  function NewImpact(f: Fields, review: AssetReview): Impact {
    if f.accepted != None then f
    else if review == AssetApproved then f.(accepted := Some(true))
    else if review == AssetRejected then f.(accepted := Some(false))
    else f
  }

  /** What the other two assign to their copy of the row. */
  datatype Change = Feedback(fields: Fields) | Review(approve: bool)

  function Assigned(copy: Impact, c: Change): Impact {
    match c
    case Feedback(f) => if f.accepted == None then copy else f
    case Review(approve) => copy.(accepted := Some(approve), withoutEditing := if approve then copy.withoutEditing else false)
  }

  /** The UPDATE: columns equal to their value in the copy are not written. */
  function Merged(row: Impact, copy: Impact, edited: Impact): Impact {
    Impact(
      if edited.accepted == copy.accepted then row.accepted else edited.accepted,
      if edited.withoutEditing == copy.withoutEditing then row.withoutEditing else edited.withoutEditing,
      if edited.editingMinutes == copy.editingMinutes then row.editingMinutes else edited.editingMinutes,
      if edited.reworkCount == copy.reworkCount then row.reworkCount else edited.reworkCount)
  }

  /** A copy of the row, or None when there was no row to read. */
  datatype Copy = Copy(task: TaskId, row: Option<Impact>)

  datatype World = World(impacts: map<TaskId, Impact>, copies: map<CallId, Copy>)

  const EMPTY := World(map[], map[])

  datatype Step =
    | RecordImpact(task: TaskId, fields: Fields, review: AssetReview)
    | Read(call: CallId, task: TaskId)
    | Write(call: CallId, change: Change)

  predicate ValidChange(c: Change) {
    c.Feedback? ==> ValidFields(c.fields)
  }

  predicate HasCopy(w: World, call: CallId) {
    call in w.copies && (w.copies[call].row.Some? ==> w.copies[call].task in w.impacts)
  }

  /** The row a write would leave. */
  function Outcome(w: World, call: CallId, c: Change): Impact
    requires HasCopy(w, call) && w.copies[call].row.Some?
  {
    var copy := w.copies[call];
    Merged(w.impacts[copy.task], copy.row.value, Assigned(copy.row.value, c))
  }

  predicate ConstraintRefuses(w: World, call: CallId, c: Change)
    requires HasCopy(w, call)
  {
    w.copies[call].row.Some? && !FirstPassOk(Outcome(w, call, c))
  }

  function Apply(w: World, s: Step): World {
    match s
    case RecordImpact(task, fields, review) =>
      if ValidFields(fields) && task !in w.impacts && FirstPassOk(NewImpact(fields, review))
      then w.(impacts := w.impacts[task := NewImpact(fields, review)]) else w
    case Read(call, task) =>
      if call in w.copies then w
      else w.(copies := w.copies[call := Copy(task, if task in w.impacts then Some(w.impacts[task]) else None)])
    case Write(call, change) =>
      if !HasCopy(w, call) || !ValidChange(change) then w
      else if w.copies[call].row == None || ConstraintRefuses(w, call, change) then w.(copies := w.copies - {call})
      else World(w.impacts[w.copies[call].task := Outcome(w, call, change)], w.copies - {call})
  }

  function Run(w: World, steps: seq<Step>): World
    decreases |steps|
  {
    if steps == [] then w else Run(Apply(w, steps[0]), steps[1..])
  }

  lemma {:induction false} RunAppend(w: World, a: seq<Step>, b: seq<Step>)
    ensures Run(w, a + b) == Run(Run(w, a), b)
    decreases |a|
  {
    if a == [] {
      assert a + b == b;
    } else {
      assert (a + b)[0] == a[0] && (a + b)[1..] == a[1..] + b;
      RunAppend(Apply(w, a[0]), a[1..], b);
    }
  }

  ghost predicate Inv(w: World) {
    && (forall t :: t in w.impacts ==> FirstPassOk(w.impacts[t]))
    && (forall c :: c in w.copies && w.copies[c].row.Some? ==> FirstPassOk(w.copies[c].row.value) && w.copies[c].task in w.impacts)
  }

  lemma {:induction false} RunKeepsInv(w: World, steps: seq<Step>)
    requires Inv(w)
    ensures Inv(Run(w, steps))
    decreases |steps|
  {
    if steps == [] {
    } else {
      RunKeepsInv(Apply(w, steps[0]), steps[1..]);
    }
  }

  // ----- when the constraint speaks

  /** A new row never offends it, whatever the asset's review was. */
  lemma NewImpactIsNeverRefused(f: Fields, review: AssetReview)
    requires ValidFields(f)
    ensures FirstPassOk(NewImpact(f, review))
  {
  }

  /** Nor does a writer whose copy is current, and the row becomes what it assigned. */
  lemma CurrentCopyIsNeverRefused(w: World, call: CallId, c: Change)
    requires Inv(w) && HasCopy(w, call) && ValidChange(c)
    requires w.copies[call].row.Some? && w.impacts[w.copies[call].task] == w.copies[call].row.value
    ensures !ConstraintRefuses(w, call, c) && Outcome(w, call, c) == Assigned(w.copies[call].row.value, c)
  {
  }

  /** A review with copy `c` of the row, which is `r` by now, offends the constraint. */
  predicate ReviewOffends(c: Impact, r: Impact, approve: bool) {
    !approve && r.withoutEditing && !c.withoutEditing && c.accepted != Some(false)
  }

  /**
   A review fails on it exactly if it rejects what feedback accepted without editing after the review read the row, and
   the row it read was not rejected already.
   */
  lemma ReviewIsRefusedIff(w: World, call: CallId, approve: bool)
    requires Inv(w) && HasCopy(w, call) && w.copies[call].row.Some?
    ensures ConstraintRefuses(w, call, Review(approve)) <==>
      ReviewOffends(w.copies[call].row.value, w.impacts[w.copies[call].task], approve)
  {
  }

  /** The caller read the value it sends, so the column is not written, but another value is there by now. */
  predicate Overtaken<T(==)>(read: T, there: T, sent: T) {
    read == sent && there != sent
  }

  /** The column is written, and not with the value that acceptance without editing asks for. */
  predicate Spoils<T(==)>(read: T, sent: T, asked: T) {
    sent != read && sent != asked
  }

  /** Feedback with copy `c` of the row, which is `r` by now, offends the constraint. */
  predicate FeedbackOffends(c: Impact, r: Impact, f: Fields) {
    && f.accepted != None && !c.withoutEditing
    && (if f.withoutEditing then
          || Overtaken(c.accepted, r.accepted, Some(true))
          || Overtaken(c.editingMinutes, r.editingMinutes, 0.0)
          || Overtaken(c.reworkCount, r.reworkCount, 0)
        else
          r.withoutEditing
          && (Spoils(c.accepted, f.accepted, Some(true)) || Spoils(c.editingMinutes, f.editingMinutes, 0.0)
              || Spoils(c.reworkCount, f.reworkCount, 0)))
  }

  /**
   Feedback fails on it exactly if it accepts without editing and a column it meant to leave as it read it has been
   changed since; or if it does not, the row has become accepted without editing, and a column it does write spoils that.
   */
  lemma FeedbackIsRefusedIff(w: World, call: CallId, f: Fields)
    requires Inv(w) && HasCopy(w, call) && w.copies[call].row.Some? && ValidFields(f)
    ensures ConstraintRefuses(w, call, Feedback(f)) <==> FeedbackOffends(w.copies[call].row.value, w.impacts[w.copies[call].task], f)
  {
  }

  /** A rejection that goes through is the row's decision exactly if the copy was not rejected already or the row still is. */
  lemma RejectionTakesEffectIff(w: World, call: CallId)
    requires Inv(w) && HasCopy(w, call) && w.copies[call].row.Some? && !ConstraintRefuses(w, call, Review(false))
    ensures Apply(w, Write(call, Review(false))).impacts[w.copies[call].task].accepted == Some(false) <==>
      (w.copies[call].row.value.accepted != Some(false) || w.impacts[w.copies[call].task].accepted == Some(false))
  {
  }

  /** Feedback that goes through is what the row says exactly if it was not overtaken in any column. */
  lemma FeedbackTakesEffectIff(w: World, call: CallId, f: Fields)
    requires Inv(w) && HasCopy(w, call) && w.copies[call].row.Some? && ValidFields(f) && f.accepted != None
    requires !ConstraintRefuses(w, call, Feedback(f))
    ensures var c, r := w.copies[call].row.value, w.impacts[w.copies[call].task];
      Apply(w, Write(call, Feedback(f))).impacts[w.copies[call].task] == f <==>
        !Overtaken(c.accepted, r.accepted, f.accepted) && !Overtaken(c.withoutEditing, r.withoutEditing, f.withoutEditing)
        && !Overtaken(c.editingMinutes, r.editingMinutes, f.editingMinutes) && !Overtaken(c.reworkCount, r.reworkCount, f.reworkCount)
  {
  }

  ghost predicate RefusedAlong(w: World, steps: seq<Step>)
    decreases |steps|
  {
    steps != []
    && ((steps[0].Write? && HasCopy(w, steps[0].call) && ValidChange(steps[0].change) && ConstraintRefuses(w, steps[0].call, steps[0].change))
        || RefusedAlong(Apply(w, steps[0]), steps[1..]))
  }

  /** Every write comes straight after its own read. */
  ghost predicate AtomicCalls(steps: seq<Step>) {
    forall i :: 0 <= i < |steps| && steps[i].Write? ==> i > 0 && steps[i - 1].Read? && steps[i - 1].call == steps[i].call
  }

  /** With atomic calls the constraint is never needed. */
  lemma {:induction false} AtomicCallsAreNeverRefused(w: World, steps: seq<Step>)
    requires Inv(w) && AtomicCalls(steps)
    requires forall i :: 0 <= i < |steps| && steps[i].Read? ==> steps[i].call !in w.copies
    requires forall i, j :: 0 <= i < j < |steps| && steps[i].Read? && steps[j].Read? ==> steps[i].call != steps[j].call
    ensures !RefusedAlong(w, steps)
    decreases |steps|
  {
    if steps == [] {
    } else if steps[0].Read? && |steps| > 1 && steps[1].Write? {
      var mid := Apply(w, steps[0]);
      assert steps[1..][0] == steps[1];
      assert Inv(mid);
      if HasCopy(mid, steps[1].call) && mid.copies[steps[1].call].row.Some? && ValidChange(steps[1].change) {
        CurrentCopyIsNeverRefused(mid, steps[1].call, steps[1].change);
      }
      var after := Apply(mid, steps[1]);
      assert forall k :: k in after.copies ==> k in mid.copies;
      AfterPair(steps);
      AtomicCallsAreNeverRefused(after, steps[1..][1..]);
    } else {
      AfterOne(steps);
      AtomicCallsAreNeverRefused(Apply(w, steps[0]), steps[1..]);
    }
  }

  lemma AfterPair(steps: seq<Step>)
    requires |steps| > 1 && AtomicCalls(steps) && steps[1].Write?
    ensures AtomicCalls(steps[1..][1..])
  {
    var rest := steps[1..][1..];
    forall i | 0 <= i < |rest| && rest[i].Write? ensures i > 0 && rest[i - 1].Read? && rest[i - 1].call == rest[i].call {
      assert rest[i] == steps[i + 2];
    }
  }

  lemma AfterOne(steps: seq<Step>)
    requires steps != [] && AtomicCalls(steps) && !(steps[0].Read? && |steps| > 1 && steps[1].Write?)
    ensures AtomicCalls(steps[1..])
  {
    var rest := steps[1..];
    forall i | 0 <= i < |rest| && rest[i].Write? ensures i > 0 && rest[i - 1].Read? && rest[i - 1].call == rest[i].call {
      assert rest[i] == steps[i + 1];
    }
  }

  // ----- what each writer means

  /** A new row has the caller's fields; a decision the caller leaves open is the asset's review, if there is one. */
  lemma NewRowByCase(f: Fields, review: AssetReview)
    ensures var i := NewImpact(f, review);
      && i.withoutEditing == f.withoutEditing && i.editingMinutes == f.editingMinutes && i.reworkCount == f.reworkCount
      && (f.accepted.Some? ==> i.accepted == f.accepted)
      && (f.accepted == None && review == AssetApproved ==> i.accepted == Some(true))
      && (f.accepted == None && review == AssetRejected ==> i.accepted == Some(false))
      && (f.accepted == None && review != AssetApproved && review != AssetRejected ==> i.accepted == None)
  {
  }

  /** Seen by a writer with a current copy: feedback with a decision is the new row, without one it changes nothing; a review decides, and a rejection takes back "without editing". */
  lemma CurrentWriteByCase(w: World, call: CallId, c: Change)
    requires Inv(w) && HasCopy(w, call) && ValidChange(c)
    requires w.copies[call].row.Some? && w.impacts[w.copies[call].task] == w.copies[call].row.value
    ensures var t := w.copies[call].task; var r, v := w.impacts[t], Apply(w, Write(call, c)).impacts;
      && t in v
      && (c.Feedback? && c.fields.accepted.Some? ==> v[t] == c.fields)
      && (c.Feedback? && c.fields.accepted == None ==> v[t] == r)
      && (c.Review? ==> v[t].accepted == Some(c.approve) && v[t].editingMinutes == r.editingMinutes && v[t].reworkCount == r.reworkCount
                        && v[t].withoutEditing == (c.approve && r.withoutEditing))
      && forall o :: o != t ==> (o in v <==> o in w.impacts) && (o in w.impacts ==> v[o] == w.impacts[o])
  {
    CurrentCopyIsNeverRefused(w, call, c);
  }

  /** What the constraint asks of a row. */
  lemma ConstraintByColumns(i: Impact)
    ensures FirstPassOk(i) <==> !i.withoutEditing || (i.accepted == Some(true) && i.editingMinutes == 0.0 && i.reworkCount == 0)
  {
  }

  // ----- reachable examples

  const UNDECIDED: Fields := Impact(None, false, 0.0, 0)
  const REJECTED: Fields := Impact(Some(false), false, 0.0, 0)
  const EDITED: Fields := Impact(Some(true), false, 5.0, 0)
  const FIRST_PASS: Fields := Impact(Some(true), true, 0.0, 0)

  /** Call 1 reads a new row, then call 2 reads it and makes its change. */
  function Overlap(first: Fields, second: Change): seq<Step> {
    [RecordImpact(0, first, NoAsset), Read(1, 0), Read(2, 0), Write(2, second)]
  }

  lemma OverlapRun(first: Fields, second: Change)
    requires ValidFields(first) && ValidChange(second) && FirstPassOk(Assigned(first, second))
    ensures Run(EMPTY, Overlap(first, second)) == World(map[0 := Assigned(first, second)], map[1 := Copy(0, Some(first))])
  {
    var steps := Overlap(first, second);
    var w1 := Apply(EMPTY, steps[0]);
    assert NewImpact(first, NoAsset) == first && w1.impacts == map[0 := first];
    var w2 := Apply(w1, steps[1]);
    var w3 := Apply(w2, steps[2]);
    assert w3.copies == map[1 := Copy(0, Some(first)), 2 := Copy(0, Some(first))];
    assert Merged(first, first, Assigned(first, second)) == Assigned(first, second);
    var w4 := Apply(w3, steps[3]);
    assert steps[1..][1..] == [steps[2], steps[3]] && [steps[2], steps[3]][1..] == [steps[3]];
    assert Run(EMPTY, steps) == Run(w1, steps[1..]) == Run(w2, [steps[2], steps[3]]) == Run(w3, [steps[3]]) == Run(w4, []);
  }

  /** A rejection is refused when feedback accepted without editing in between. */
  lemma RejectionCanBeRefused()
    ensures var w := Run(EMPTY, Overlap(UNDECIDED, Feedback(FIRST_PASS)));
      HasCopy(w, 1) && ConstraintRefuses(w, 1, Review(false))
  {
    OverlapRun(UNDECIDED, Feedback(FIRST_PASS));
  }

  /** It is lost when the row was rejected before and feedback accepted it in between. */
  lemma RejectionCanBeLost()
    ensures var w := Run(EMPTY, Overlap(REJECTED, Feedback(FIRST_PASS)));
      && HasCopy(w, 1) && !ConstraintRefuses(w, 1, Review(false))
      && 0 in Apply(w, Write(1, Review(false))).impacts && Apply(w, Write(1, Review(false))).impacts[0].accepted == Some(true)
  {
    OverlapRun(REJECTED, Feedback(FIRST_PASS));
  }

  /** Feedback is refused when a review rejected what it read as accepted. */
  lemma FeedbackCanBeRefused()
    ensures var w := Run(EMPTY, Overlap(EDITED, Review(false)));
      HasCopy(w, 1) && ConstraintRefuses(w, 1, Feedback(FIRST_PASS))
  {
    OverlapRun(EDITED, Review(false));
  }

  /** And partly lost when it sends what it read as accepted, with other minutes, after such a review. */
  lemma FeedbackCanBeLost()
    ensures var w := Run(EMPTY, Overlap(EDITED, Review(false))); var f := EDITED.(editingMinutes := 7.0);
      && HasCopy(w, 1) && !ConstraintRefuses(w, 1, Feedback(f))
      && 0 in Apply(w, Write(1, Feedback(f))).impacts && Apply(w, Write(1, Feedback(f))).impacts[0] == f.(accepted := Some(false))
  {
    OverlapRun(EDITED, Review(false));
  }

  // ----- rates

  function One(p: bool): nat {
    if p then 1 else 0
  }

  /** What the analytics count rows by. */
  datatype Question = IsKnown | IsAccepted | IsRejected | IsFirstPass | IsReworked

  predicate Says(i: Impact, q: Question) {
    match q
    case IsKnown => i.accepted != None
    case IsAccepted => i.accepted == Some(true)
    case IsRejected => i.accepted == Some(false)
    case IsFirstPass => i.accepted != None && i.withoutEditing
    case IsReworked => i.reworkCount > 0
  }

  function Tally(impacts: seq<Impact>, q: Question): nat {
    if impacts == [] then 0 else One(Says(impacts[0], q)) + Tally(impacts[1..], q)
  }

  /** Impacts whose acceptance is known. */
  function Known(impacts: seq<Impact>): nat {
    Tally(impacts, IsKnown)
  }

  function AcceptedOf(impacts: seq<Impact>): nat {
    Tally(impacts, IsAccepted)
  }

  function RejectedOf(impacts: seq<Impact>): nat {
    Tally(impacts, IsRejected)
  }

  /** Accepted without editing, among those whose acceptance is known. */
  function FirstPassOf(impacts: seq<Impact>): nat {
    Tally(impacts, IsFirstPass)
  }

  function ReworkedOf(impacts: seq<Impact>): nat {
    Tally(impacts, IsReworked)
  }

  function HumanAcceptanceRate(impacts: seq<Impact>): real {
    Ratio(AcceptedOf(impacts), Known(impacts))
  }

  function FirstPassAcceptanceRate(impacts: seq<Impact>): real {
    Ratio(FirstPassOf(impacts), Known(impacts))
  }

  lemma {:induction false} Tallies(impacts: seq<Impact>)
    requires forall i :: i in impacts ==> FirstPassOk(i)
    ensures FirstPassOf(impacts) <= AcceptedOf(impacts)
    ensures AcceptedOf(impacts) + RejectedOf(impacts) == Known(impacts)
    ensures FirstPassOf(impacts) + ReworkedOf(impacts) <= |impacts|
  {
    if impacts == [] {
    } else {
      assert impacts[0] in impacts && forall i :: i in impacts[1..] ==> i in impacts;
      Tallies(impacts[1..]);
      var a := impacts[0].accepted;
      assert a.Some? ==> a == Some(a.value) && (a.value == true || a.value == false);
      assert One(a == Some(true)) + One(a == Some(false)) == One(a.Some?);
    }
  }

  lemma {:induction false} TallyOfFront(impacts: seq<Impact>, last: Impact, q: Question)
    ensures Tally(impacts + [last], q) == Tally(impacts, q) + One(Says(last, q))
  {
    if impacts == [] {
      assert ([] + [last])[1..] == [];
    } else {
      assert (impacts + [last])[0] == impacts[0] && (impacts + [last])[1..] == impacts[1..] + [last];
      TallyOfFront(impacts[1..], last, q);
    }
  }

  function RowsSaying(impacts: seq<Impact>, q: Question): set<nat> {
    set i: nat | i < |impacts| && Says(impacts[i], q)
  }

  lemma RowsOfFront(front: seq<Impact>, last: Impact, q: Question)
    ensures RowsSaying(front + [last], q) == RowsSaying(front, q) + (if Says(last, q) then {|front|} else {})
  {
    var all := front + [last];
    forall i: nat ensures i in RowsSaying(all, q) <==> i in RowsSaying(front, q) || (i == |front| && Says(last, q)) {
      if i < |front| {
        assert all[i] == front[i];
      }
    }
  }

  /** Each tally is the number of rows that say so. */
  lemma {:induction false} TallyCountsRows(impacts: seq<Impact>, q: Question)
    ensures Tally(impacts, q) == |RowsSaying(impacts, q)|
    decreases |impacts|
  {
    if impacts == [] {
      assert RowsSaying([], q) == {};
    } else {
      var n := |impacts| - 1;
      var front := impacts[..n];
      assert impacts == front + [impacts[n]];
      TallyOfFront(front, impacts[n], q);
      TallyCountsRows(front, q);
      RowsOfFront(front, impacts[n], q);
    }
  }

  /** Both rates are shares of the rows whose acceptance is known, to six places. */
  lemma RatesAreShares(impacts: seq<Impact>)
    requires Known(impacts) > 0
    ensures var exact := AcceptedOf(impacts) as real / Known(impacts) as real;
      exact - 0.0000005 < HumanAcceptanceRate(impacts) <= exact + 0.0000005
    ensures var exact := FirstPassOf(impacts) as real / Known(impacts) as real;
      exact - 0.0000005 < FirstPassAcceptanceRate(impacts) <= exact + 0.0000005
  {
    RatioToSixPlaces(AcceptedOf(impacts), Known(impacts));
    RatioToSixPlaces(FirstPassOf(impacts), Known(impacts));
  }

  /** After any run, over any selection of the rows: first-pass rate, acceptance rate and one are in this order, rounded. */
  lemma FirstPassIsAtMostAcceptance(steps: seq<Step>, order: seq<TaskId>, impacts: seq<Impact>)
    requires |impacts| == |order|
    requires forall i :: 0 <= i < |order| ==> order[i] in Run(EMPTY, steps).impacts && impacts[i] == Run(EMPTY, steps).impacts[order[i]]
    ensures 0.0 <= FirstPassAcceptanceRate(impacts) <= HumanAcceptanceRate(impacts) <= 1.0
  {
    RunKeepsInv(EMPTY, steps);
    Tallies(impacts);
    RatioIsMonotone(FirstPassOf(impacts), AcceptedOf(impacts), Known(impacts));
  }

  /** Accepted and rejected shares make a whole, up to one quantum of rounding. */
  lemma SharesMakeAWhole(impacts: seq<Impact>)
    requires (forall i :: i in impacts ==> FirstPassOk(i)) && Known(impacts) > 0
    ensures 1.0 <= HumanAcceptanceRate(impacts) + Ratio(RejectedOf(impacts), Known(impacts)) <= 1.0 + 1.0 / RATE_QUANTA
  {
    Tallies(impacts);
    OppositeRatesAddUp(AcceptedOf(impacts), Known(impacts));
  }
}
