/** The sliding-log limiter of app/operations/rate_limit.py, against a limiter that remembers every admission. */
module RateLimiter {
  import opened Wrappers

  type Instant = real

  datatype Call = Call(key: string, now: Instant, limit: int, window: int)

  function Cutoff(c: Call): Instant {
    c.now - c.window as real
  }

  // ----- the code's deques

  /** Events popped from the left while they are not newer than the cutoff. */
  function Trimmed(events: seq<Instant>, cutoff: Instant): seq<Instant> {
    if events != [] && events[0] <= cutoff then Trimmed(events[1..], cutoff) else events
  }

  function AfterCall(before: seq<Instant>, c: Call): seq<Instant> {
    if |Trimmed(before, Cutoff(c))| >= c.limit then Trimmed(before, Cutoff(c)) else Trimmed(before, Cutoff(c)) + [c.now]
  }

  /** A key's deque after a series of calls. */
  function Deque(calls: seq<Call>, key: string): seq<Instant>
    decreases |calls|
  {
    if calls == [] then []
    else
      var c, before := calls[|calls| - 1], Deque(calls[..|calls| - 1], key);
      if c.key == key then AfterCall(before, c) else before
  }

  predicate Allows(calls: seq<Call>, c: Call) {
    |Trimmed(Deque(calls, c.key), Cutoff(c))| < c.limit
  }

  // ----- the reference: nothing is ever forgotten

  function Newer(events: seq<Instant>, cutoff: Instant): seq<Instant> {
    if events == [] then []
    else if events[|events| - 1] > cutoff then Newer(events[..|events| - 1], cutoff) + [events[|events| - 1]]
    else Newer(events[..|events| - 1], cutoff)
  }

  /** Every admission of a key so far: a call is admitted when fewer than `limit` of them are newer than its cutoff. */
  function Log(calls: seq<Call>, key: string): seq<Instant>
    decreases |calls|
  {
    if calls == [] then []
    else
      var c, before := calls[|calls| - 1], Log(calls[..|calls| - 1], key);
      if c.key == key && |Newer(before, Cutoff(c))| < c.limit then before + [c.now] else before
  }

  predicate Admits(calls: seq<Call>, c: Call) {
    |Newer(Log(calls, c.key), Cutoff(c))| < c.limit
  }

  lemma DequeStep(calls: seq<Call>, c: Call, key: string)
    ensures Deque(calls + [c], key) == if c.key == key then AfterCall(Deque(calls, key), c) else Deque(calls, key)
  {
    assert (calls + [c])[..|calls|] == calls;
  }

  lemma LogStep(calls: seq<Call>, c: Call, key: string)
    ensures Log(calls + [c], key) == if c.key == key && Admits(calls, c) then Log(calls, key) + [c.now] else Log(calls, key)
  {
    assert (calls + [c])[..|calls|] == calls;
  }

  /** The clock does not run backwards, windows are positive, and no later call on a key looks back further. */
  ghost predicate Orderly(calls: seq<Call>) {
    && (forall i :: 0 <= i < |calls| ==> calls[i].window > 0)
    && (forall i, j :: 0 <= i <= j < |calls| ==> calls[i].now <= calls[j].now)
    && (forall i, j :: 0 <= i <= j < |calls| && calls[i].key == calls[j].key ==> Cutoff(calls[i]) <= Cutoff(calls[j]))
  }

  predicate Ascending(s: seq<Instant>) {
    forall i, j :: 0 <= i <= j < |s| ==> s[i] <= s[j]
  }

  lemma {:induction false} TrimmedIsNewer(s: seq<Instant>, cutoff: Instant)
    requires Ascending(s)
    ensures Trimmed(s, cutoff) == Newer(s, cutoff)
  {
    if s == [] {
    } else if s[0] <= cutoff {
      TrimmedIsNewer(s[1..], cutoff);
      DropOld(s, cutoff);
    } else {
      AllNewer(s, cutoff);
    }
  }

  lemma {:induction false} AllNewer(s: seq<Instant>, cutoff: Instant)
    requires forall i :: 0 <= i < |s| ==> s[i] > cutoff
    ensures Newer(s, cutoff) == s
  {
    if s == [] {
    } else {
      AllNewer(s[..|s| - 1], cutoff);
      assert s == s[..|s| - 1] + [s[|s| - 1]];
    }
  }

  lemma {:induction false} DropOld(s: seq<Instant>, cutoff: Instant)
    requires s != [] && s[0] <= cutoff
    ensures Newer(s, cutoff) == Newer(s[1..], cutoff)
  {
    if |s| == 1 {
    } else {
      DropOld(s[..|s| - 1], cutoff);
      assert s[..|s| - 1][1..] == s[1..][..|s| - 2];
    }
  }

  /** Forgetting what an earlier cutoff made old does not matter to a later one. */
  lemma {:induction false} NewerTwice(s: seq<Instant>, early: Instant, late: Instant)
    requires early <= late
    ensures Newer(Newer(s, early), late) == Newer(s, late)
  {
    if s == [] {
    } else {
      var front, last := s[..|s| - 1], s[|s| - 1];
      NewerTwice(front, early, late);
      if last > early {
        assert Newer(s, early)[..|Newer(front, early)|] == Newer(front, early);
      }
    }
  }

  lemma {:induction false} NewerIsAscending(s: seq<Instant>, cutoff: Instant)
    requires Ascending(s)
    ensures Ascending(Newer(s, cutoff)) && forall x :: x in Newer(s, cutoff) ==> x in s
  {
    if s == [] {
    } else {
      var front := s[..|s| - 1];
      NewerIsAscending(front, cutoff);
      assert forall x :: x in front ==> x in s && x <= s[|s| - 1];
      Extended(Newer(front, cutoff), s[|s| - 1]);
    }
  }

  lemma Extended(s: seq<Instant>, x: Instant)
    requires Ascending(s) && forall y :: y in s ==> y <= x
    ensures Ascending(s + [x])
  {
    assert forall i :: 0 <= i < |s| ==> s[i] in s;
  }

  lemma {:induction false} LogIsAscending(calls: seq<Call>, key: string)
    requires Orderly(calls)
    ensures Ascending(Log(calls, key))
    ensures calls != [] ==> forall x :: x in Log(calls, key) ==> x <= calls[|calls| - 1].now
    decreases |calls|
  {
    if calls == [] {
    } else {
      var before := calls[..|calls| - 1];
      LogIsAscending(before, key);
      assert before != [] ==> before[|before| - 1].now <= calls[|calls| - 1].now;
      assert forall y :: y in Log(before, key) ==> y <= calls[|calls| - 1].now;
      Extended(Log(before, key), calls[|calls| - 1].now);
    }
  }

  /** Position of the last call on a key, or -1. */
  function LastCall(calls: seq<Call>, key: string): (i: int)
    ensures -1 <= i < |calls| && (i >= 0 ==> calls[i].key == key)
    ensures forall j :: i < j < |calls| ==> calls[j].key != key
    decreases |calls|
  {
    if calls == [] then -1
    else if calls[|calls| - 1].key == key then |calls| - 1
    else LastCall(calls[..|calls| - 1], key)
  }

  /** The deque holds the admissions newer than the cutoff of the key's last call. */
  ghost predicate HoldsRecentLog(calls: seq<Call>, key: string) {
    var i := LastCall(calls, key);
    if i < 0 then Deque(calls, key) == [] == Log(calls, key)
    else Deque(calls, key) == Newer(Log(calls, key), Cutoff(calls[i]))
  }

  lemma {:induction false} DequeIsRecentLog(calls: seq<Call>, key: string)
    requires Orderly(calls)
    ensures HoldsRecentLog(calls, key)
    decreases |calls|
  {
    if calls == [] {
    } else {
      var before, c := calls[..|calls| - 1], calls[|calls| - 1];
      assert calls == before + [c];
      OrderlyPrefix(before, c);
      DequeIsRecentLog(before, key);
      CallKeepsRecentLog(before, c, key);
    }
  }

  lemma CallKeepsRecentLog(calls: seq<Call>, c: Call, key: string)
    requires Orderly(calls + [c]) && HoldsRecentLog(calls, key)
    ensures HoldsRecentLog(calls + [c], key)
  {
    var after := calls + [c];
    assert after[|after| - 1] == c && after[..|after| - 1] == calls;
    DequeStep(calls, c, key);
    LogStep(calls, c, key);
    if c.key == key {
      SameTrim(calls, c);
      LastAdmissionIsNew(Log(calls, key), c);
    }
  }

  lemma LastAdmissionIsNew(log: seq<Instant>, c: Call)
    requires c.window > 0
    ensures Newer(log + [c.now], Cutoff(c)) == Newer(log, Cutoff(c)) + [c.now]
  {
    assert (log + [c.now])[..|log|] == log;
  }

  lemma SameTrim(calls: seq<Call>, c: Call)
    requires Orderly(calls + [c]) && HoldsRecentLog(calls, c.key)
    ensures Trimmed(Deque(calls, c.key), Cutoff(c)) == Newer(Log(calls, c.key), Cutoff(c))
  {
    var i, all := LastCall(calls, c.key), calls + [c];
    assert forall j :: 0 <= j < |calls| ==> all[j] == calls[j];
    assert all[|calls|] == c;
    if i >= 0 {
      assert Cutoff(all[i]) <= Cutoff(all[|calls|]);
      LogIsAscending(calls, c.key);
      NewerIsAscending(Log(calls, c.key), Cutoff(calls[i]));
      TrimmedIsNewer(Deque(calls, c.key), Cutoff(c));
      NewerTwice(Log(calls, c.key), Cutoff(calls[i]), Cutoff(c));
    }
  }

  /** Refinement: the limiter that forgets decides every call as the one that does not. */
  lemma DecidesLikeFullHistory(calls: seq<Call>, c: Call)
    requires Orderly(calls + [c])
    ensures Allows(calls, c) <==> Admits(calls, c)
  {
    OrderlyPrefix(calls, c);
    DequeIsRecentLog(calls, c.key);
    SameTrim(calls, c);
  }

  lemma OrderlyPrefix(calls: seq<Call>, c: Call)
    requires Orderly(calls + [c])
    ensures Orderly(calls)
  {
    var all := calls + [c];
    assert forall j :: 0 <= j < |calls| ==> all[j] == calls[j];
  }

  /** Positions of the admissions after `start`. */
  function After(log: seq<Instant>, start: Instant): set<nat> {
    set i: nat | i < |log| && log[i] > start
  }

  lemma {:induction false} NewerCounts(log: seq<Instant>, start: Instant)
    ensures |Newer(log, start)| == |After(log, start)|
  {
    if log == [] {
      assert After(log, start) == {};
    } else {
      var n := |log| - 1;
      NewerCounts(log[..n], start);
      assert After(log, start) == After(log[..n], start) + (if log[n] > start then {n} else {});
    }
  }

  /** The rule itself: a call is allowed exactly if fewer than `limit` admissions of its key lie in the `window` seconds before it. */
  lemma AllowedIffFewerThanLimit(calls: seq<Call>, key: string, now: Instant, limit: int, window: int)
    requires Orderly(calls + [Call(key, now, limit, window)])
    ensures Allows(calls, Call(key, now, limit, window)) <==> |After(Log(calls, key), now - window as real)| < limit
    ensures forall i :: i in After(Log(calls, key), now - window as real) ==> now - window as real < Log(calls, key)[i] <= now
  {
    var c, log := Call(key, now, limit, window), Log(calls, key);
    DecidesLikeFullHistory(calls, c);
    NewerCounts(log, now - window as real);
    OrderlyPrefix(calls, c);
    LogIsAscending(calls, key);
    if calls != [] {
      var all := calls + [c];
      assert all[|calls| - 1] == calls[|calls| - 1] && all[|calls|] == c;
      assert all[|calls| - 1].now <= all[|calls|].now;
    }
    forall i | i in After(log, now - window as real) ensures now - window as real < log[i] <= now {
      assert log[i] in log;
    }
  }

  /** One limit and window for everybody and a clock that does not run backwards is orderly. */
  ghost predicate Configured(calls: seq<Call>, limit: int, window: int) {
    && (forall i :: 0 <= i < |calls| ==> calls[i].limit == limit && calls[i].window == window)
    && (forall i, j :: 0 <= i <= j < |calls| ==> calls[i].now <= calls[j].now)
  }

  lemma ConfiguredIsOrderly(calls: seq<Call>, limit: int, window: int)
    requires Configured(calls, limit, window) && window > 0
    ensures Orderly(calls)
  {
  }

  /** Admissions after `start` and no later than `start + window`. */
  function Within(events: seq<Instant>, start: Instant, window: int): int {
    |Newer(events, start)| - |Newer(events, start + window as real)|
  }

  lemma {:induction false} LaterIsFewer(s: seq<Instant>, early: Instant, late: Instant)
    requires early <= late
    ensures |Newer(s, late)| <= |Newer(s, early)|
  {
    if s == [] {
    } else {
      LaterIsFewer(s[..|s| - 1], early, late);
    }
  }

  /** No window of the configured length, wherever it starts, holds more than `limit` admissions of a key. */
  lemma {:induction false} NoWindowExceedsLimit(calls: seq<Call>, key: string, limit: nat, window: nat, start: Instant)
    requires Configured(calls, limit, window)
    ensures Within(Log(calls, key), start, window) <= limit
    decreases |calls|
  {
    if calls == [] {
    } else {
      var c, before := calls[|calls| - 1], Log(calls[..|calls| - 1], key);
      NoWindowExceedsLimit(calls[..|calls| - 1], key, limit, window, start);
      if c.key == key && |Newer(before, Cutoff(c))| < c.limit {
        assert (before + [c.now])[..|before|] == before;
        if start < c.now <= start + window as real {
          LaterIsFewer(before, Cutoff(c), start);
        }
      }
    }
  }

  /** The same of the code's own decisions: those are the admissions in the log. */
  lemma EveryAllowedCallIsLogged(calls: seq<Call>, c: Call)
    requires Orderly(calls + [c])
    ensures Log(calls + [c], c.key) == if Allows(calls, c) then Log(calls, c.key) + [c.now] else Log(calls, c.key)
    ensures forall key :: key != c.key ==> Log(calls + [c], key) == Log(calls, key)
  {
    DecidesLikeFullHistory(calls, c);
    assert (calls + [c])[..|calls|] == calls;
  }

  class InMemoryRateLimiter {
    var events: map<string, seq<Instant>>
    ghost var calls: seq<Call>

    ghost predicate Valid()
      reads this
    {
      forall key :: Deque(calls, key) == if key in events then events[key] else []
    }

    constructor ()
      ensures Valid() && calls == []
    {
      events, calls := map[], [];
    }

    /** `allow`, with the clock reading made before the lock. */
    method Allow(key: string, limit: int, window: int, now: Instant) returns (allowed: bool)
      requires Valid()
      modifies this
      ensures Valid() && calls == old(calls) + [Call(key, now, limit, window)]
      ensures allowed <==> Allows(old(calls), Call(key, now, limit, window))
      ensures forall other :: other != key && other in old(events) ==> other in events && events[other] == old(events)[other]
    {
      var cutoff := now - window as real;
      var deque := if key in events then events[key] else [];
      ghost var before := deque;
      while deque != [] && deque[0] <= cutoff
        invariant Trimmed(deque, cutoff) == Trimmed(before, cutoff)
        decreases |deque|
      {
        deque := deque[1..];
      }
      allowed := |deque| < limit;
      if allowed {
        deque := deque + [now];
      }
      events := events[key := deque];
      calls := calls + [Call(key, now, limit, window)];
      forall k ensures Deque(calls, k) == if k in events then events[k] else [] {
        DequeStep(old(calls), Call(key, now, limit, window), k);
      }
    }
  }
}
