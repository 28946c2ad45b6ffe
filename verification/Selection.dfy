/** The result of SELECT ... ORDER BY ... LIMIT over a set of row keys, as the lease and reclaim queries use it. */
module Selection {
  import opened Wrappers

  ghost predicate StrictOrder<T(!new)>(precedes: (T, T) -> bool) {
    && (forall a :: !precedes(a, a))
    && (forall a, b, c :: precedes(a, b) && precedes(b, c) ==> precedes(a, c))
  }

  ghost predicate TotalOrder<T(!new)>(precedes: (T, T) -> bool) {
    StrictOrder(precedes) && forall a, b :: a == b || precedes(a, b) || precedes(b, a)
  }

  predicate Distinct<T(==)>(s: seq<T>) {
    forall i, j :: 0 <= i < j < |s| ==> s[i] != s[j]
  }

  /** `chosen` is what the query returns: `limit` rows if there are as many, in order, none left behind preceding one taken. */
  ghost predicate IsFirst<T>(chosen: seq<T>, candidates: set<T>, limit: nat, precedes: (T, T) -> bool) {
    && Distinct(chosen)
    && (forall i :: 0 <= i < |chosen| ==> chosen[i] in candidates)
    && |chosen| == Min(limit, |candidates|)
    && (forall i, j :: 0 <= i < j < |chosen| ==> !precedes(chosen[j], chosen[i]))
    && (forall c, i :: c in candidates && c !in chosen && 0 <= i < |chosen| ==> !precedes(c, chosen[i]))
  }

  lemma {:induction false} Minimal<T(!new)>(s: set<T>, precedes: (T, T) -> bool) returns (m: T)
    requires StrictOrder(precedes) && s != {}
    ensures m in s && forall o :: o in s ==> !precedes(o, m)
    decreases |s|
  {
    var x :| x in s;
    var rest := s - {x};
    if rest == {} {
      m := x;
      forall o | o in s ensures o == x {
        assert o == x || o in rest;
      }
    } else {
      var y := Minimal(rest, precedes);
      m := if precedes(x, y) then x else y;
      forall o | o in s ensures !precedes(o, m) {
        assert o == x || o in rest;
      }
    }
  }

  method SelectFirst<T(!new, ==)>(candidates: set<T>, limit: nat, precedes: (T, T) -> bool) returns (chosen: seq<T>)
    requires StrictOrder(precedes)
    ensures IsFirst(chosen, candidates, limit, precedes)
  {
    chosen := [];
    var rest := candidates;
    while |chosen| < limit && rest != {}
      invariant Distinct(chosen)
      invariant |chosen| <= limit && |chosen| + |rest| == |candidates|
      invariant forall c :: c in candidates <==> c in rest || c in chosen
      invariant forall i :: 0 <= i < |chosen| ==> chosen[i] in candidates && chosen[i] !in rest
      invariant forall i, j :: 0 <= i < j < |chosen| ==> !precedes(chosen[j], chosen[i])
      invariant forall c, i :: c in rest && 0 <= i < |chosen| ==> !precedes(c, chosen[i])
      decreases rest
    {
      ghost var m := Minimal(rest, precedes);
      var next :| next in rest && forall o :: o in rest ==> !precedes(o, next);
      chosen := chosen + [next];
      rest := rest - {next};
    }
  }

  /** A candidate that precedes a chosen row is chosen as well, and comes before it. */
  lemma AheadIsChosenBefore<T(!new)>(chosen: seq<T>, candidates: set<T>, limit: nat, precedes: (T, T) -> bool, a: T, j: nat)
    requires StrictOrder(precedes) && IsFirst(chosen, candidates, limit, precedes)
    requires a in candidates && j < |chosen| && precedes(a, chosen[j])
    ensures a in chosen[..j]
  {
    var i :| 0 <= i < |chosen| && chosen[i] == a;
    assert i < j;
    assert chosen[..j][i] == a;
  }

  lemma {:induction false} DistinctCount<T>(s: seq<T>)
    requires Distinct(s)
    ensures |set c | c in s| == |s|
  {
    if s == [] {
    } else {
      var last := |s| - 1;
      DistinctCount(s[..last]);
      assert (set c | c in s) == (set c | c in s[..last]) + {s[last]};
      assert s[last] !in s[..last];
    }
  }

  /** Under a total order the query has one answer. */
  lemma {:induction false} FirstIsUnique<T(!new)>(a: seq<T>, b: seq<T>, candidates: set<T>, limit: nat, precedes: (T, T) -> bool)
    requires TotalOrder(precedes)
    requires IsFirst(a, candidates, limit, precedes) && IsFirst(b, candidates, limit, precedes)
    ensures a == b
  {
    PrefixesAgree(a, b, candidates, limit, precedes, |a|);
    assert a[..|a|] == a && b[..|a|] == b;
  }

  lemma {:induction false} PrefixesAgree<T(!new)>(a: seq<T>, b: seq<T>, candidates: set<T>, limit: nat, precedes: (T, T) -> bool, n: nat)
    requires TotalOrder(precedes) && n <= |a|
    requires IsFirst(a, candidates, limit, precedes) && IsFirst(b, candidates, limit, precedes)
    ensures a[..n] == b[..n]
  {
    if n == 0 {
    } else {
      PrefixesAgree(a, b, candidates, limit, precedes, n - 1);
      var k := n - 1;
      assert forall i :: 0 <= i < k ==> a[..k][i] == a[i] && b[..k][i] == b[i];
      NotEarlier(a, b, candidates, limit, precedes, k);
      NotEarlier(b, a, candidates, limit, precedes, k);
      assert a[..n] == a[..k] + [a[k]] && b[..n] == b[..k] + [b[k]];
    }
  }

  /** With equal prefixes, the next row of `a` cannot precede the next row of `b`. */
  lemma NotEarlier<T(!new)>(a: seq<T>, b: seq<T>, candidates: set<T>, limit: nat, precedes: (T, T) -> bool, k: nat)
    requires IsFirst(a, candidates, limit, precedes) && IsFirst(b, candidates, limit, precedes)
    requires k < |a| && (forall i :: 0 <= i < k ==> a[i] == b[i]) && StrictOrder(precedes)
    ensures !precedes(a[k], b[k])
  {
    assert forall i :: 0 <= i < k ==> b[i] != a[k];
    if a[k] in b {
      var j :| 0 <= j < |b| && b[j] == a[k];
      assert k <= j;
    }
  }
}
