/** How many distinct numbers fit between one and a bound. */
module Counting {
  ghost predicate Numbers(s: set<nat>, n: nat) {
    forall x :: x in s ==> 1 <= x <= n
  }

  lemma {:induction false} AtMost(s: set<nat>, n: nat)
    requires Numbers(s, n)
    ensures |s| <= n
  {
    if n == 0 {
      assert s == {};
    } else {
      AtMost(s - {n}, n - 1);
      assert s == (s - {n}) + (if n in s then {n} else {});
    }
  }

  /** Distinct values, one for each of the numbers 1 to `k` and none above `n`, cannot be more than `n`. */
  lemma Injected(k: nat, n: nat, value: map<nat, nat>)
    requires forall i :: 1 <= i <= k ==> i in value && 1 <= value[i] <= n
    requires forall i, j :: 1 <= i < j <= k ==> value[i] != value[j]
    ensures k <= n
  {
    Images(k, value);
    AtMost(Image(k, value), n);
  }

  /** A set of numbers from 1 to `n` has `n` elements exactly when it has them all. */
  lemma {:induction false} FullIff(s: set<nat>, n: nat)
    requires Numbers(s, n)
    ensures |s| == n <==> forall x :: 1 <= x <= n ==> x in s
  {
    if n == 0 {
      assert s == {};
    } else {
      var rest := s - {n};
      FullIff(rest, n - 1);
      AtMost(rest, n - 1);
      assert s == rest + (if n in s then {n} else {});
    }
  }

  /** The values at 1 to `k`. */
  ghost function Image(k: nat, value: map<nat, nat>): set<nat> {
    set i | i in value && 1 <= i <= k :: value[i]
  }

  lemma {:induction false} Images(k: nat, value: map<nat, nat>)
    requires forall i :: 1 <= i <= k ==> i in value
    requires forall i, j :: 1 <= i < j <= k ==> value[i] != value[j]
    ensures |Image(k, value)| == k
  {
    if k == 0 {
      assert Image(k, value) == {};
    } else {
      Images(k - 1, value);
      assert Image(k, value) == Image(k - 1, value) + {value[k]} by {
        assert value[k] in Image(k, value);
      }
      assert value[k] !in Image(k - 1, value);
    }
  }
}
