/** Capped exponential backoff (app/jobs/retry.py). */
module Backoff {
  import opened Wrappers

  function Pow2(n: nat): nat {
    if n == 0 then 1 else 2 * Pow2(n - 1)
  }

  function Delay(attemptCount: int, base: int, maximum: int): int {
    if attemptCount < 1 then base else Min(base * Pow2(attemptCount - 1), maximum)
  }

  lemma {:induction false} Pow2Grows(a: nat, b: nat)
    requires a <= b
    ensures 1 <= Pow2(a) <= Pow2(b)
    decreases b
  {
    if b == 0 {
    } else if a == b {
      Pow2Grows(a - 1, b - 1);
    } else {
      Pow2Grows(a, b - 1);
    }
  }

  lemma ScalesUp(base: int, p: nat, q: nat)
    requires 1 <= base && 1 <= p <= q
    ensures base <= base * p <= base * q
  {
    assert base * q - base * p == base * (q - p);
  }

  /** Between one second and the maximum, and never shorter than after an earlier attempt. */
  lemma DelayIsBoundedAndMonotone(a: int, b: int, base: int, maximum: int)
    requires 1 <= a <= b && 1 <= base && 1 <= maximum
    ensures 1 <= Delay(a, base, maximum) <= Delay(b, base, maximum) <= maximum
  {
    Pow2Grows(0, a - 1);
    Pow2Grows(a - 1, b - 1);
    ScalesUp(base, Pow2(a - 1), Pow2(b - 1));
  }

  /** The cap is not applied before the first attempt, so it holds exactly when an attempt was counted or the base fits. */
  lemma CapHoldsIff(attemptCount: int, base: int, maximum: int)
    ensures Delay(attemptCount, base, maximum) <= maximum <==> attemptCount >= 1 || base <= maximum
  {
  }

  /** Seconds waited over attempts 1 to k. */
  function TotalDelay(k: nat, base: int, maximum: int): int {
    if k == 0 then 0 else TotalDelay(k - 1, base, maximum) + Delay(k, base, maximum)
  }

  lemma {:induction false} TotalWhileUncapped(k: nat, base: int, maximum: int)
    requires 1 <= base && (k > 0 ==> base * Pow2(k - 1) <= maximum)
    ensures TotalDelay(k, base, maximum) == base * (Pow2(k) - 1)
  {
    if k == 0 {
    } else {
      if k > 1 {
        Pow2Grows(0, k - 2);
        Pow2Grows(k - 2, k - 1);
        ScalesUp(base, Pow2(k - 2), Pow2(k - 1));
      }
      TotalWhileUncapped(k - 1, base, maximum);
      assert Pow2(k) == 2 * Pow2(k - 1);
      assert base * (Pow2(k) - 1) == base * (Pow2(k - 1) - 1) + base * Pow2(k - 1);
    }
  }

  lemma {:induction false} TotalNeverExceedsCap(k: nat, base: int, maximum: int)
    requires 1 <= base && 1 <= maximum
    ensures k <= TotalDelay(k, base, maximum) <= k * maximum
  {
    if k == 0 {
    } else {
      TotalNeverExceedsCap(k - 1, base, maximum);
      DelayIsBoundedAndMonotone(k, k, base, maximum);
    }
  }
}
