/** `ImpactCalculator` of app/business_impact/calculator.py over exact rationals. */
module Rates {
  import opened Wrappers

  const RATE_QUANTA := 1000000.0
  const MINUTE_QUANTA := 100.0

  function HalfUp(x: real): int {
    (x + 0.5).Floor
  }

  lemma HalfUpIsMonotone(x: real, y: real)
    requires x <= y
    ensures HalfUp(x) <= HalfUp(y)
  {
  }

  lemma HalfUpOfWhole(x: real, n: int)
    requires x == n as real
    ensures HalfUp(x) == n
  {
  }

  lemma HalfUpOfParts(x: real, y: real, n: int)
    requires x + y == n as real
    ensures n <= HalfUp(x) + HalfUp(y) <= n + 1
  {
  }

  /** `quantize` with ROUND_HALF_UP for values that are not negative, to multiples of 1 / `quanta`. */
  function Quantized(x: real, quanta: real): real
    requires quanta > 0.0
  {
    HalfUp(x * quanta) as real / quanta
  }

  function AtLeastZero(x: real): real {
    if x >= 0.0 then x else 0.0
  }

  function AtMostOne(x: real): real {
    if x <= 1.0 then x else 1.0
  }

  function MinutesSaved(manual: real, ai: real): real {
    Quantized(AtLeastZero(manual - ai), MINUTE_QUANTA)
  }

  function AutomationRate(automatedSteps: int, stepsBefore: int): real {
    Quantized(AtMostOne(Max(automatedSteps, 0) as real / Max(stepsBefore, 1) as real), RATE_QUANTA)
  }

  function Ratio(numerator: int, denominator: int): real {
    if denominator <= 0 then 0.0 else Quantized(Max(numerator, 0) as real / denominator as real, RATE_QUANTA)
  }

  /** Steps that remain by hand. */
  function StepsAfter(stepsBefore: int, automatedSteps: int): int {
    Max(stepsBefore - automatedSteps, 0)
  }

  lemma DividedBelow(a: real, b: real, q: real)
    requires q > 0.0 && a <= b
    ensures a / q <= b / q
  {
  }

  lemma Divided(x: real, q: real)
    requires q > 0.0
    ensures (x * q) / q == x
  {
  }

  lemma Multiplied(x: real, y: real, q: real)
    requires q > 0.0 && x <= y
    ensures x * q <= y * q
  {
  }

  lemma PartsOfWhole(a: real, b: real, q: real)
    requires q > 0.0 && a + b == q
    ensures a / q + b / q == 1.0
  {
    assert a / q + b / q == (a + b) / q;
  }

  lemma DividedAndMultiplied(x: real, q: real)
    requires q > 0.0
    ensures (x / q) * q == x
  {
  }

  /** Within half a quantum, ties upwards. */
  lemma QuantizedIsClose(x: real, quanta: real)
    requires quanta > 0.0
    ensures x - 0.5 / quanta < Quantized(x, quanta) <= x + 0.5 / quanta
  {
    var y := x * quanta;
    var n := HalfUp(y) as real;
    Divided(x, quanta);
    DividedBelow(n, y + 0.5, quanta);
    assert (y + 0.5) / quanta == y / quanta + 0.5 / quanta;
    assert (y - 0.5) / quanta == y / quanta - 0.5 / quanta;
    assert (n - (y - 0.5)) / quanta > 0.0;
    assert n / quanta - (y - 0.5) / quanta == (n - (y - 0.5)) / quanta;
  }

  lemma QuantizedIsMonotone(x: real, y: real, quanta: real)
    requires quanta > 0.0 && x <= y
    ensures Quantized(x, quanta) <= Quantized(y, quanta)
  {
    Multiplied(x, y, quanta);
    HalfUpIsMonotone(x * quanta, y * quanta);
    DividedBelow(HalfUp(x * quanta) as real, HalfUp(y * quanta) as real, quanta);
  }

  /** Whole quanta are left alone, so quantizing twice is quantizing once. */
  lemma QuantaAreFixed(x: real, n: int, quanta: real)
    requires quanta > 0.0 && x * quanta == n as real
    ensures Quantized(x, quanta) == x
  {
    HalfUpOfWhole(x * quanta, n);
    Divided(x, quanta);
  }

  lemma QuantizedTwice(x: real, quanta: real)
    requires quanta > 0.0
    ensures Quantized(Quantized(x, quanta), quanta) == Quantized(x, quanta)
  {
    var n := HalfUp(x * quanta);
    DividedAndMultiplied(n as real, quanta);
    QuantaAreFixed(Quantized(x, quanta), n, quanta);
  }

  lemma QuantizedZeroAndOne(quanta: int)
    requires quanta > 0
    ensures Quantized(0.0, quanta as real) == 0.0 && Quantized(1.0, quanta as real) == 1.0
  {
    QuantaAreFixed(0.0, 0, quanta as real);
    QuantaAreFixed(1.0, quanta, quanta as real);
  }

  lemma Fractions(a: real, b: real, d: real)
    requires 0.0 <= a <= b <= d && d > 0.0
    ensures 0.0 <= a / d <= b / d <= 1.0
  {
    DividedBelow(0.0, a, d);
    DividedBelow(a, b, d);
    DividedBelow(b, d, d);
  }

  lemma QuantizedShares(x: real, y: real)
    requires 0.0 <= x <= y <= 1.0
    ensures 0.0 <= Quantized(x, RATE_QUANTA) <= Quantized(y, RATE_QUANTA) <= 1.0
  {
    QuantizedZeroAndOne(1_000_000);
    QuantizedIsMonotone(0.0, x, RATE_QUANTA);
    QuantizedIsMonotone(x, y, RATE_QUANTA);
    QuantizedIsMonotone(y, 1.0, RATE_QUANTA);
  }

  /** Ratios of counts of the same things keep their order and stay between 0 and 1. */
  lemma RatioIsMonotone(a: int, b: int, n: int)
    requires a <= b <= Max(n, 0)
    ensures 0.0 <= Ratio(a, n) <= Ratio(b, n) <= 1.0
  {
    if n > 0 {
      Fractions(Max(a, 0) as real, Max(b, 0) as real, n as real);
      QuantizedShares(Max(a, 0) as real / n as real, Max(b, 0) as real / n as real);
    }
  }

  /** A rate and that of the opposite add up to one, or one quantum more when both are ties. */
  lemma OppositeRatesAddUp(a: int, n: int)
    requires 0 <= a <= n && n > 0
    ensures 1.0 <= Ratio(a, n) + Ratio(n - a, n) <= 1.0 + 1.0 / RATE_QUANTA
  {
    var x, y := a as real / n as real, (n - a) as real / n as real;
    PartsOfWhole(a as real, (n - a) as real, n as real);
    HalfUpOfParts(x * RATE_QUANTA, y * RATE_QUANTA, 1_000_000);
  }

  lemma MinutesSavedIsClamped(manual: real, ai: real)
    ensures MinutesSaved(manual, ai) >= 0.0
    ensures manual <= ai ==> MinutesSaved(manual, ai) == 0.0
  {
    QuantizedZeroAndOne(100);
    QuantizedIsMonotone(0.0, AtLeastZero(manual - ai), MINUTE_QUANTA);
  }

  /** The rate is a rate, and it is 1 when the steps left over are none (and there was one at all). */
  lemma AutomationRateIsBounded(automatedSteps: int, stepsBefore: int)
    ensures 0.0 <= AutomationRate(automatedSteps, stepsBefore) <= 1.0
    ensures stepsBefore > 0 && StepsAfter(stepsBefore, automatedSteps) == 0 ==> AutomationRate(automatedSteps, stepsBefore) == 1.0
  {
    var x, d := Max(automatedSteps, 0) as real, Max(stepsBefore, 1) as real;
    DividedBelow(0.0, x, d);
    if stepsBefore > 0 && automatedSteps >= stepsBefore {
      DividedBelow(d, x, d);
      assert AtMostOne(x / d) == 1.0;
    }
    QuantizedZeroAndOne(1_000_000);
    QuantizedIsMonotone(0.0, AtMostOne(x / d), RATE_QUANTA);
    QuantizedIsMonotone(AtMostOne(x / d), 1.0, RATE_QUANTA);
  }

  // ----- what the figures mean, in numbers

  predicate IsWhole(x: real) {
    x == x.Floor as real
  }

  lemma QuantaAreWhole(x: real, quanta: real)
    requires quanta > 0.0
    ensures IsWhole(Quantized(x, quanta) * quanta)
  {
    DividedAndMultiplied(HalfUp(x * quanta) as real, quanta);
    WholeIs(Quantized(x, quanta) * quanta, HalfUp(x * quanta));
  }

  lemma WholeIs(x: real, n: int)
    requires x == n as real
    ensures IsWhole(x)
  {
  }

  /** A rate is a whole number of millionths, within half a millionth of the exact quotient; without a total it is zero. */
  lemma RatioToSixPlaces(numerator: int, denominator: int)
    ensures IsWhole(Ratio(numerator, denominator) * 1000000.0)
    ensures denominator <= 0 ==> Ratio(numerator, denominator) == 0.0
    ensures denominator > 0 ==>
      var exact := (if numerator < 0 then 0.0 else numerator as real) / denominator as real;
      exact - 0.0000005 < Ratio(numerator, denominator) <= exact + 0.0000005
  {
    if denominator > 0 {
      var exact := Max(numerator, 0) as real / denominator as real;
      QuantizedIsClose(exact, RATE_QUANTA);
      QuantaAreWhole(exact, RATE_QUANTA);
    } else {
      assert Ratio(numerator, denominator) * 1000000.0 == 0.0;
    }
  }

  /** Minutes saved are whole hundredths, within half a hundredth of the exact difference, or zero if there is none. */
  lemma MinutesToTwoPlaces(manual: real, ai: real)
    ensures IsWhole(MinutesSaved(manual, ai) * 100.0)
    ensures var exact := if manual >= ai then manual - ai else 0.0; exact - 0.005 < MinutesSaved(manual, ai) <= exact + 0.005
  {
    QuantizedIsClose(AtLeastZero(manual - ai), MINUTE_QUANTA);
    QuantaAreWhole(AtLeastZero(manual - ai), MINUTE_QUANTA);
  }

  /** The automation rate is whole millionths, within half a millionth of the share of automated steps, at most one. */
  lemma AutomationToSixPlaces(automatedSteps: int, stepsBefore: int)
    ensures IsWhole(AutomationRate(automatedSteps, stepsBefore) * 1000000.0)
    ensures 0 <= automatedSteps <= stepsBefore && stepsBefore > 0 ==>
      var exact := automatedSteps as real / stepsBefore as real;
      exact - 0.0000005 < AutomationRate(automatedSteps, stepsBefore) <= exact + 0.0000005
  {
    var exact := Max(automatedSteps, 0) as real / Max(stepsBefore, 1) as real;
    QuantizedIsClose(AtMostOne(exact), RATE_QUANTA);
    QuantaAreWhole(AtMostOne(exact), RATE_QUANTA);
    if 0 <= automatedSteps <= stepsBefore && stepsBefore > 0 {
      Fractions(0.0, automatedSteps as real, stepsBefore as real);
    }
  }
}
