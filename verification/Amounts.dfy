/** Monetary amounts as whole micro-units (src/types/amount.hpp); 1 USDC is 1000000 units. */
module Amounts {

  type Amount = int

  const SCALE := 1_000_000

  // std::round: to the nearest integer, halves away from zero.
  function Round(x: real): int {
    if x >= 0.0 then (x + 0.5).Floor else -((-x + 0.5).Floor)
  }

  function FromDouble(d: real): Amount {
    Round(d * SCALE as real)
  }

  function ToDouble(a: Amount): real {
    a as real / SCALE as real
  }

  function AbsAmount(a: Amount): Amount {
    if a < 0 then -a else a
  }

  lemma RoundIsNearest(x: real)
    ensures -0.5 <= Round(x) as real - x <= 0.5
  {
  }

  lemma RoundIsMonotone(x: real, y: real)
    requires x <= y
    ensures Round(x) <= Round(y)
  {
    RoundIsNearest(x);
    RoundIsNearest(y);
  }

  lemma RoundOfWhole(n: int)
    ensures Round(n as real) == n
  {
  }

  // An amount survives the trip through the shared atomics, which hold doubles.
  lemma DoubleRoundTrip(a: Amount)
    ensures FromDouble(ToDouble(a)) == a
  {
    assert ToDouble(a) * SCALE as real == a as real;
    RoundOfWhole(a);
  }

  lemma FromDoubleMonotone(x: real, y: real)
    requires x <= y
    ensures FromDouble(x) <= FromDouble(y)
  {
    assert x * SCALE as real <= y * SCALE as real;
    RoundIsMonotone(x * SCALE as real, y * SCALE as real);
  }

  // Rounding never carries a value past a whole amount it does not exceed.
  lemma FromDoubleAtMost(x: real, a: Amount)
    requires x <= ToDouble(a)
    ensures FromDouble(x) <= a
  {
    FromDoubleMonotone(x, ToDouble(a));
    DoubleRoundTrip(a);
  }

  lemma FromDoubleAtLeast(x: real, a: Amount)
    requires ToDouble(a) <= x
    ensures a <= FromDouble(x)
  {
    FromDoubleMonotone(ToDouble(a), x);
    DoubleRoundTrip(a);
  }

  lemma FromDoubleNotNegative(x: real)
    requires x >= 0.0
    ensures FromDouble(x) >= 0
  {
    FromDoubleAtLeast(x, 0);
  }

  lemma FromDoubleNear(x: real)
    ensures -0.000001 < ToDouble(FromDouble(x)) - x < 0.000001
  {
    RoundIsNearest(x * SCALE as real);
  }

  lemma ToDoubleOrders(a: Amount, b: Amount)
    ensures ToDouble(a) < ToDouble(b) <==> a < b
  {
  }

  lemma ToDoubleAdds(a: Amount, b: Amount)
    ensures ToDouble(a + b) == ToDouble(a) + ToDouble(b)
  {
  }
}
