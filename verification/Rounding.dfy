/**
 The decimal arithmetic the ledger leans on.

 Money is measured in ledger units (hundredths of the currency), so rounding to
 the ledger's precision is rounding to a whole number. A quotient is first cut
 to sixteen decimals of the currency, which is fourteen decimals of a unit, and
 only then rounded to the unit: two roundings, one after the other.
 */
module Rounding {

  /** Quotients keep this many steps per ledger unit. */
  const QUOTIENT_STEPS: real := 100000000000000.0

  /** The most a quotient can be moved by its own rounding. */
  const QUOTIENT_ERROR: real := 0.000000000000005

  /** Nearest whole number, halves away from zero. */
  function Round(x: real): (r: int)
    ensures r as real - 0.5 <= x <= r as real + 0.5
  {
    if x < 0.0 then -((0.5 - x).Floor) else (x + 0.5).Floor
  }

  /** The nearest whole number, halves up. */
  ghost predicate NearestTo(n: int, x: real) {
    n as real - 0.5 <= x < n as real + 0.5
  }

  lemma RoundIsNearest(x: real)
    requires x >= 0.0
    ensures NearestTo(Round(x), x)
  {
  }

  /** Whole part, towards zero. */
  function RoundDown(x: real): int {
    if x < 0.0 then -((-x).Floor) else x.Floor
  }

  /** Division as the decimal library performs it: cut to its own precision. */
  function Quotient(x: real, y: real): real
    requires y > 0.0
  {
    Round(x / y * QUOTIENT_STEPS) as real / QUOTIENT_STEPS
  }

  lemma RoundOfWhole(n: int)
    ensures Round(n as real) == n
  {
  }

  lemma RoundIsMonotone(x: real, y: real)
    requires x <= y
    ensures Round(x) <= Round(y)
  {
  }

  /** A quotient is never further from the exact one than half its last step. */
  lemma QuotientIsClose(x: real, y: real)
    requires y > 0.0
    ensures x / y - QUOTIENT_ERROR <= Quotient(x, y) <= x / y + QUOTIENT_ERROR
    ensures x >= 0.0 ==> x / y - QUOTIENT_ERROR < Quotient(x, y)
  {
  }

  /** Dividing exactly is exact. */
  lemma QuotientOfMultiple(n: int, x: real, y: real)
    requires y > 0.0 && x == n as real * y
    ensures Quotient(x, y) == n as real
  {
    assert x / y == n as real;
    RoundOfWhole(n * 100000000000000);
  }

  lemma QuotientIsMonotone(x: real, x': real, y: real)
    requires y > 0.0 && x <= x'
    ensures Quotient(x, y) <= Quotient(x', y)
  {
    assert x / y <= x' / y;
    RoundIsMonotone(x / y * QUOTIENT_STEPS, x' / y * QUOTIENT_STEPS);
  }
}
