/**
 Dividing money by a count. The quotient's sixteen digits never change the
 hundredth it is then rounded to, as long as the count fits a database integer.
 */
module WholeDivision {
  import opened Rounding

  /** The largest value of an `integer` column. */
  const MAX_INTEGER := 2147483647

  lemma QuotientReaches(x: real, y: real, floor: real, n: int)
    requires y > 0.0 && floor * 2.0 == n as real && x >= floor * y
    ensures Quotient(x, y) >= floor
  {
    QuotientIsMonotone(floor * y, x, y);
    assert floor * y / y == floor;
    assert floor * QUOTIENT_STEPS == (n * 50000000000000) as real;
    RoundOfWhole(n * 50000000000000);
  }

  /**
   Any amount in ten-thousandths over a count, cut down to the hundredth: what it gives
   each, and what each is short of.
   */
  lemma CutDownFits(x: real, t: nat)
    requires 0 < t <= MAX_INTEGER && x >= 0.0
    ensures var q := RoundDown(Quotient(x / 100.0, t as real));
      && q >= 0 && 100 * (q * t) <= Round(x) && x < (100 * (q * t) + 100 * t) as real
  {
    hide Quotient;
    var y, units := t as real, x / 100.0;
    var q := RoundDown(Quotient(units, y));
    QuotientReaches(units, y, 0.0, 0);
    QuotientIsClose(units, y);
    ProductOfReals(q, t, q * t);
    if units >= (q as real + 1.0) * y {
      QuotientReaches(units, y, q as real + 1.0, 2 * q + 2);
      assert false;
    }
    assert (q as real + 1.0) * y == (q * t) as real + y;
    assert units / y * y == units;
    AlmostReached(units / y, y, q as real);
  }

  /** A whole amount in ten-thousandths, cut down so, is the whole-number quotient. */
  lemma CutDownIsWholeDivision(n: nat, t: nat)
    requires 0 < t <= MAX_INTEGER
    ensures RoundDown(Quotient(n as real / 100.0, t as real)) == n / (100 * t)
  {
    hide RoundDown, Quotient;
    var q := RoundDown(Quotient(n as real / 100.0, t as real));
    CutDownFits(n as real, t);
    RoundOfWhole(n);
    assert q * (100 * t) == 100 * (q * t);
    QuotientIs(n, 100 * t, q, n - q * (100 * t));
  }

  lemma AlmostReached(z: real, y: real, q: real)
    requires 0.0 < y <= 2147483647.0 && q <= z + QUOTIENT_ERROR
    ensures q * y <= z * y + 0.001
  {
    if q * y > z * y + 0.001 {
      GapIsWide(z, y, q);
    }
  }

  lemma ProductOfReals(a: int, b: int, p: int)
    requires p == a * b
    ensures a as real * b as real == p as real
  {
  }

  lemma BelowByAHundredth(x: real, y: real, c: real)
    requires 0.0 < y <= 2147483647.0 && x + 0.01 <= c * y
    ensures x / y + QUOTIENT_ERROR < c
  {
    GapIsWide(x / y, y, c);
  }

  lemma GapIsWide(z: real, y: real, c: real)
    requires 0.0 < y <= 2147483647.0 && z * y + 0.001 <= c * y
    ensures z + QUOTIENT_ERROR < c
  {
    var d := c - z;
    assert d * y >= 0.001;
    if d <= QUOTIENT_ERROR {
      ErrorStaysSmall(d, y);
    }
  }

  lemma ErrorStaysSmall(d: real, y: real)
    requires 0.0 < y <= 2147483647.0 && d <= QUOTIENT_ERROR
    ensures d * y < 0.001
  {
  }

  /** A whole amount over a count, rounded, is the nearest whole number, halves up. */
  lemma RoundingIsWholeDivision(n: nat, t: nat)
    requires 0 < t <= MAX_INTEGER
    ensures Round(Quotient(n as real, t as real)) == (2 * n + t) / (2 * t)
  {
    var s := (2 * n + t) / (2 * t);
    var p := s * t;
    assert s * (2 * t) == 2 * p && (s + 1) * (2 * t) == 2 * p + 2 * t;
    assert 2 * p <= 2 * n + t <= 2 * p + 2 * t - 1;
    ProductOfReals(s, t, p);
    var y, half := t as real, s as real - 0.5;
    assert half * y == p as real - y * 0.5;
    QuotientReaches(n as real, y, half, 2 * s - 1);
    assert (half + 1.0) * y == p as real + y * 0.5;
    QuotientIsClose(n as real, y);
    BelowByAHundredth(n as real, y, half + 1.0);
    QuotientReaches(n as real, y, 0.0, 0);
    NearestWhole(Quotient(n as real, y), s);
  }

  lemma NearestWhole(x: real, s: nat)
    requires 0.0 <= x && s as real - 0.5 <= x < s as real + 0.5
    ensures Round(x) == s
  {
  }

  /** The rounded share of a whole amount is within half a unit of the exact one. */
  lemma RoundedShareIsClose(n: int, t: int)
    requires 0 <= n && 0 < t
    ensures -t <= 2 * ((2 * n + t) / (2 * t) * t - n) <= t
  {
  }

  /** And gives the amount back, taken as often as it was divided, only for a divisor. */
  lemma RoundedShareIsExactIff(n: int, t: int)
    requires 0 <= n && 0 < t
    ensures (2 * n + t) / (2 * t) * t == n <==> n % t == 0
  {
    var share, q := (2 * n + t) / (2 * t), n / t;
    assert n == q * t + n % t;
    if n % t == 0 {
      ShareOfMultiple(q, t);
    } else if share * t == n {
      MultiplesDivide(share, t);
      assert false;
    }
  }

  lemma QuotientIs(x: int, y: int, q: int, r: int)
    requires 0 <= r < y && x == q * y + r
    ensures x / y == q && x % y == r
  {
    var k := x / y;
    assert x == k * y + x % y;
    var d := q - k;
    assert d * y == x % y - r;
    MultiplesAreFar(d, y);
  }

  lemma MultiplesAreFar(d: int, y: int)
    requires 0 < y
    ensures d >= 1 ==> d * y >= y
    ensures d <= -1 ==> d * y <= -y
  {
  }

  lemma ShareOfMultiple(q: int, t: int)
    requires 0 < t
    ensures (2 * (q * t) + t) / (2 * t) == q
  {
    QuotientIs(2 * (q * t) + t, 2 * t, q, t);
  }

  lemma MultiplesDivide(q: int, t: int)
    requires 0 < t
    ensures q * t % t == 0
  {
    QuotientIs(q * t, t, q, 0);
  }
}
