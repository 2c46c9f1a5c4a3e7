/**
 What `allocate` and `raiseToFloor` promise: an exact sum, nobody below one
 unit, proportional to within rounding, and the cost of the floor carried by the
 largest shares and by nobody else.
 */
module AllocationLaws {
  import opened Wrappers
  import opened Rounding
  import opened Sums
  import opened Allocation

  ghost predicate AtLeastFloor(s: seq<int>) {
    forall i :: 0 <= i < |s| ==> s[i] >= FLOOR
  }

  ghost predicate NoneAbove(r: seq<int>, s: seq<int>) {
    |r| == |s| && forall i :: 0 <= i < |s| ==> r[i] <= s[i]
  }

  /** How many shares sit below the floor. */
  ghost function Below(s: seq<int>): nat {
    if s == [] then 0 else Below(s[..|s| - 1]) + if s[|s| - 1] < FLOOR then 1 else 0
  }

  /** How many shares have something to spare. */
  ghost function Above(s: seq<int>): nat {
    if s == [] then 0 else Above(s[..|s| - 1]) + if s[|s| - 1] > FLOOR then 1 else 0
  }

  /** Whether `a` is asked to pay before `b`. */
  ghost predicate Before(s: seq<int>, a: int, b: int)
    requires 0 <= a < |s| && 0 <= b < |s|
  {
    s[a] > s[b] || (s[a] == s[b] && a <= b)
  }

  /** Nobody pays while somebody ahead of them still has something to spare. */
  ghost predicate LargestFirst(s: seq<int>, r: seq<int>)
    requires |r| == |s|
  {
    forall a, b :: 0 <= a < |s| && 0 <= b < |s| && r[a] < s[a] && r[b] > FLOOR ==> Before(s, a, b)
  }

  /** The share in exact proportion. */
  ghost function Proportion(total: int, part: real, sum: real): real
    requires sum > 0.0
  {
    total as real * part / sum
  }

  // ---------------------------------------------------------------------
  // The floor
  // ---------------------------------------------------------------------

  lemma {:induction false} LiftingCosts(s: seq<int>)
    ensures Sum(Lifted(s)) == Sum(s) + Shortfall(s)
    ensures AtLeastFloor(Lifted(s))
  {
    if s != [] {
      assert Lifted(s)[..|s| - 1] == Lifted(s[..|s| - 1]);
      LiftingCosts(s[..|s| - 1]);
    }
  }

  lemma {:induction false} AUnitEach(s: seq<int>)
    requires AtLeastFloor(s)
    ensures Sum(s) >= |s|
  {
    if s != [] {
      AUnitEach(s[..|s| - 1]);
    }
  }

  lemma OneRound(s: seq<int>, deficit: nat)
    requires AtLeastFloor(s) && CanPay(s, deficit)
    ensures AtLeastFloor(Paid(s, deficit)) && NoneAbove(Paid(s, deficit), s)
    ensures 0 < Taken(s, deficit) <= deficit
    ensures Sum(Paid(s, deficit)) == Sum(s) - Taken(s, deficit)
  {
    SumOfUpdate(s, Largest(s), s[Largest(s)] - Taken(s, deficit));
  }

  /** Sum minus deficit never changes, nobody sinks below the floor, nobody rises. */
  lemma {:induction false} RepaymentKeepsTheSum(s: seq<int>, deficit: nat)
    requires AtLeastFloor(s)
    ensures var r := Repaid(s, deficit);
      && AtLeastFloor(r) && NoneAbove(r, s)
      && Sum(r) - Unpaid(s, deficit) == Sum(s) - deficit
      && (Unpaid(s, deficit) > 0 ==> Sum(r) == |s|)
    decreases deficit
  {
    if CanPay(s, deficit) {
      OneRound(s, deficit);
      RepaymentKeepsTheSum(Paid(s, deficit), deficit - Taken(s, deficit));
    } else if deficit > 0 {
      forall i | 0 <= i < |s| ensures s[i] == FLOOR {
        assert s[i] <= s[Largest(s)];
      }
      SumOfConstant(s, FLOOR);
    }
  }

  lemma {:induction false} AboveFallsByOne(s: seq<int>, i: nat)
    requires i < |s| && s[i] > FLOOR
    ensures Above(s) == Above(s[i := FLOOR]) + 1
  {
    var n := |s| - 1;
    if i == n {
      assert s[i := FLOOR][..n] == s[..n];
    } else {
      assert s[i := FLOOR][..n] == s[..n][i := FLOOR];
      AboveFallsByOne(s[..n], i);
    }
  }

  /** Each round empties a share or ends the repair, so there are no more rounds than shares that can pay. */
  lemma {:induction false} RoundsAreBounded(s: seq<int>, deficit: nat)
    requires AtLeastFloor(s)
    ensures Rounds(s, deficit) <= Above(s)
    decreases deficit
  {
    if CanPay(s, deficit) {
      var l, t := Largest(s), Taken(s, deficit);
      OneRound(s, deficit);
      AboveFallsByOne(s, l);
      if t < deficit {
        assert Paid(s, deficit) == s[l := FLOOR];
        RoundsAreBounded(Paid(s, deficit), deficit - t);
      }
    }
  }

  /**
   The floor repair, for every list of shares: it keeps the sum when there is a
   unit for everybody, and its early return is taken exactly when there is not.
   */
  lemma RaisingIsExact(s: seq<int>)
    ensures AtLeastFloor(Raised(s)) && NoneAbove(Raised(s), Lifted(s))
    ensures Rounds(Lifted(s), Shortfall(s)) <= Above(Lifted(s))
    ensures Unpaid(Lifted(s), Shortfall(s)) == if Sum(s) >= |s| then 0 else |s| - Sum(s)
    ensures Sum(Raised(s)) == if Sum(s) >= |s| then Sum(s) else |s|
  {
    LiftingCosts(s);
    RepaymentKeepsTheSum(Lifted(s), Shortfall(s));
    RoundsAreBounded(Lifted(s), Shortfall(s));
    AUnitEach(Raised(s));
  }

  lemma {:induction false} RepaymentIsLargestFirst(s: seq<int>, deficit: nat)
    requires AtLeastFloor(s)
    ensures LargestFirst(s, Repaid(s, deficit))
    decreases deficit
  {
    if CanPay(s, deficit) {
      var l, p, rest := Largest(s), Paid(s, deficit), deficit - Taken(s, deficit);
      var r := Repaid(p, rest);
      OneRound(s, deficit);
      RepaymentKeepsTheSum(p, rest);
      RepaymentIsLargestFirst(p, rest);
      assert rest > 0 ==> p[l] == FLOOR;
      assert rest == 0 ==> r == p;
      forall a, b | 0 <= a < |s| && 0 <= b < |s| && r[a] < s[a] && r[b] > FLOOR
        ensures Before(s, a, b)
      {
        if a != l && b != l {
          assert Before(p, a, b);
        }
      }
    }
  }

  lemma OneFallIsTheWholeFall(r: seq<int>, s: seq<int>, i: nat)
    requires NoneAbove(r, s) && i < |s|
    ensures s[i] - r[i] <= Sum(s) - Sum(r)
  {
    SumOfUpdate(s, i, r[i]);
    SumIsMonotone(r, s[i := r[i]]);
  }

  lemma NothingFellNothingMoved(r: seq<int>, s: seq<int>)
    requires NoneAbove(r, s) && Sum(r) == Sum(s)
    ensures r == s
  {
    forall i | 0 <= i < |s| ensures r[i] == s[i] {
      OneFallIsTheWholeFall(r, s, i);
    }
  }

  lemma SomebodyIsBelow(r: seq<int>, q: seq<int>) returns (a: nat)
    requires |r| == |q| && r != q && Sum(r) == Sum(q)
    ensures a < |r| && r[a] < q[a]
  {
    if NoneAbove(q, r) {
      NothingFellNothingMoved(q, r);
    }
    a :| a < |r| && r[a] < q[a];
  }

  lemma LargestFirstIsUnique(t: seq<int>, r: seq<int>, q: seq<int>)
    requires NoneAbove(r, t) && AtLeastFloor(r) && LargestFirst(t, r)
    requires NoneAbove(q, t) && AtLeastFloor(q) && LargestFirst(t, q)
    requires Sum(r) == Sum(q)
    ensures r == q
  {
    if r != q {
      var a := SomebodyIsBelow(r, q);
      var b := SomebodyIsBelow(q, r);
      assert false;
    }
  }

  /**
   The repair is the only one of its kind. A list of shares is what
   `raiseToFloor` leaves exactly when it keeps the sum, puts nobody below a unit
   and nobody above what lifting gave them, and makes nobody pay while a larger
   share (or an equal one ahead of them) still has something to spare.
   */
  lemma RaisingIsLargestFirst(s: seq<int>, r: seq<int>)
    requires Sum(s) >= |s|
    ensures r == Raised(s) <==>
      && NoneAbove(r, Lifted(s)) && AtLeastFloor(r)
      && Sum(r) == Sum(s) && LargestFirst(Lifted(s), r)
  {
    RaisingIsExact(s);
    LiftingCosts(s);
    RepaymentIsLargestFirst(Lifted(s), Shortfall(s));
    if NoneAbove(r, Lifted(s)) && AtLeastFloor(r) && Sum(r) == Sum(s) && LargestFirst(Lifted(s), r) {
      LargestFirstIsUnique(Lifted(s), r, Raised(s));
    }
  }

  // ---------------------------------------------------------------------
  // Proportion
  // ---------------------------------------------------------------------

  lemma {:induction false} SharesReachTheirTargets(total: int, parts: seq<real>, sum: real, k: nat)
    requires sum > 0.0 && k <= |parts|
    ensures Sum(Shares(total, parts, sum)[..k]) == Target(total, Total(parts[..k]), sum)
  {
    if k == 0 {
      NothingTargeted(total, sum);
    } else {
      SharesReachTheirTargets(total, parts, sum, k - 1);
      SumOfNext(Shares(total, parts, sum), k - 1);
    }
  }

  lemma TargetsRise(total: int, x: real, y: real, sum: real)
    requires sum > 0.0 && x <= y && total >= 0
    ensures Target(total, x, sum) <= Target(total, y, sum)
  {
    assert total as real * x <= total as real * y;
    QuotientIsMonotone(total as real * x, total as real * y, sum);
    RoundIsMonotone(Quotient(total as real * x, sum), Quotient(total as real * y, sum));
  }

  lemma LastTargetIsTheTotal(total: int, sum: real)
    requires sum > 0.0
    ensures Target(total, sum, sum) == total
  {
    QuotientOfMultiple(total, total as real * sum, sum);
    RoundOfWhole(total);
  }

  /** Before the floor: nothing negative, and the whole total given out. */
  lemma SharesAddUp(total: int, parts: seq<real>)
    requires parts != [] && AllPositive(parts) && total >= 0
    ensures Total(parts) > 0.0
    ensures var s := Shares(total, parts, Total(parts));
      && Sum(s) == total && forall i :: 0 <= i < |s| ==> s[i] >= 0
  {
    assert parts[..|parts|] == parts;
    TotalGrows(parts, 0, |parts|);
    var sum := Total(parts);
    var s := Shares(total, parts, sum);
    assert s[..|parts|] == s;
    SharesReachTheirTargets(total, parts, sum, |parts|);
    LastTargetIsTheTotal(total, sum);
    forall i | 0 <= i < |s| ensures s[i] >= 0 {
      TotalGrows(parts, i, i + 1);
      TargetsRise(total, Total(parts[..i]), Total(parts[..i + 1]), sum);
    }
  }

  /** Every part list and total: one share a part, none below a unit, the total exactly, the early return unreached. */
  lemma AllocationIsExact(total: int, parts: seq<real>)
    ensures Allocated(total, parts).Ok? <==> parts == [] || (AllPositive(parts) && total >= FLOOR * |parts|)
    ensures Allocated(total, parts).Ok? && parts != [] ==>
      var r, sum := Allocated(total, parts).value, Total(parts);
      && sum > 0.0
      && |r| == |parts| && AtLeastFloor(r) && Sum(r) == total
      && Unpaid(Lifted(Shares(total, parts, sum)), Shortfall(Shares(total, parts, sum))) == 0
  {
    if Allocated(total, parts).Ok? && parts != [] {
      SharesAddUp(total, parts);
      RaisingIsExact(Shares(total, parts, Total(parts)));
    }
  }

  /**
   Every prefix of the shares follows the proportions to half a unit, plus what the
   quotient's sixteen digits lose.
   */
  lemma PrefixesFollowTheProportions(total: int, parts: seq<real>, k: nat)
    requires Total(parts) > 0.0 && k <= |parts|
    ensures var error := Sum(Shares(total, parts, Total(parts))[..k]) as real
                         - Proportion(total, Total(parts[..k]), Total(parts));
      -0.5 - QUOTIENT_ERROR <= error <= 0.5 + QUOTIENT_ERROR
  {
    SharesReachTheirTargets(total, parts, Total(parts), k);
    TargetFollows(total, Total(parts[..k]), Total(parts));
  }

  lemma ProportionsAdd(total: int, x: real, p: real, sum: real)
    requires sum > 0.0
    ensures Proportion(total, x + p, sum) == Proportion(total, x, sum) + Proportion(total, p, sum)
  {
  }

  lemma TargetFollows(total: int, x: real, sum: real)
    requires sum > 0.0
    ensures var error := Target(total, x, sum) as real - Proportion(total, x, sum);
      -0.5 - QUOTIENT_ERROR <= error <= 0.5 + QUOTIENT_ERROR
  {
  }

  /** Rounding what is cut to so many steps a unit falls short by less than half a unit, by a step at least. */
  lemma RoundingOfSteps(m: nat)
    ensures var x := m as real / QUOTIENT_STEPS;
      -0.5 + 2.0 * QUOTIENT_ERROR <= Round(x) as real - x <= 0.5
  {
    var x := m as real / QUOTIENT_STEPS;
    var r := Round(x);
    assert x + 0.5 < r as real + 1.0;
    assert m < 100000000000000 * r + 50000000000000;
  }

  lemma TargetFollowsClosely(total: nat, x: real, sum: real)
    requires sum > 0.0 && x >= 0.0
    ensures -0.5 + QUOTIENT_ERROR < Target(total, x, sum) as real - Proportion(total, x, sum) <= 0.5 + QUOTIENT_ERROR
  {
    assert total as real * x >= 0.0;
    assert total as real * x / sum >= 0.0;
    QuotientIsClose(total as real * x, sum);
    RoundingOfSteps(Round(total as real * x / sum * QUOTIENT_STEPS));
  }

  lemma StepsStayWithinAUnit(a: int, b: int, x: real, y: real, step: real)
    requires -0.5 + QUOTIENT_ERROR < a as real - x <= 0.5 + QUOTIENT_ERROR
    requires -0.5 + QUOTIENT_ERROR < b as real - y <= 0.5 + QUOTIENT_ERROR
    requires y == x + step
    ensures -1.0 < (b - a) as real - step < 1.0
  {
  }

  lemma StepFollowsItsPart(total: nat, part: real, x: real, y: real, sum: real)
    requires sum > 0.0 && x >= 0.0 && y >= 0.0 && y == x + part
    ensures -1.0 < (Target(total, y, sum) - Target(total, x, sum)) as real - Proportion(total, part, sum) < 1.0
  {
    hide Target, Proportion;
    TargetFollowsClosely(total, x, sum);
    TargetFollowsClosely(total, y, sum);
    ProportionsAdd(total, x, part, sum);
    StepsStayWithinAUnit(Target(total, x, sum), Target(total, y, sum), Proportion(total, x, sum),
                         Proportion(total, y, sum), Proportion(total, part, sum));
  }

  lemma PrefixesStep(parts: seq<real>, i: nat)
    requires AllPositive(parts) && i < |parts|
    ensures Total(parts[..i]) >= 0.0 && Total(parts[..i + 1]) >= 0.0
    ensures Total(parts[..i + 1]) == Total(parts[..i]) + parts[i]
  {
    TotalGrows(parts, i, i + 1);
    TotalOfNext(parts, i);
  }

  /** And so every share is strictly within one unit of its exact proportion, whatever the quotient's digits. */
  lemma SharesStayWithinAUnit(total: nat, parts: seq<real>, i: nat)
    requires AllPositive(parts) && Total(parts) > 0.0 && i < |parts|
    ensures -1.0 < Shares(total, parts, Total(parts))[i] as real - Proportion(total, parts[i], Total(parts)) < 1.0
  {
    hide Target, Proportion, Total, AllPositive;
    PrefixesStep(parts, i);
    StepFollowsItsPart(total, parts[i], Total(parts[..i]), Total(parts[..i + 1]), Total(parts));
  }

  lemma {:induction false} ShortfallCountsTheZeroes(s: seq<int>)
    requires forall i :: 0 <= i < |s| ==> s[i] >= 0
    ensures Shortfall(s) == Below(s)
  {
    if s != [] {
      ShortfallCountsTheZeroes(s[..|s| - 1]);
    }
  }

  /**
   After the floor: a raised share is still strictly within one unit of its
   proportion, no other share has risen, and between them the others have given
   up exactly one unit for each share raised.
   */
  lemma FloorStaysNearProportion(total: int, parts: seq<real>)
    requires parts != [] && AllPositive(parts) && total >= FLOOR * |parts|
    ensures Allocated(total, parts).Ok? && Total(parts) > 0.0
    ensures var r, sum := Allocated(total, parts).value, Total(parts);
      var s := Shares(total, parts, sum);
      && |r| == |s| == |parts|
      && (forall i :: 0 <= i < |s| && s[i] < FLOOR ==>
            r[i] == FLOOR && -1.0 < r[i] as real - Proportion(total, parts[i], sum) < 1.0)
      && (forall i :: 0 <= i < |s| && s[i] >= FLOOR ==> FLOOR <= r[i] <= s[i])
      && Sum(Lifted(s)) - Sum(r) == Below(s)
  {
    SharesAddUp(total, parts);
    AllocationIsExact(total, parts);
    var sum := Total(parts);
    var s := Shares(total, parts, sum);
    RaisingIsExact(s);
    LiftingCosts(s);
    ShortfallCountsTheZeroes(s);
    forall i | 0 <= i < |s| && s[i] < FLOOR
      ensures -1.0 < FLOOR as real - Proportion(total, parts[i], sum) < 1.0
    {
      SharesStayWithinAUnit(total, parts, i);
      ProportionIsPositive(total, parts[i], sum);
    }
  }

  lemma ProportionIsPositive(total: int, part: real, sum: real)
    requires total > 0 && part > 0.0 && sum > 0.0
    ensures Proportion(total, part, sum) > 0.0
  {
  }

  lemma {:induction false} NothingToRaise(s: seq<int>)
    requires AtLeastFloor(s)
    ensures Lifted(s) == s && Shortfall(s) == 0
  {
    if s != [] {
      NothingToRaise(s[..|s| - 1]);
    }
  }

  /** With no conversion, every leg keeps its own amount and the floor changes nothing. */
  lemma NoConversionIsTheIdentity(amounts: seq<int>, parts: seq<real>)
    requires |parts| == |amounts| && AtLeastFloor(amounts)
    requires forall i :: 0 <= i < |parts| ==> parts[i] == amounts[i] as real
    ensures Allocated(Sum(amounts), parts) == Ok(amounts)
  {
    if parts != [] {
      var total := Sum(amounts);
      TotalOfWhole(parts, amounts);
      AUnitEach(amounts);
      SharesAddUp(total, parts);
      var s := Shares(total, parts, Total(parts));
      forall i | 0 <= i < |s| ensures s[i] == amounts[i] {
        WholeTarget(amounts, parts, i);
        WholeTarget(amounts, parts, i + 1);
        SumOfNext(amounts, i);
      }
      assert s == amounts;
      NothingToRaise(amounts);
    }
  }

  lemma WholeTarget(amounts: seq<int>, parts: seq<real>, k: nat)
    requires |parts| == |amounts| && k <= |parts|
    requires forall i :: 0 <= i < |parts| ==> parts[i] == amounts[i] as real
    requires Total(parts) == Sum(amounts) as real > 0.0
    ensures Target(Sum(amounts), Total(parts[..k]), Total(parts)) == Sum(amounts[..k])
  {
    TotalOfWhole(parts[..k], amounts[..k]);
    TargetAtWhole(Sum(amounts), Sum(amounts[..k]), Total(parts), Total(parts[..k]));
  }

  lemma TargetAtWhole(m: int, n: int, x: real, y: real)
    requires x == m as real && y == n as real && x > 0.0
    ensures Target(m, y, x) == n
  {
    ProductsAgree(m, n, x, y);
    TargetOfWhole(m, n, y, x);
  }

  lemma ProductsAgree(m: int, n: int, x: real, y: real)
    requires x == m as real && y == n as real
    ensures m as real * y == n as real * x
  {
  }

  lemma TargetOfWhole(total: int, n: int, x: real, sum: real)
    requires sum > 0.0 && total as real * x == n as real * sum
    ensures Target(total, x, sum) == n
  {
    QuotientOfMultiple(n, total as real * x, sum);
    RoundOfWhole(n);
  }
}
