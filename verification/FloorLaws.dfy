/**
 What the floor does to an allocation: who pays for it and how much, and exactly
 when it moves a share by less than a unit, as the source says it does.
 */
module FloorLaws {
  import opened Wrappers
  import opened Rounding
  import opened Sums
  import opened Allocation
  import opened AllocationLaws

  // ---------------------------------------------------------------------
  // Who pays
  // ---------------------------------------------------------------------

  /** What those asked before `i`, among the first `k`, have to spare. */
  ghost function SpareAhead(s: seq<int>, i: nat, k: nat): int
    requires i < |s| && k <= |s|
  {
    if k == 0 then 0
    else SpareAhead(s, i, k - 1) + if k - 1 != i && Before(s, k - 1, i) then s[k - 1] - FLOOR else 0
  }

  /** What `i` pays towards a deficit: what those ahead cannot, up to what it has to spare. */
  ghost function Pays(s: seq<int>, deficit: int, i: nat): int
    requires i < |s|
  {
    var rest := deficit - SpareAhead(s, i, |s|);
    if rest <= 0 then 0 else if rest < s[i] - FLOOR then rest else s[i] - FLOOR
  }

  lemma {:induction false} NobodyIsAheadOfTheLargest(s: seq<int>, k: nat)
    requires s != [] && k <= |s|
    ensures SpareAhead(s, Largest(s), k) == 0
  {
    if k > 0 {
      NobodyIsAheadOfTheLargest(s, k - 1);
    }
  }

  lemma {:induction false} SpareIsNotNegative(s: seq<int>, i: nat, k: nat)
    requires AtLeastFloor(s) && i < |s| && k <= |s|
    ensures SpareAhead(s, i, k) >= 0
  {
    if k > 0 {
      SpareIsNotNegative(s, i, k - 1);
    }
  }

  /** Once the largest has given all it has, everyone else has that much less ahead of them. */
  lemma {:induction false} EmptyingTheLargest(s: seq<int>, i: nat, k: nat)
    requires AtLeastFloor(s) && s != [] && i < |s| && k <= |s| && i != Largest(s)
    ensures SpareAhead(s, i, k)
         == SpareAhead(s[Largest(s) := FLOOR], i, k) + if k > Largest(s) then s[Largest(s)] - FLOOR else 0
  {
    if k > 0 {
      EmptyingTheLargest(s, i, k - 1);
    }
  }

  lemma TheLargestIsAhead(s: seq<int>, i: nat, k: nat)
    requires AtLeastFloor(s) && s != [] && i < |s| && Largest(s) < k <= |s| && i != Largest(s)
    ensures SpareAhead(s, i, k) >= s[Largest(s)] - FLOOR
  {
    EmptyingTheLargest(s, i, k);
    var rest := s[Largest(s) := FLOOR];
    SpareIsNotNegative(rest, i, k);
  }

  /** The repair in one step: everybody pays what those ahead of them cannot. */
  lemma {:induction false} RepaidInOneStep(s: seq<int>, deficit: nat, i: nat)
    requires AtLeastFloor(s) && i < |s|
    ensures Repaid(s, deficit)[i] == s[i] - Pays(s, deficit, i)
    decreases deficit
  {
    SpareIsNotNegative(s, i, |s|);
    if CanPay(s, deficit) {
      var l, t := Largest(s), Taken(s, deficit);
      OneRound(s, deficit);
      RepaidInOneStep(Paid(s, deficit), deficit - t, i);
      NobodyIsAheadOfTheLargest(s, |s|);
      if i != l {
        TheLargestIsAhead(s, i, |s|);
        EmptyingTheLargest(s, i, |s|);
      }
      if t < deficit {
        assert Paid(s, deficit) == s[l := FLOOR];
      }
      SpareIsNotNegative(Paid(s, deficit), i, |s|);
    } else if deficit > 0 {
      assert s[i] <= s[Largest(s)];
    }
  }

  // ---------------------------------------------------------------------
  // By how much
  // ---------------------------------------------------------------------

  /** No share is moved by more than one unit. */
  ghost predicate MovesAtMostOne(r: seq<int>, s: seq<int>)
    requires |r| == |s|
  {
    forall i :: 0 <= i < |s| ==> -1 <= r[i] - s[i] <= 1
  }

  /** At most one share to raise, or nobody with more than one unit to spare. */
  ghost predicate CheapFloor(s: seq<int>) {
    Below(s) <= 1 || forall i :: 0 <= i < |s| ==> s[i] <= FLOOR + 1
  }

  lemma FirstToPayLosesTwo(t: seq<int>, d: nat)
    requires t != [] && AtLeastFloor(t) && d >= 2 && t[Largest(t)] > FLOOR + 1
    ensures Repaid(t, d)[Largest(t)] <= t[Largest(t)] - 2
  {
    NobodyIsAheadOfTheLargest(t, |t|);
    RepaidInOneStep(t, d, Largest(t));
  }

  /** What an accepted allocation is made of. */
  lemma AllocationShape(total: int, parts: seq<real>)
    requires parts != [] && Allocated(total, parts).Ok?
    ensures AllPositive(parts) && total >= |parts| && Total(parts) > 0.0
    ensures var s := Shares(total, parts, Total(parts));
      && |s| == |parts| && Sum(s) == total
      && (forall i :: 0 <= i < |s| ==> s[i] >= 0)
      && Shortfall(s) == Below(s)
      && Allocated(total, parts).value == Raised(s)
  {
    hide Raised, Shares;
    AllocationIsExact(total, parts);
    SharesAddUp(total, parts);
    ShortfallCountsTheZeroes(Shares(total, parts, Total(parts)));
  }

  /**
   Measured from the rounded shares: the floor moves every share by less than a
   unit exactly when it has nothing to raise, and by at most one exactly when one
   share is to be raised at most, or nobody has more than one to spare.
   */
  lemma FloorMovesSharesByAtMostOneUnitIff(total: int, parts: seq<real>)
    requires parts != [] && Allocated(total, parts).Ok?
    ensures Total(parts) > 0.0
    ensures var (s, r) := (Shares(total, parts, Total(parts)), Allocated(total, parts).value);
      && |r| == |s|
      && (r == s <==> AtLeastFloor(s))
      && (MovesAtMostOne(r, s) <==> CheapFloor(s))
  {
    hide Shares, Raised;
    AllocationShape(total, parts);
    MovesAtMostOneIff(Shares(total, parts, Total(parts)));
  }

  lemma MovesAtMostOneIff(s: seq<int>)
    requires s != [] && Sum(s) >= |s| && Shortfall(s) == Below(s) && forall i :: 0 <= i < |s| ==> s[i] >= 0
    ensures Raised(s) == s <==> AtLeastFloor(s)
    ensures MovesAtMostOne(Raised(s), s) <==> CheapFloor(s)
  {
    hide Repaid;
    var t := Lifted(s);
    LiftingCosts(s);
    RaisingIsExact(s);
    RepaidInOneStep(t, Shortfall(s), Largest(t));
    forall i | 0 <= i < |s| ensures Raised(s)[i] >= t[i] - Shortfall(s) {
      OneFallIsTheWholeFall(Raised(s), t, i);
    }
    if AtLeastFloor(s) {
      NothingToRaise(s);
      NothingFellNothingMoved(Raised(s), s);
    }
    if Below(s) > 1 && t[Largest(t)] > FLOOR + 1 {
      FirstToPayLosesTwo(t, Shortfall(s));
    }
  }

  // ---------------------------------------------------------------------
  // From the exact proportion
  // ---------------------------------------------------------------------

  /** A share within less than a unit of its exact proportion. */
  ghost predicate NearProportion(share: int, total: int, part: real, sum: real)
    requires sum > 0.0
  {
    -1.0 < share as real - Proportion(total, part, sum) < 1.0
  }

  /** A share that pays nothing for the floor, or had been rounded up. */
  ghost predicate CanAffordTheFloor(s: seq<int>, i: nat, proportion: real)
    requires i < |s|
  {
    Pays(Lifted(s), Below(s), i) > 0 ==> s[i] as real > proportion
  }

  /**
   Measured from the exact proportions: the floor leaves every share within less
   than a unit exactly when it costs nobody two units and everybody who pays had
   been rounded up.
   */
  lemma FloorStaysWithinAUnitIff(total: int, parts: seq<real>)
    requires parts != [] && Allocated(total, parts).Ok?
    ensures var sum := Total(parts);
      && sum > 0.0 && |Allocated(total, parts).value| == |parts|
      && var (s, r) := (Shares(total, parts, sum), Allocated(total, parts).value);
      ((forall i :: 0 <= i < |parts| ==> NearProportion(r[i], total, parts[i], sum)) <==>
        CheapFloor(s) && forall i :: 0 <= i < |parts| ==> CanAffordTheFloor(s, i, Proportion(total, parts[i], sum)))
  {
    hide Shares, Raised, Proportion, Below, CheapFloor, CanAffordTheFloor, Allocated, NearProportion, Total;
    AllocationShape(total, parts);
    var (s, r, sum) := (Shares(total, parts, Total(parts)), Allocated(total, parts).value, Total(parts));
    forall i | 0 <= i < |parts|
      ensures NearProportion(r[i], total, parts[i], sum) ==> r[i] >= s[i] - 1
      ensures CheapFloor(s) ==>
        (NearProportion(r[i], total, parts[i], sum) <==> CanAffordTheFloor(s, i, Proportion(total, parts[i], sum)))
    {
      SharesStayWithinAUnit(total, parts, i);
      OneShareStaysNearIff(s, i, total, parts[i], sum);
    }
    if !CheapFloor(s) {
      var l := SomebodyPaysTwo(s);
      assert !NearProportion(r[l], total, parts[l], sum);
    }
  }

  lemma OneShareStaysNearIff(s: seq<int>, i: nat, total: int, part: real, sum: real)
    requires i < |s| && Sum(s) >= |s| && Shortfall(s) == Below(s) && forall k :: 0 <= k < |s| ==> s[k] >= 0
    requires total > 0 && part > 0.0 && sum > 0.0
    requires -1.0 < s[i] as real - Proportion(total, part, sum) < 1.0
    ensures NearProportion(Raised(s)[i], total, part, sum) ==> Raised(s)[i] >= s[i] - 1
    ensures CheapFloor(s) ==>
      (NearProportion(Raised(s)[i], total, part, sum) <==> CanAffordTheFloor(s, i, Proportion(total, part, sum)))
  {
    hide Repaid, Pays, Proportion;
    LiftingCosts(s);
    RepaidInOneStep(Lifted(s), Shortfall(s), i);
    MovesAtMostOneIff(s);
    RaisingIsExact(s);
    ProportionIsPositive(total, part, sum);
    OnlySpareIsPaid(Lifted(s), Shortfall(s), i);
  }

  lemma OnlySpareIsPaid(s: seq<int>, deficit: nat, i: nat)
    requires AtLeastFloor(s) && i < |s|
    ensures 0 <= Pays(s, deficit, i) <= s[i] - FLOOR
  {
  }

  lemma SomebodyPaysTwo(s: seq<int>) returns (l: nat)
    requires s != [] && !CheapFloor(s) && Shortfall(s) == Below(s)
    ensures l < |s| && s[l] >= FLOOR && Raised(s)[l] <= s[l] - 2
  {
    hide Repaid;
    LiftingCosts(s);
    l := Largest(Lifted(s));
    var k :| 0 <= k < |s| && s[k] > FLOOR + 1;
    assert Lifted(s)[k] == s[k];
    FirstToPayLosesTwo(Lifted(s), Shortfall(s));
  }

  // ---------------------------------------------------------------------
  // A case
  // ---------------------------------------------------------------------

  /** One leg of ten units against three of a tenth of a hundredth: the total gives them nothing before the floor. */
  lemma SmallLegsRoundToNothing()
    ensures Total([1000.0, 0.1, 0.1, 0.1]) == 1000.3
    ensures Shares(500, [1000.0, 0.1, 0.1, 0.1], 1000.3) == [500, 0, 0, 0]
  {
    var parts := [1000.0, 0.1, 0.1, 0.1];
    assert parts[..0] == [] && parts[..1] == [1000.0] && parts[..2] == [1000.0, 0.1]
      && parts[..3] == [1000.0, 0.1, 0.1];
    assert parts[..4] == parts;
    TotalOfNext(parts, 0);
    TotalOfNext(parts, 1);
    TotalOfNext(parts, 2);
    TotalOfNext(parts, 3);
    NothingTargeted(500, 1000.3);
    AllTakenByTheFirst(1000.0);
    AllTakenByTheFirst(1000.1);
    AllTakenByTheFirst(1000.2);
    AllTakenByTheFirst(1000.3);
  }

  lemma AllTakenByTheFirst(x: real)
    requires 1000.0 <= x <= 1000.3
    ensures Target(500, x, 1000.3) == 500
  {
    QuotientIsClose(500.0 * x, 1000.3);
    assert 499.6 <= 500.0 * x / 1000.3 <= 500.0;
  }

  /**
   The case the source's own comment misses, at the real entry point: three small
   legs are raised, and the large one pays three units, leaving it almost three
   below its exact proportion.
   */
  lemma FloorCanCostOneShareSeveralUnits()
    ensures Allocated(500, [1000.0, 0.1, 0.1, 0.1]) == Ok([497, 1, 1, 1])
    ensures 497.0 - Proportion(500, 1000.0, 1000.3) < -2.8
  {
    hide Shares, Raised;
    SmallLegsRoundToNothing();
    TheLargePaysThree();
  }

  lemma TheLargePaysThree()
    ensures Raised([500, 0, 0, 0]) == [497, 1, 1, 1]
  {
    hide Repaid;
    var s := [500, 0, 0, 0];
    assert s[..3] == [500, 0, 0] && s[..3][..2] == [500, 0] && [500, 0][..1] == [500] && [500][..0] == [];
    assert Shortfall(s) == 3 && Lifted(s) == [500, 1, 1, 1];
    PayingFromTheFirst([500, 1, 1, 1], 3);
  }

  /** Where the first share is larger than any other and can meet the cost, it alone pays. */
  lemma PayingFromTheFirst(s: seq<int>, deficit: nat)
    requires s != [] && s[0] > deficit && s[0] > FLOOR && forall i :: 0 < i < |s| ==> s[i] < s[0]
    ensures Repaid(s, deficit) == s[0 := s[0] - deficit]
  {
    assert Largest(s) == 0;
  }
}
