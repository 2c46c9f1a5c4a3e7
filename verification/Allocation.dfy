/**
 Splitting a converted total across the legs of one journal entry
 (backend/internal/accounting/posting.go, `allocate` and `raiseToFloor`).

 Shares and totals are whole ledger units; the parts they follow are amounts of
 any precision, in ledger units too.
 */
module Allocation {
  import opened Wrappers
  import opened Rounding
  import opened Sums

  datatype AllocationError = EmptyPart | TotalTooSmall

  /** The smallest amount a posted line can carry. */
  const FLOOR := 1

  predicate AllPositive(parts: seq<real>) {
    forall i :: 0 <= i < |parts| ==> parts[i] > 0.0
  }

  // ---------------------------------------------------------------------
  // Specification
  // ---------------------------------------------------------------------

  /** What the first parts may have taken between them, once `cumulative` of `sum` is reached. */
  function Target(total: int, cumulative: real, sum: real): int
    requires sum > 0.0
  {
    Round(Quotient(total as real * cumulative, sum))
  }

  /** Each share is the step between two successive cumulative targets. */
  function Shares(total: int, parts: seq<real>, sum: real): (s: seq<int>)
    requires sum > 0.0
    ensures |s| == |parts|
  {
    seq(|parts|, i requires 0 <= i < |parts| =>
      Target(total, Total(parts[..i + 1]), sum) - Target(total, Total(parts[..i]), sum))
  }

  /** Every share below the floor, put on it. */
  function Lifted(s: seq<int>): (r: seq<int>)
    ensures |r| == |s|
  {
    seq(|s|, i requires 0 <= i < |s| => if s[i] < FLOOR then FLOOR else s[i])
  }

  /** What lifting costs. */
  function Shortfall(s: seq<int>): (d: nat) {
    if s == [] then 0
    else Shortfall(s[..|s| - 1]) + if s[|s| - 1] < FLOOR then FLOOR - s[|s| - 1] else 0
  }

  /** The first of the largest shares. */
  function Largest(s: seq<int>): (l: nat)
    requires s != []
    ensures l < |s|
    ensures forall i :: 0 <= i < |s| ==> s[i] <= s[l]
    ensures forall i :: 0 <= i < l ==> s[i] < s[l]
  {
    if |s| == 1 then 0 else
      var l := Largest(s[..|s| - 1]);
      assert forall i :: 0 <= i < |s| - 1 ==> s[..|s| - 1][i] == s[i];
      if s[|s| - 1] > s[l] then |s| - 1 else l
  }

  /** What one round takes from the largest share. */
  function Taken(s: seq<int>, deficit: int): int
    requires s != []
  {
    var spare := s[Largest(s)] - FLOOR;
    if spare > deficit then deficit else spare
  }

  /** One round of paying: the largest share gives what it can. */
  function Paid(s: seq<int>, deficit: int): (r: seq<int>)
    requires s != []
    ensures |r| == |s|
  {
    s[Largest(s) := s[Largest(s)] - Taken(s, deficit)]
  }

  /** Another round is due, and somebody can pay in it. */
  predicate CanPay(s: seq<int>, deficit: int) {
    deficit > 0 && s != [] && s[Largest(s)] > FLOOR
  }

  /** The shares after all rounds. */
  function Repaid(s: seq<int>, deficit: nat): (r: seq<int>)
    ensures |r| == |s|
    decreases deficit
  {
    if CanPay(s, deficit) then Repaid(Paid(s, deficit), deficit - Taken(s, deficit)) else s
  }

  /** What no share was able to pay: positive exactly when the early return is taken. */
  function Unpaid(s: seq<int>, deficit: nat): nat
    decreases deficit
  {
    if CanPay(s, deficit) then Unpaid(Paid(s, deficit), deficit - Taken(s, deficit)) else deficit
  }

  /** How many rounds are run. */
  function Rounds(s: seq<int>, deficit: nat): nat
    decreases deficit
  {
    if CanPay(s, deficit) then 1 + Rounds(Paid(s, deficit), deficit - Taken(s, deficit)) else 0
  }

  function Raised(s: seq<int>): (r: seq<int>)
    ensures |r| == |s|
  {
    Repaid(Lifted(s), Shortfall(s))
  }

  function Allocated(total: int, parts: seq<real>): (r: Result<seq<int>, AllocationError>) {
    if parts == [] then Ok([])
    else if !AllPositive(parts) then Err(EmptyPart)
    else if total < FLOOR * |parts| then Err(TotalTooSmall)
    else
      TotalGrows(parts, 0, |parts|);
      assert parts[..|parts|] == parts;
      Ok(Raised(Shares(total, parts, Total(parts))))
  }

  // ---------------------------------------------------------------------
  // The algorithms
  // ---------------------------------------------------------------------

  /** `raiseToFloor`, in place. */
  method RaiseToFloor(out: array<int>) returns (ghost rounds: nat)
    modifies out
    ensures out[..] == Raised(old(out[..]))
    ensures rounds == Rounds(Lifted(old(out[..])), Shortfall(old(out[..])))
  {
    var deficit := LiftToFloor(out);
    rounds := TakeFromLargest(out, deficit);
  }

  /** Its first loop: lift what is below the floor, and count the cost. */
  method LiftToFloor(out: array<int>) returns (deficit: nat)
    modifies out
    ensures out[..] == Lifted(old(out[..]))
    ensures deficit == Shortfall(old(out[..]))
  {
    ghost var was := out[..];
    deficit := 0;
    var i := 0;
    while i < out.Length
      invariant 0 <= i <= out.Length
      invariant forall k :: 0 <= k < i ==> out[k] == Lifted(was)[k]
      invariant forall k :: i <= k < out.Length ==> out[k] == was[k]
      invariant deficit == Shortfall(was[..i])
    {
      assert was[..i + 1][..i] == was[..i];
      var short := FLOOR - out[i];
      if short > 0 {
        deficit := deficit + short;
        out[i] := FLOOR;
      }
      i := i + 1;
    }
    assert was[..i] == was;
  }

  /** Its second loop: the largest shares pay, until the cost is met or nobody can. */
  method TakeFromLargest(out: array<int>, cost: nat) returns (ghost rounds: nat)
    requires out.Length == 0 ==> cost == 0
    modifies out
    ensures out[..] == Repaid(old(out[..]), cost)
    ensures rounds == Rounds(old(out[..]), cost)
  {
    var deficit := cost;
    rounds := 0;
    while deficit > 0
      invariant 0 <= deficit <= cost
      invariant Repaid(out[..], deficit) == Repaid(old(out[..]), cost)
      invariant rounds + Rounds(out[..], deficit) == Rounds(old(out[..]), cost)
      decreases deficit
    {
      var largest := LargestIndex(out);
      var spare := out[largest] - FLOOR;
      if spare <= 0 {
        return;
      }
      if spare > deficit {
        spare := deficit;
      }
      ghost var before := out[..];
      out[largest] := out[largest] - spare;
      assert out[..] == Paid(before, deficit);
      deficit := deficit - spare;
      rounds := rounds + 1;
    }
  }

  method LargestIndex(out: array<int>) returns (largest: nat)
    requires out.Length > 0
    ensures largest == Largest(out[..])
  {
    largest := 0;
    var i := 1;
    while i < out.Length
      invariant 1 <= i <= out.Length
      invariant largest == Largest(out[..i])
    {
      assert out[..i + 1][..i] == out[..i];
      if out[i] > out[largest] {
        largest := i;
      }
      i := i + 1;
    }
    assert out[..i] == out[..];
  }

  /** `allocate`. */
  method Allocate(total: int, parts: seq<real>) returns (r: Result<seq<int>, AllocationError>)
    ensures r == Allocated(total, parts)
  {
    if |parts| == 0 {
      return Ok([]);
    }
    var sum := 0.0;
    var i := 0;
    while i < |parts|
      invariant 0 <= i <= |parts|
      invariant forall k :: 0 <= k < i ==> parts[k] > 0.0
      invariant sum == Total(parts[..i])
    {
      if parts[i] <= 0.0 {
        return Err(EmptyPart);
      }
      TotalOfNext(parts, i);
      sum := sum + parts[i];
      i := i + 1;
    }
    assert parts[..i] == parts;
    TotalGrows(parts, 0, |parts|);
    if total < FLOOR * |parts| {
      return Err(TotalTooSmall);
    }

    var out := ProportionalShares(total, parts, sum);
    ghost var rounds := RaiseToFloor(out);
    r := Ok(out[..]);
  }

  /** The proportional half of `allocate`: one pass over the cumulative targets. */
  method ProportionalShares(total: int, parts: seq<real>, sum: real) returns (out: array<int>)
    requires sum > 0.0
    ensures fresh(out) && out[..] == Shares(total, parts, sum)
  {
    out := new int[|parts|];
    var givenOut, cumulative := 0, 0.0;
    NothingTargeted(total, sum);
    var i := 0;
    while i < |parts|
      invariant 0 <= i <= |parts| == out.Length
      invariant cumulative == Total(parts[..i])
      invariant givenOut == Target(total, cumulative, sum)
      invariant forall k :: 0 <= k < i ==> out[k] == Shares(total, parts, sum)[k]
    {
      TotalOfNext(parts, i);
      cumulative := cumulative + parts[i];
      var target := Target(total, cumulative, sum);
      out[i] := target - givenOut;
      givenOut := givenOut + out[i];
      i := i + 1;
    }
  }

  lemma NothingTargeted(total: int, sum: real)
    requires sum > 0.0
    ensures Target(total, 0.0, sum) == 0
  {
  }
}
