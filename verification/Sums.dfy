/** Running totals, built from the front as the source's loops build them. */
module Sums {

  function Sum(s: seq<int>): int {
    if s == [] then 0 else Sum(s[..|s| - 1]) + s[|s| - 1]
  }

  function Total(s: seq<real>): real {
    if s == [] then 0.0 else Total(s[..|s| - 1]) + s[|s| - 1]
  }

  lemma SumOfNext(s: seq<int>, i: nat)
    requires i < |s|
    ensures Sum(s[..i + 1]) == Sum(s[..i]) + s[i]
  {
    assert s[..i + 1][..i] == s[..i];
  }

  lemma TotalOfNext(s: seq<real>, i: nat)
    requires i < |s|
    ensures Total(s[..i + 1]) == Total(s[..i]) + s[i]
  {
    assert s[..i + 1][..i] == s[..i];
  }

  lemma {:induction false} SumOfAppend(s: seq<int>, t: seq<int>)
    ensures Sum(s + t) == Sum(s) + Sum(t)
  {
    if t == [] {
      assert s + t == s;
    } else {
      assert (s + t)[..|s + t| - 1] == s + t[..|t| - 1];
      SumOfAppend(s, t[..|t| - 1]);
    }
  }

  lemma {:induction false} SumOfUpdate(s: seq<int>, i: nat, v: int)
    requires i < |s|
    ensures Sum(s[i := v]) == Sum(s) - s[i] + v
  {
    var n := |s| - 1;
    if i == n {
      assert s[i := v][..n] == s[..n];
    } else {
      assert s[i := v][..n] == s[..n][i := v];
      SumOfUpdate(s[..n], i, v);
    }
  }

  lemma {:induction false} SumOfConstant(s: seq<int>, c: int)
    requires forall i :: 0 <= i < |s| ==> s[i] == c
    ensures Sum(s) == c * |s|
  {
    if s != [] {
      SumOfConstant(s[..|s| - 1], c);
    }
  }

  lemma {:induction false} SumIsMonotone(s: seq<int>, t: seq<int>)
    requires |s| == |t| && forall i :: 0 <= i < |s| ==> s[i] <= t[i]
    ensures Sum(s) <= Sum(t)
  {
    if s != [] {
      SumIsMonotone(s[..|s| - 1], t[..|t| - 1]);
    }
  }

  /** Totals of positive amounts only grow along the list. */
  lemma {:induction false} TotalGrows(s: seq<real>, i: nat, j: nat)
    requires i <= j <= |s| && forall k :: 0 <= k < |s| ==> s[k] > 0.0
    ensures 0.0 <= Total(s[..i]) <= Total(s[..j])
    ensures i < j ==> Total(s[..i]) < Total(s[..j])
  {
    if i < j {
      TotalGrows(s, i, j - 1);
      TotalOfNext(s, j - 1);
    } else if i > 0 {
      TotalGrows(s, i - 1, i);
    }
  }

  lemma {:induction false} TotalOfWhole(s: seq<real>, t: seq<int>)
    requires |s| == |t| && forall i :: 0 <= i < |s| ==> s[i] == t[i] as real
    ensures Total(s) == Sum(t) as real
  {
    if s != [] {
      TotalOfWhole(s[..|s| - 1], t[..|t| - 1]);
    }
  }
}
