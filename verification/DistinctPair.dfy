// The cheapest way to place two different repairs at two different positions: the value form used
// by the search and the index form used when symbols are written.
module DistinctPair {
  import opened Numeric

  // argmin after the entry at k has been replaced by infinity.
  function ArgMinExcept(xs: seq<real>, k: nat): (r: nat)
    requires |xs| >= 2 && k < |xs|
    ensures r < |xs| && r != k
    ensures forall i :: 0 <= i < |xs| && i != k ==> xs[r] <= xs[i]
    ensures forall i :: 0 <= i < r && i != k ==> xs[r] < xs[i]
  {
    var n := |xs| - 1;
    assert forall i :: 0 <= i < n ==> xs[..n][i] == xs[i];
    if k == n then ArgMin(xs[..n])
    else if n == 1 then 1
    else
      var r := ArgMinExcept(xs[..n], k);
      if xs[n] < xs[r] then n else r
  }

  // numpy's partition(kth = 1)[1]: the second order statistic, multiplicities counted.
  function SecondSmallest(xs: seq<real>): (m: real)
    requires |xs| >= 2
    ensures exists i, j :: 0 <= i < |xs| && 0 <= j < |xs| && i != j && xs[j] == m && xs[i] <= m
    ensures forall i, j :: 0 <= i < |xs| && 0 <= j < |xs| && i != j ==> m <= Max(xs[i], xs[j])
  {
    xs[ArgMinExcept(xs, ArgMin(xs))]
  }

  // Minimum left[i] + right[j] subject to i != j, from two argmins and two second minima.
  function PairCost(left: seq<real>, right: seq<real>): real
    requires |left| == |right| >= 2
  {
    var i, j := ArgMin(left), ArgMin(right);
    if i == j
    then Min(left[i] + SecondSmallest(right), SecondSmallest(left) + right[j])
    else left[i] + right[j]
  }

  lemma PairCostIsLeast(left: seq<real>, right: seq<real>, i: nat, j: nat)
    requires |left| == |right| >= 2 && i < |left| && j < |right| && i != j
    ensures PairCost(left, right) <= left[i] + right[j]
  {
    var a, b := ArgMin(left), ArgMin(right);
    if a == b {
      if i == a {
        assert SecondSmallest(right) <= right[j];
      } else {
        assert SecondSmallest(left) <= left[i];
      }
    }
  }

  // The index form; ties between the two repairs keep the left argmin.
  function PairIndices(left: seq<real>, right: seq<real>): (p: (nat, nat))
    requires |left| == |right| >= 2
    ensures p.0 < |left| && p.1 < |right| && p.0 != p.1
    ensures left[p.0] + right[p.1] == PairCost(left, right)
  {
    var i, j := ArgMin(left), ArgMin(right);
    if i == j then
      var i2, j2 := ArgMinExcept(left, i), ArgMinExcept(right, j);
      if left[i] + right[j2] <= left[i2] + right[j] then (i, j2) else (i2, j)
    else (i, j)
  }
}
