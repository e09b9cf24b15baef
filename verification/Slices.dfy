// Sequences laid end to end; slices of slices and of concatenations.
module Slices {

  function Flatten<T>(xss: seq<seq<T>>): seq<T> {
    if |xss| == 0 then [] else Flatten(xss[..|xss| - 1]) + xss[|xss| - 1]
  }

  lemma {:induction false} FlattenConcat<T>(xss: seq<seq<T>>, yss: seq<seq<T>>)
    ensures Flatten(xss + yss) == Flatten(xss) + Flatten(yss)
    decreases |yss|
  {
    if yss == [] {
      assert xss + yss == xss;
    } else {
      FlattenConcat(xss, yss[..|yss| - 1]);
      assert (xss + yss)[..|xss + yss| - 1] == xss + yss[..|yss| - 1];
    }
  }

  lemma SliceOfSlice<T>(xs: seq<T>, a: nat, b: nat, lo: nat, hi: nat)
    requires a <= lo <= hi <= b <= |xs|
    ensures xs[a..b][lo - a..hi - a] == xs[lo..hi]
  {
    var mid := xs[a..b];
    forall i | 0 <= i < hi - lo
      ensures mid[lo - a..hi - a][i] == xs[lo..hi][i]
    {
      assert mid[lo - a..hi - a][i] == mid[lo - a + i] == xs[lo + i];
    }
  }

  lemma SliceSplit<T>(xs: seq<T>, a: nat, b: nat, c: nat)
    requires a <= b <= c <= |xs|
    ensures xs[a..c] == xs[a..b] + xs[b..c]
  {
  }

  lemma SliceOfTail<T>(xs: seq<T>, ys: seq<T>, lo: nat, hi: nat)
    requires lo <= hi <= |ys|
    ensures (xs + ys)[|xs| + lo..|xs| + hi] == ys[lo..hi]
  {
  }

  lemma SliceOfHead<T>(xs: seq<T>, ys: seq<T>, lo: nat, hi: nat)
    requires lo <= hi <= |xs|
    ensures (xs + ys)[lo..hi] == xs[lo..hi]
  {
  }

  // Across the seam: the end of xs, then the start of ys.
  lemma SliceAcross<T>(xs: seq<T>, ys: seq<T>, lo: nat, hi: nat)
    requires lo <= |xs| <= hi <= |xs| + |ys|
    ensures (xs + ys)[lo..hi] == xs[lo..|xs|] + ys[0..hi - |xs|]
  {
  }
}
