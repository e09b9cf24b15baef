// Exact sums, first-index minima and the numpy-style reductions the encoders are built from.
module Numeric {

  // ----- sums over sequences of reals -----

  function Sum(xs: seq<real>): real {
    if |xs| == 0 then 0.0 else Sum(xs[..|xs| - 1]) + xs[|xs| - 1]
  }

  lemma SumSnoc(xs: seq<real>, x: real)
    ensures Sum(xs + [x]) == Sum(xs) + x
  {
    assert (xs + [x])[..|xs|] == xs;
  }

  lemma SumPrefix(xs: seq<real>, n: nat)
    requires n < |xs|
    ensures Sum(xs[..n + 1]) == Sum(xs[..n]) + xs[n]
  {
    assert xs[..n + 1] == xs[..n] + [xs[n]];
    SumSnoc(xs[..n], xs[n]);
  }

  lemma {:induction false} SumConcat(xs: seq<real>, ys: seq<real>)
    ensures Sum(xs + ys) == Sum(xs) + Sum(ys)
    decreases |ys|
  {
    if ys == [] {
      assert xs + ys == xs;
    } else {
      var front, last := ys[..|ys| - 1], ys[|ys| - 1];
      SumConcat(xs, front);
      assert xs + ys == (xs + front) + [last];
      SumSnoc(xs + front, last);
    }
  }

  // Pointwise order is order of the sums.
  lemma {:induction false} SumMonotone(xs: seq<real>, ys: seq<real>)
    requires |xs| == |ys|
    requires forall i :: 0 <= i < |xs| ==> xs[i] <= ys[i]
    ensures Sum(xs) <= Sum(ys)
  {
    if xs != [] {
      SumMonotone(xs[..|xs| - 1], ys[..|ys| - 1]);
    }
  }

  lemma {:induction false} SumNonnegative(xs: seq<real>)
    requires forall i :: 0 <= i < |xs| ==> xs[i] >= 0.0
    ensures Sum(xs) >= 0.0
  {
    if xs != [] {
      SumNonnegative(xs[..|xs| - 1]);
    }
  }

  lemma {:induction false} SumPointwise(xs: seq<real>, ys: seq<real>, zs: seq<real>)
    requires |xs| == |ys| == |zs|
    requires forall i :: 0 <= i < |xs| ==> zs[i] == xs[i] + ys[i]
    ensures Sum(zs) == Sum(xs) + Sum(ys)
  {
    if xs != [] {
      SumPointwise(xs[..|xs| - 1], ys[..|ys| - 1], zs[..|zs| - 1]);
    }
  }

  lemma {:induction false} SumUpdate(xs: seq<real>, i: nat, x: real)
    requires i < |xs|
    ensures Sum(xs[i := x]) == Sum(xs) - xs[i] + x
  {
    var n := |xs| - 1;
    if i == n {
      assert xs[i := x][..n] == xs[..n];
    } else {
      SumUpdate(xs[..n], i, x);
      assert xs[i := x][..n] == xs[..n][i := x];
    }
  }

  function Zeros(n: nat): (z: seq<real>)
    ensures |z| == n && forall i :: 0 <= i < n ==> z[i] == 0.0
  {
    seq(n, i => 0.0)
  }

  lemma {:induction false} SumZeros(xs: seq<real>)
    requires forall i :: 0 <= i < |xs| ==> xs[i] == 0.0
    ensures Sum(xs) == 0.0
  {
    if xs != [] {
      SumZeros(xs[..|xs| - 1]);
    }
  }

  lemma {:induction false} SumScaled(xs: seq<real>, ys: seq<real>, c: real)
    requires |xs| == |ys| && forall i :: 0 <= i < |xs| ==> ys[i] == c * xs[i]
    ensures Sum(ys) == c * Sum(xs)
  {
    if xs != [] {
      SumScaled(xs[..|xs| - 1], ys[..|ys| - 1], c);
    }
  }

  // ----- squares -----

  function Square(x: real): real { x * x }

  lemma PositiveProduct(a: real, b: real, s: real)
    requires s == a * b && ((a > 0.0 && b > 0.0) || (a < 0.0 && b < 0.0))
    ensures s > 0.0
  {
  }

  lemma SquareFacts(x: real)
    ensures Square(x) >= 0.0 && (Square(x) == 0.0 <==> x == 0.0)
    ensures Square(-x) == Square(x)
  {
    if x != 0.0 {
      PositiveProduct(x, x, Square(x));
    }
  }

  lemma ProductOrder(a: real, b: real, c: real)
    requires 0.0 <= c && a <= b
    ensures a * c <= b * c
  {
  }

  lemma SquareOrder(a: real, b: real)
    requires 0.0 <= a <= b
    ensures Square(a) <= Square(b)
  {
    ProductOrder(a, b, a);
    ProductOrder(a, b, b);
    assert b * a == a * b;
  }

  // ----- minima -----

  function Min(a: real, b: real): (m: real)
    ensures m <= a && m <= b && (m == a || m == b)
  {
    if a <= b then a else b
  }

  function Max(a: real, b: real): (m: real)
    ensures m >= a && m >= b && (m == a || m == b)
  {
    if a >= b then a else b
  }

  // numpy's argmin: the first index of the smallest entry.
  function ArgMin(xs: seq<real>): (k: nat)
    requires xs != []
    ensures k < |xs|
    ensures forall i :: 0 <= i < |xs| ==> xs[k] <= xs[i]
    ensures forall i :: 0 <= i < k ==> xs[k] < xs[i]
  {
    var n := |xs| - 1;
    if n == 0 then 0
    else
      var k := ArgMin(xs[..n]);
      assert forall i :: 0 <= i < n ==> xs[..n][i] == xs[i];
      if xs[n] < xs[k] then n else k
  }

  function Least(xs: seq<real>): (m: real)
    requires xs != []
    ensures m in xs && forall i :: 0 <= i < |xs| ==> m <= xs[i]
  {
    xs[ArgMin(xs)]
  }

  // ----- integer sums -----

  function SumInt(xs: seq<int>): int {
    if |xs| == 0 then 0 else SumInt(xs[..|xs| - 1]) + xs[|xs| - 1]
  }

  lemma SumIntPrefix(xs: seq<int>, n: nat)
    requires n < |xs|
    ensures SumInt(xs[..n + 1]) == SumInt(xs[..n]) + xs[n]
  {
    assert xs[..n + 1][..n] == xs[..n];
  }

  lemma {:induction false} SumIntConcat(xs: seq<int>, ys: seq<int>)
    ensures SumInt(xs + ys) == SumInt(xs) + SumInt(ys)
    decreases |ys|
  {
    if ys == [] {
      assert xs + ys == xs;
    } else {
      SumIntConcat(xs, ys[..|ys| - 1]);
      assert (xs + ys)[..|xs + ys| - 1] == xs + ys[..|ys| - 1];
    }
  }

  lemma {:induction false} SumIntBounds(xs: seq<int>, lo: int, hi: int)
    requires forall i :: 0 <= i < |xs| ==> lo <= xs[i] <= hi
    ensures lo * |xs| <= SumInt(xs) <= hi * |xs|
  {
    if xs != [] {
      SumIntBounds(xs[..|xs| - 1], lo, hi);
      OneMoreTime(lo, |xs|);
      OneMoreTime(hi, |xs|);
    }
  }

  lemma {:induction false} SumNat(xs: seq<nat>)
    ensures SumInt(xs) >= 0
  {
    if |xs| > 0 { SumNat(xs[..|xs| - 1]); }
  }

  lemma TimesNat(a: nat, b: nat)
    ensures a * b >= 0
  {
  }

  lemma Slide(a: int, b: int, d: int)
    requires a <= b && d >= 0
    ensures a * d <= b * d
  {
  }

  // The row of cell k in a table.
  lemma RowOf(k: nat, rows: nat, width: nat)
    requires k < rows * width
    ensures width > 0 && k / width < rows && k / width * width + k % width == k
  {
    if width > 0 && k / width >= rows {
      Slide(rows, k / width, width);
      assert false;
    }
  }

  lemma NextMultiple(n: int, a: int)
    ensures (n - 1) * a + a == n * a
  {
  }

  lemma OneMoreTime(a: int, n: int)
    ensures a * n == a * (n - 1) + a
  {
  }

  lemma {:induction false} SumIntUpdate(xs: seq<int>, i: nat, x: int)
    requires i < |xs|
    ensures SumInt(xs[i := x]) == SumInt(xs) - xs[i] + x
  {
    var n := |xs| - 1;
    if i == n {
      assert xs[i := x][..n] == xs[..n];
    } else {
      SumIntUpdate(xs[..n], i, x);
      assert xs[i := x][..n] == xs[..n][i := x];
    }
  }

  // Fewer values than n leave one below n out.
  lemma {:induction false} Missing(taken: seq<nat>, n: nat) returns (p: nat)
    requires |taken| < n
    ensures p < n && p !in taken
  {
    if n - 1 !in taken {
      p := n - 1;
    } else {
      var k :| 0 <= k < |taken| && taken[k] == n - 1;
      var rest := taken[..k] + taken[k + 1..];
      p := Missing(rest, n - 1);
      forall i | 0 <= i < |taken|
        ensures taken[i] != p
      {
        if i < k { assert rest[i] == taken[i]; } else if i > k { assert rest[i - 1] == taken[i]; }
      }
    }
  }

  // ----- distinct positions -----

  predicate Positions(at: seq<nat>, n: nat) {
    && (forall k :: 0 <= k < |at| ==> at[k] < n)
    && (forall i, j :: 0 <= i < j < |at| ==> at[i] != at[j])
  }

  lemma DropPosition(at: seq<nat>, n: nat, k: nat)
    requires Positions(at, n) && k < |at| && at[k] == n - 1
    ensures Positions(at[..k] + at[k + 1..], n - 1)
    ensures forall r :: r in at && r != n - 1 ==> r in at[..k] + at[k + 1..]
  {
    var rest := at[..k] + at[k + 1..];
    forall r | r in at && r != n - 1
      ensures r in rest
    {
      var i :| 0 <= i < |at| && at[i] == r;
      assert rest[if i < k then i else i - 1] == r;
    }
  }

  // There are at most n distinct positions below n.
  lemma {:induction false} PositionsFit(at: seq<nat>, n: nat)
    requires Positions(at, n)
    ensures |at| <= n
    decreases n
  {
    if |at| > 0 {
      assert at[0] < n;
      if n - 1 in at {
        var k :| 0 <= k < |at| && at[k] == n - 1;
        DropPosition(at, n, k);
        PositionsFit(at[..k] + at[k + 1..], n - 1);
      } else {
        PositionsFit(at, n - 1);
      }
    }
  }

  predicate AllBut(at: seq<nat>, n: nat, except: nat) { forall r: nat :: r < n && r != except ==> r in at }

  // Distinct positions that leave at most one out number at least n - 1, and n if they leave none.
  lemma {:induction false} PositionsCover(at: seq<nat>, n: nat, except: nat)
    requires Positions(at, n) && AllBut(at, n, except)
    ensures |at| >= n - 1 && (except >= n || except in at ==> |at| == n)
    decreases n
  {
    PositionsFit(at, n);
    if n > 0 {
      if n - 1 in at {
        var k :| 0 <= k < |at| && at[k] == n - 1;
        var rest := at[..k] + at[k + 1..];
        DropPosition(at, n, k);
        forall r: nat | r < n - 1 && r != except
          ensures r in rest
        {
          assert r in at;
        }
        PositionsCover(rest, n - 1, except);
      } else {
        PositionsCover(at, n - 1, n);
      }
    }
  }

  // xs[at]
  function TakenAt<T>(xs: seq<T>, at: seq<nat>): (r: seq<T>)
    requires forall k :: 0 <= k < |at| ==> at[k] < |xs|
    ensures |r| == |at| && forall k :: 0 <= k < |r| ==> r[k] == xs[at[k]]
  {
    seq(|at|, k requires 0 <= k < |at| => xs[at[k]])
  }

  lemma SumWithout(xs: seq<real>, k: nat)
    requires k < |xs|
    ensures Sum(xs) == Sum(xs[..k] + xs[k + 1..]) + xs[k]
  {
    hide Sum;
    SumPrefix(xs, k);
    SumConcat(xs[..k + 1], xs[k + 1..]);
    assert xs == xs[..k + 1] + xs[k + 1..];
    SumConcat(xs[..k], xs[k + 1..]);
  }

  // Summing in another order changes nothing.
  lemma {:induction false} SumPermuted(xs: seq<real>, at: seq<nat>)
    requires Positions(at, |xs|) && |at| == |xs|
    ensures Sum(TakenAt(xs, at)) == Sum(xs)
    decreases |xs|
  {
    hide Sum;
    if |xs| == 0 {
      assert TakenAt(xs, at) == xs;
    } else {
      var n: nat := |xs| - 1;
      if n !in at {
        PositionsFit(at, n);
        assert false;
      }
      var k :| 0 <= k < |at| && at[k] == n;
      var rest := at[..k] + at[k + 1..];
      DropPosition(at, |xs|, k);
      SumPermuted(xs[..n], rest);
      SumWithout(TakenAt(xs, at), k);
      TakenWithoutLast(xs, at, k);
      SumPrefix(xs, n);
      assert xs[..n + 1] == xs;
    }
  }

  lemma TakenWithoutLast(xs: seq<real>, at: seq<nat>, k: nat)
    requires Positions(at, |xs|) && k < |at| && at[k] == |xs| - 1
    ensures Positions(at[..k] + at[k + 1..], |xs| - 1)
    ensures TakenAt(xs, at)[..k] + TakenAt(xs, at)[k + 1..] == TakenAt(xs[..|xs| - 1], at[..k] + at[k + 1..])
  {
  }

  // n distinct positions below n leave none out.
  lemma PositionsFull(at: seq<nat>, n: nat, r: nat)
    requires Positions(at, n) && |at| == n && r < n
    ensures r in at
  {
    if r !in at {
      assert Positions(at + [r], n);
      PositionsFit(at + [r], n);
      assert false;
    }
  }

  function Smaller(a: int, b: int): int { if a < b then a else b }

  function Larger(a: int, b: int): int { if a < b then b else a }

  // A nonzero multiple of n is at least n away from zero.
  lemma Multiple(d: int, n: int)
    requires n >= 0
    ensures d >= 1 ==> d * n >= n
    ensures d <= -1 ==> d * n <= -n
  {
  }

  // ----- slots of a fixed width -----

  // Slot k of `count` slots of one width lies inside them.
  lemma Slot(k: int, count: int, width: int)
    requires 0 <= k < count && width >= 0
    ensures 0 <= k * width
    ensures k * width + width == (k + 1) * width <= count * width
  {
  }
}
