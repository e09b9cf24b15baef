// Projecting real rows to MXFP4: nearest E2M1 magnitudes, a searched shared exponent per block of
// 32 (OCP Microscaling Formats (MX) Specification v1.0, sections 5.3.3 and 5.4.1).
module Mxfp4Projection {
  import opened Bitwise
  import opened Numeric
  import opened Options
  import opened Mxfp4

  function Abs(x: real): (a: real)
    ensures a >= 0.0 && (a == x || a == -x)
  {
    if x < 0.0 then -x else x
  }

  const BLOCK := 32

  // ----- nearest magnitude by counting thresholds -----

  const THRESHOLDS := [0.25, 0.75, 1.25, 1.75, 2.5, 3.5, 5.0]

  // How many of the first n thresholds lie strictly below x.
  function CountBelow(x: real, n: nat): (k: nat)
    requires n <= |THRESHOLDS|
    ensures k <= n
  {
    if n == 0 then 0 else CountBelow(x, n - 1) + (if x > THRESHOLDS[n - 1] then 1 else 0)
  }

  function NearestCode(x: real): (code: nat)
    ensures code < 8
  {
    CountBelow(x, 7)
  }

  lemma NearestCodeCases(x: real)
    ensures NearestCode(x) ==
      if x <= 0.25 then 0 else if x <= 0.75 then 1 else if x <= 1.25 then 2 else if x <= 1.75 then 3
      else if x <= 2.5 then 4 else if x <= 3.5 then 5 else if x <= 5.0 then 6 else 7
  {
    assert CountBelow(x, 1) == if x > 0.25 then 1 else 0;
    assert CountBelow(x, 2) == CountBelow(x, 1) + if x > 0.75 then 1 else 0;
    assert CountBelow(x, 3) == CountBelow(x, 2) + if x > 1.25 then 1 else 0;
    assert CountBelow(x, 4) == CountBelow(x, 3) + if x > 1.75 then 1 else 0;
    assert CountBelow(x, 5) == CountBelow(x, 4) + if x > 2.5 then 1 else 0;
    assert CountBelow(x, 6) == CountBelow(x, 5) + if x > 3.5 then 1 else 0;
    assert CountBelow(x, 7) == CountBelow(x, 6) + if x > 5.0 then 1 else 0;
  }

  // The threshold count is a closest E2M1 magnitude for every nonnegative real.
  lemma NearestIsClosest(x: real, code: nat)
    requires x >= 0.0 && code < 8
    ensures Abs(x - Magnitude(NearestCode(x))) <= Abs(x - Magnitude(code))
  {
    NearestCodeCases(x);
  }

  // ----- powers of two -----

  lemma {:induction false} Exp2Step(e: int)
    ensures Exp2(e + 1) == 2.0 * Exp2(e)
  {
  }

  lemma {:induction false} Exp2Monotone(a: int, b: int)
    requires a <= b
    ensures Exp2(a) <= Exp2(b)
    decreases b - a
  {
    if a < b {
      Exp2Step(a);
      Exp2Monotone(a + 1, b);
    }
  }

  // ----- one block -----

  function Peak(block: seq<real>): (p: real)
    ensures p >= 0.0
    ensures forall i :: 0 <= i < |block| ==> Abs(block[i]) <= p
    ensures p > 0.0 ==> exists i :: 0 <= i < |block| && Abs(block[i]) == p
  {
    if |block| == 0 then 0.0
    else
      var n := |block| - 1;
      var front := block[..n];
      assert forall i :: 0 <= i < n ==> front[i] == block[i];
      Max(Peak(front), Abs(block[n]))
  }

  // base == ceil(log2(peak / 6))
  predicate IsBase(base: int, peak: real) {
    Exp2(base - 1) < peak / 6.0 <= Exp2(base)
  }

  // Powers of two outgrow every number,
  lemma {:induction false} Exp2Grows(n: nat)
    ensures Exp2(n) > n as real
  {
    if n > 0 { Exp2Grows(n - 1); }
  }

  lemma {:induction false} Exp2Inverse(n: nat)
    ensures Exp2(0 - n) * Exp2(n) == 1.0
  {
    if n > 0 {
      Exp2Inverse(n - 1);
      Exp2Step(0 - n);
      Halved(Exp2(0 - n), Exp2(n - 1));
    }
  }

  lemma Halved(a: real, b: real)
    requires 2.0 * a * b == 1.0
    ensures a * (2.0 * b) == 1.0
  {
  }

  // ... and their inverses fall below every positive one,
  lemma BelowAll(x: real) returns (lo: int)
    requires x > 0.0
    ensures Exp2(lo) < x
  {
    var n: nat := (1.0 / x).Floor + 1;
    Exp2Grows(n);
    Exp2Inverse(n);
    lo := 0 - n;
    SmallerInverse(x, Exp2(n), Exp2(lo));
  }

  lemma SmallerInverse(x: real, big: real, small: real)
    requires x > 0.0 && big > 1.0 / x && small * big == 1.0 && small > 0.0
    ensures small < x
  {
    if small >= x {
      ProductOrder(1.0 / x, big, x);
      ProductOrder(x, small, big);
      assert 1.0 / x * x == 1.0;
      assert big * x <= small * big;
      StrictProduct(1.0 / x, big, x);
      assert false;
    }
  }

  lemma StrictProduct(a: real, b: real, c: real)
    requires a < b && c > 0.0
    ensures a * c < b * c
  {
    PositiveProduct(b - a, c, (b - a) * c);
  }

  // so every positive peak has its base, and only one.
  lemma {:induction false} BaseBetween(x: real, lo: int, hi: int) returns (base: int)
    requires lo < hi && Exp2(lo) < x <= Exp2(hi)
    ensures Exp2(base - 1) < x <= Exp2(base)
    decreases hi - lo
  {
    if x <= Exp2(hi - 1) {
      base := BaseBetween(x, lo, hi - 1);
    } else {
      base := hi;
    }
  }

  lemma BaseExists(peak: real)
    requires peak > 0.0
    ensures exists base :: IsBase(base, peak)
  {
    hide Exp2;
    var x := peak / 6.0;
    var lo := BelowAll(x);
    var hi: nat := x.Floor + 1;
    Exp2Grows(hi);
    if lo >= hi {
      Exp2Monotone(hi, lo);
    }
    var base := BaseBetween(x, lo, hi);
    assert IsBase(base, peak);
  }

  lemma BaseUnique(peak: real)
    ensures forall a, b :: IsBase(a, peak) && IsBase(b, peak) ==> a == b
  {
    hide Exp2;
    forall a, b | IsBase(a, peak) && IsBase(b, peak)
      ensures a == b
    {
      if a < b { Exp2Monotone(a, b - 1); }
      if b < a { Exp2Monotone(b, a - 1); }
    }
  }

  // ceil(log2(peak / 6)), whatever positive real the peak is.
  function Base(peak: real): (base: int)
    requires peak > 0.0
    ensures IsBase(base, peak)
  {
    BaseExists(peak);
    BaseUnique(peak);
    var base :| IsBase(base, peak);
    base
  }

  // The exponents tried lie lo .. hi above the base.
  datatype Offsets = Offsets(lo: int, hi: int) {
    predicate Valid() { lo <= hi }

    // The base itself is among them, as by default.
    predicate HoldBase() { lo <= 0 <= hi }

    // Not all below the base, and not starting four above it.
    predicate Settle() { 0 <= hi && lo != 4 }
  }

  const DEFAULT: Offsets := Offsets(-8, 6)

  function Clamp(e: int): (c: int)
    ensures -127 <= c <= 127 && (-127 <= e <= 127 ==> c == e)
  {
    if e < -127 then -127 else if e > 127 then 127 else e
  }

  function Candidates(base: int, o: Offsets): (es: seq<int>)
    requires o.Valid()
    ensures |es| == o.hi - o.lo + 1 && forall k :: 0 <= k < |es| ==> es[k] == Clamp(base + o.lo + k)
  {
    seq(o.hi - o.lo + 1, k requires 0 <= k < o.hi - o.lo + 1 => Clamp(base + o.lo + k))
  }

  // The value a magnitude code stands for under an exponent.
  function GridValue(code: nat, e: int): real
    requires code < 8
  {
    Magnitude(code) * Exp2(e)
  }

  // copysign of the nearest magnitude, scaled back
  function Quantize(x: real, e: int): real {
    var magnitude := GridValue(NearestCode(Abs(x) / Exp2(e)), e);
    if x < 0.0 then -magnitude else magnitude
  }

  function QuantizeBlock(block: seq<real>, e: int): (q: seq<real>)
    ensures |q| == |block| && forall i :: 0 <= i < |q| ==> q[i] == Quantize(block[i], e)
  {
    seq(|block|, i requires 0 <= i < |block| => Quantize(block[i], e))
  }

  function Errors(block: seq<real>, base: int, o: Offsets): (xs: seq<real>)
    requires o.Valid()
    ensures |xs| == |Candidates(base, o)|
    ensures forall k :: 0 <= k < |xs| ==> xs[k] == Sse(QuantizeBlock(block, Candidates(base, o)[k]), block)
  {
    var es := Candidates(base, o);
    seq(|es|, k requires 0 <= k < |es| => Sse(QuantizeBlock(block, es[k]), block))
  }

  function BestExponent(block: seq<real>, o: Offsets): (e: int)
    requires o.Valid() && Peak(block) > 0.0
    ensures -127 <= e <= 127
  {
    var base := Base(Peak(block));
    Candidates(base, o)[ArgMin(Errors(block, base, o))]
  }

  function Project(block: seq<real>, o: Offsets): (out: seq<real>)
    requires o.Valid()
    ensures |out| == |block|
  {
    if Peak(block) > 0.0 then QuantizeBlock(block, BestExponent(block, o)) else Zeros(|block|)
  }

  // ----- the projection is the best block its exponents allow -----

  // The value a code and sign stand for under an exponent.
  predicate Representable(block: seq<real>, e: int) {
    forall i :: 0 <= i < |block| ==> OnGrid(block[i], e)
  }

  predicate OnGrid(x: real, e: int) {
    exists code :: 0 <= code < 8 && Abs(x) == GridValue(code, e)
  }

  lemma GridNonnegative(code: nat, e: int)
    requires code < 8
    ensures GridValue(code, e) >= 0.0
  {
    if code > 0 {
      PositiveProduct(Magnitude(code), Exp2(e), GridValue(code, e));
    }
  }

  lemma QuantizeOnGrid(x: real, e: int)
    ensures OnGrid(Quantize(x, e), e)
  {
    hide GridValue, NearestCode;
    var code := NearestCode(Abs(x) / Exp2(e));
    GridNonnegative(code, e);
    assert Abs(Quantize(x, e)) == GridValue(code, e);
  }

  lemma QuantizeIsClosest(x: real, y: real, e: int)
    requires OnGrid(y, e)
    ensures Square(Quantize(x, e) - x) <= Square(y - x)
  {
    hide NearestCode, Exp2, Square, GridValue;
    var code :| 0 <= code < 8 && Abs(y) == GridValue(code, e);
    NearestOnGrid(Abs(x), code, e);
    CloserSquares(x, GridValue(NearestCode(Abs(x) / Exp2(e)), e), y);
  }

  lemma NearestOnGrid(x: real, code: nat, e: int)
    requires x >= 0.0 && code < 8
    ensures Abs(x - GridValue(NearestCode(x / Exp2(e)), e)) <= Abs(x - GridValue(code, e))
  {
    hide Magnitude, NearestCode, Exp2;
    var p := Exp2(e);
    var a := x / p;
    DivideUp(x, p);
    NearestIsClosest(a, code);
    var near := NearestCode(a);
    CloserScaled(a, Magnitude(near), Magnitude(code), p, x, GridValue(near, e), GridValue(code, e));
  }

  lemma CloserScaled(a: real, m: real, n: real, p: real, x: real, mp: real, np: real)
    requires p > 0.0 && x == a * p && mp == m * p && np == n * p
    requires Abs(a - m) <= Abs(a - n)
    ensures Abs(x - mp) <= Abs(x - np)
  {
    hide Abs;
    var d1, d2 := Abs(a - m), Abs(a - n);
    var s1, s2 := d1 * p, d2 * p;
    AbsDifference(a, m, p, x, mp, s1);
    AbsDifference(a, n, p, x, np, s2);
    ScaledOrder(d1, d2, p, s1, s2);
  }

  lemma ScaledOrder(a: real, b: real, p: real, ap: real, bp: real)
    requires a <= b && p > 0.0 && ap == a * p && bp == b * p
    ensures ap <= bp
  {
  }

  lemma CloserSquares(x: real, near: real, y: real)
    requires Abs(Abs(x) - near) <= Abs(Abs(x) - Abs(y))
    ensures var q := if x < 0.0 then -near else near;
      Square(q - x) <= Square(y - x)
  {
    var q := if x < 0.0 then -near else near;
    SignedDistance(x, near, y);
    SquareOrder(Abs(q - x), Abs(y - x));
    SquareFacts(q - x);
    SquareFacts(y - x);
  }

  lemma SignedDistance(x: real, near: real, y: real)
    requires Abs(Abs(x) - near) <= Abs(Abs(x) - Abs(y))
    ensures Abs((if x < 0.0 then -near else near) - x) <= Abs(y - x)
  {
  }

  lemma DivideUp(x: real, p: real)
    requires x >= 0.0 && p > 0.0
    ensures x / p >= 0.0 && (x / p) * p == x
  {
  }

  lemma AbsDifference(a: real, b: real, p: real, ap: real, bp: real, s: real)
    requires p > 0.0 && ap == a * p && bp == b * p && s == Abs(a - b) * p
    ensures Abs(ap - bp) == s
  {
    var d := a - b;
    assert d * p == ap - bp;
    if d < 0.0 {
      assert (-d) * p == bp - ap;
      PositiveProduct(-d, p, bp - ap);
    } else if d > 0.0 {
      PositiveProduct(d, p, ap - bp);
    }
  }

  // No block on the grid of any searched exponent is closer to the source.
  lemma ProjectIsBest(block: seq<real>, o: Offsets, other: seq<real>, k: nat)
    requires o.Valid() && |other| == |block|
    requires Peak(block) > 0.0 ==> k <= o.hi - o.lo && Representable(other, Candidates(Base(Peak(block)), o)[k])
    ensures Sse(Project(block, o), block) <= Sse(other, block)
  {
    hide Quantize, Magnitude, Exp2, Sum, OnGrid, Sse, Errors, Base;
    if Peak(block) > 0.0 {
      var base := Base(Peak(block));
      var e := Candidates(base, o)[k];
      QuantizeBlockIsClosest(block, other, e);
      assert Errors(block, base, o)[ArgMin(Errors(block, base, o))] <= Errors(block, base, o)[k];
    } else {
      NoPeak(block, other);
    }
  }

  lemma QuantizeBlockIsClosest(block: seq<real>, other: seq<real>, e: int)
    requires |other| == |block| && Representable(other, e)
    ensures Sse(QuantizeBlock(block, e), block) <= Sse(other, block)
  {
    hide Quantize, OnGrid, Sum, Square;
    var q := QuantizeBlock(block, e);
    forall i | 0 <= i < |block|
      ensures Distances(q, block)[i] <= Distances(other, block)[i]
    {
      QuantizeIsClosest(block[i], other[i], e);
    }
    SumMonotone(Distances(q, block), Distances(other, block));
  }

  lemma NoPeak(block: seq<real>, other: seq<real>)
    requires |other| == |block| && Peak(block) == 0.0
    ensures Sse(Zeros(|block|), block) <= Sse(other, block)
  {
    hide Sse;
    forall i | 0 <= i < |block|
      ensures block[i] == 0.0
    {
      assert Abs(block[i]) <= 0.0;
    }
    assert block == Zeros(|block|);
    SelfSse(block);
    SquaresNonnegative(other, block);
  }

  lemma SquaresNonnegative(xs: seq<real>, ys: seq<real>)
    requires |xs| == |ys|
    ensures Sse(xs, ys) >= 0.0
    ensures forall i :: 0 <= i < |xs| ==> Distances(xs, ys)[i] >= 0.0
  {
    hide Square, Sum;
    forall i | 0 <= i < |xs|
      ensures Distances(xs, ys)[i] >= 0.0
    {
      SquareFacts(xs[i] - ys[i]);
    }
    SumNonnegative(Distances(xs, ys));
  }

  lemma {:induction false} ZeroSumIsZero(xs: seq<real>, i: nat)
    requires i < |xs| && (forall k :: 0 <= k < |xs| ==> xs[k] >= 0.0) && Sum(xs) <= 0.0
    ensures xs[i] == 0.0
  {
    var n := |xs| - 1;
    SumNonnegative(xs[..n]);
    if i < n {
      ZeroSumIsZero(xs[..n], i);
    }
  }

  lemma ZeroSseIsEqual(xs: seq<real>, ys: seq<real>)
    requires |xs| == |ys| && Sse(xs, ys) <= 0.0
    ensures xs == ys
  {
    hide Square, Sum;
    SquaresNonnegative(xs, ys);
    forall i | 0 <= i < |xs|
      ensures xs[i] == ys[i]
    {
      ZeroSumIsZero(Distances(xs, ys), i);
      SquareFacts(xs[i] - ys[i]);
    }
  }

  // ----- idempotence -----

  // A representable block's own exponent is within three of the base, so by default it is searched.
  lemma ExponentIsSearched(block: seq<real>, e: int)
    requires Representable(block, e) && -127 <= e <= 127 && Peak(block) > 0.0
    ensures var base := Base(Peak(block)); base <= e <= base + 3 && e in Candidates(base, DEFAULT)
  {
    hide IsBase, Peak, GridValue, Exp2, Base;
    var peak := Peak(block);
    var base := Base(peak);
    var i :| 0 <= i < |block| && Abs(block[i]) == peak;
    assert OnGrid(block[i], e);
    var code :| 0 <= code < 8 && Abs(block[i]) == GridValue(code, e);
    PeakOnGrid(code, e, peak);
    BaseNear(e, base, peak);
    assert Candidates(base, DEFAULT)[e - base + 8] == e;
  }

  // One exponent lower the grid is finer: it holds every value it reaches.
  lemma OnFinerGrid(x: real, e: int)
    requires OnGrid(x, e + 1) && Abs(x) <= 6.0 * Exp2(e)
    ensures OnGrid(x, e)
  {
    Exp2Step(e);
    var p := Exp2(e);
    hide Exp2;
    var code :| 0 <= code < 8 && Abs(x) == GridValue(code, e + 1);
    FinerCode(Magnitude(code), p, Abs(x));
    var finer := [0, 2, 4, 5, 6, 7][code];
    assert Abs(x) == GridValue(finer, e);
  }

  lemma FinerCode(m: real, p: real, x: real)
    requires p > 0.0 && x == m * (2.0 * p) <= 6.0 * p
    ensures m <= 3.0
  {
    if m > 3.0 {
      StrictProduct(3.0, m, 2.0 * p);
      assert false;
    }
  }

  lemma {:induction false} RepresentableBelow(block: seq<real>, e: int, c: int)
    requires c <= e && Representable(block, e) && Peak(block) <= 6.0 * Exp2(c)
    ensures Representable(block, c)
    decreases e - c
  {
    hide Exp2, OnGrid, Peak;
    if c < e {
      Exp2Monotone(c, e - 1);
      forall i | 0 <= i < |block|
        ensures OnGrid(block[i], e - 1)
      {
        OnFinerGrid(block[i], e - 1);
      }
      RepresentableBelow(block, e - 1, c);
    }
  }

  // A representable block is representable with the base exponent itself.
  lemma RepresentableAtBase(block: seq<real>, e: int)
    requires Representable(block, e) && -127 <= e <= 127 && Peak(block) > 0.0
    ensures Representable(block, Clamp(Base(Peak(block))))
  {
    hide Exp2, OnGrid, Peak, Base, Representable;
    var base := Base(Peak(block));
    ExponentIsSearched(block, e);
    Exp2Monotone(base, Clamp(base));
    RepresentableBelow(block, e, Clamp(base));
  }

  lemma PeakOnGrid(code: nat, e: int, peak: real)
    requires code < 8 && peak == GridValue(code, e) && peak > 0.0
    ensures Exp2(e) / 16.0 < peak / 6.0 <= Exp2(e)
  {
    hide Exp2;
    PeakRange(code, Exp2(e), peak);
  }

  lemma BaseNear(e: int, base: int, peak: real)
    requires IsBase(base, peak) && Exp2(e) / 16.0 < peak / 6.0 <= Exp2(e)
    ensures base <= e <= base + 3
  {
    hide Exp2;
    Exp2Step(e - 1);
    Exp2Step(e - 2);
    Exp2Step(e - 3);
    Exp2Step(e - 4);
    if base > e {
      Exp2Monotone(e, base - 1);
      assert false;
    }
    if base <= e - 4 {
      Exp2Monotone(base, e - 4);
      assert false;
    }
  }

  lemma PeakRange(code: nat, p: real, peak: real)
    requires code < 8 && p > 0.0 && peak == Magnitude(code) * p && peak > 0.0
    ensures p / 16.0 < peak / 6.0 <= p
  {
    assert code != 0;
    var m := Magnitude(code);
    assert 0.5 <= m <= 6.0;
    ProductOrder(0.5, m, p);
    ProductOrder(m, 6.0, p);
  }

  // A block already on an in-range grid comes back unchanged, whichever exponent wins the search.
  lemma ProjectFixesRepresentable(block: seq<real>, e: int, o: Offsets)
    requires Representable(block, e) && -127 <= e <= 127 && o.HoldBase()
    ensures Project(block, o) == block
  {
    hide Quantize, Magnitude, Exp2, Sum, OnGrid, Base;
    if Peak(block) > 0.0 {
      RepresentableAtBase(block, e);
      ProjectIsBest(block, o, block, -o.lo);
      SelfSse(block);
      ZeroSseIsEqual(Project(block, o), block);
    } else {
      forall i | 0 <= i < |block|
        ensures block[i] == 0.0
      {
        assert Abs(block[i]) <= 0.0;
      }
    }
  }

  ghost predicate FixesAll(o: Offsets)
    requires o.Valid()
  {
    forall block: seq<real>, e: int ::
      |block| == BLOCK && Representable(block, e) && -127 <= e <= 127 ==> Project(block, o) == block
  }

  // Up to two values, then zeros.
  function Padded(x: real, y: real): (block: seq<real>)
    ensures |block| == BLOCK && block[0] == x && block[1] == y && forall i :: 2 <= i < BLOCK ==> block[i] == 0.0
  {
    [x, y] + Zeros(BLOCK - 2)
  }

  // 6 and 1/2 fit exponent 0 only: the one is too large for less, the other too small for more.
  lemma OnlyZero(e: int)
    requires Representable(Padded(6.0, 0.5), e)
    ensures e == 0
  {
    hide Exp2;
    var block := Padded(6.0, 0.5);
    assert OnGrid(block[0], e) && OnGrid(block[1], e);
    var high :| 0 <= high < 8 && Abs(6.0) == GridValue(high, e);
    var low :| 0 <= low < 8 && Abs(0.5) == GridValue(low, e);
    var top, step := Magnitude(high), Magnitude(low);
    OnlyExponentZero(e, top, step);
  }

  lemma OnlyExponentZero(e: int, top: real, step: real)
    requires top <= 6.0 && top * Exp2(e) == 6.0
    requires (step == 0.0 || step >= 0.5) && step * Exp2(e) == 0.5
    ensures e == 0
  {
    hide Exp2;
    ZeroPower();
    ProductOrder(top, 6.0, Exp2(e));
    if step >= 0.5 { ProductOrder(0.5, step, Exp2(e)); }
    if e < 0 { Exp2Monotone(e, -1); }
    if e > 0 { Exp2Monotone(1, e); }
  }

  lemma ZeroPower()
    ensures Exp2(0) == 1.0 && Exp2(-1) == 0.5 && Exp2(1) == 2.0
  {
  }

  // The offsets matter in one way only: every representable block is kept exactly when the base is
  // among the exponents tried.
  lemma FixesExactly(o: Offsets)
    requires o.Valid()
    ensures FixesAll(o) <==> o.HoldBase()
  {
    hide Project, Representable;
    if o.HoldBase() {
      forall block: seq<real>, e: int | |block| == BLOCK && Representable(block, e) && -127 <= e <= 127
        ensures Project(block, o) == block
      {
        ProjectFixesRepresentable(block, e, o);
      }
    } else {
      var block := Padded(6.0, 0.5);
      SixAndHalf();
      if Project(block, o) == block {
        KeptNeedsBase(o);
        assert false;
      }
      assert Representable(block, 0) && Project(block, o) != block;
    }
  }

  lemma SixAndHalf()
    ensures Representable(Padded(6.0, 0.5), 0) && Peak(Padded(6.0, 0.5)) == 6.0 && Base(6.0) == 0
  {
    hide Peak, Exp2;
    ZeroPower();
    var block := Padded(6.0, 0.5);
    forall i | 0 <= i < |block|
      ensures OnGrid(block[i], 0)
    {
      assert Abs(block[i]) == GridValue(if i == 0 then 7 else if i == 1 then 1 else 0, 0);
    }
    assert IsBase(0, 6.0);
    BaseUnique(6.0);
    PaddedPeak(6.0, 0.5);
  }

  lemma PaddedPeak(x: real, y: real)
    requires 0.0 <= y <= x
    ensures Peak(Padded(x, y)) == x
  {
    hide Peak;
    var block := Padded(x, y);
    assert Abs(block[0]) == x;
    if Peak(block) > 0.0 {
      var i :| 0 <= i < |block| && Abs(block[i]) == Peak(block);
    }
  }

  lemma KeptNeedsBase(o: Offsets)
    requires o.Valid() && Project(Padded(6.0, 0.5), o) == Padded(6.0, 0.5)
    ensures o.HoldBase()
  {
    hide Quantize, Base, Errors, Representable, Peak;
    SixAndHalf();
    var block := Padded(6.0, 0.5);
    var k := ArgMin(Errors(block, 0, o));
    var e := Candidates(0, o)[k];
    QuantizedOnGrid(block, e);
    assert QuantizeBlock(block, e) == block;
    OnlyZero(e);
  }

  lemma SelfSse(block: seq<real>)
    ensures Sse(block, block) == 0.0
  {
    hide Square, Sum;
    SquareFacts(0.0);
    SumZeros(Distances(block, block));
  }

  lemma ProjectIsRepresentable(block: seq<real>, o: Offsets)
    requires o.Valid()
    ensures exists e :: -127 <= e <= 127 && Representable(Project(block, o), e)
  {
    hide Quantize, Magnitude, Exp2, Sum, BestExponent;
    var e := if Peak(block) > 0.0 then BestExponent(block, o) else 0;
    forall i | 0 <= i < |block|
      ensures OnGrid(Project(block, o)[i], e)
    {
      if Peak(block) > 0.0 {
        QuantizeOnGrid(block[i], e);
      } else {
        ZeroOnGrid(e);
      }
    }
    assert Representable(Project(block, o), e);
  }

  lemma ZeroOnGrid(e: int)
    ensures OnGrid(0.0, e)
  {
    assert Abs(0.0) == GridValue(0, e);
  }

  // Four exponents above its base a block keeps at most a doubled peak, five above nothing at all.
  lemma QuantizedSize(x: real, b: int, d: int)
    requires Abs(x) <= 6.0 * Exp2(b) && d >= 1
    ensures var q := Abs(Quantize(x, b + d));
      && (d >= 5 ==> q == 0.0) && (d == 4 ==> q <= 6.0 * Exp2(b + 1)) && (d <= 3 ==> q <= 6.0 * Exp2(b))
  {
    hide Exp2, NearestCode;
    Exp2Step(b);
    Exp2Step(b + 1);
    Exp2Step(b + 2);
    Exp2Step(b + 3);
    Exp2Step(b + 4);
    if d >= 5 {
      Exp2Monotone(b + 5, b + d);
      SmallQuotient(Abs(x), Exp2(b + d), 0.1875, 6.0 * Exp2(b));
    } else if d == 4 {
      SmallQuotient(Abs(x), Exp2(b + d), 0.375, 6.0 * Exp2(b));
    } else if d == 3 {
      SmallQuotient(Abs(x), Exp2(b + d), 0.75, 6.0 * Exp2(b));
    } else if d == 2 {
      SmallQuotient(Abs(x), Exp2(b + d), 1.5, 6.0 * Exp2(b));
    } else {
      SmallQuotient(Abs(x), Exp2(b + d), 3.0, 6.0 * Exp2(b));
    }
    var code := NearestCode(Abs(x) / Exp2(b + d));
    GridNonnegative(code, b + d);
    ProductOrder(Magnitude(code), if d >= 5 then 0.0 else if d >= 3 then 0.5 else if d == 2 then 1.5 else 3.0,
      Exp2(b + d));
  }

  lemma SmallQuotient(x: real, p: real, most: real, bound: real)
    requires 0.0 <= x <= bound <= most * p && p > 0.0
    requires most == 0.1875 || most == 0.375 || most == 0.75 || most == 1.5 || most == 3.0
    ensures Magnitude(NearestCode(x / p)) <= if most < 0.25 then 0.0 else if most <= 0.75 then 0.5 else most
  {
    hide NearestCode;
    QuotientAtMost(x, p, most);
    NearestCodeCases(x / p);
  }

  lemma QuotientAtMost(x: real, p: real, k: real)
    requires 0.0 <= x <= k * p && p > 0.0
    ensures 0.0 <= x / p <= k
  {
    DivideUp(x, p);
    var q := x / p;
    if q > k {
      StrictProduct(k, q, p);
      assert false;
    }
  }

  lemma QuotientAbove(x: real, p: real, k: real)
    requires 0.0 <= k * p < x && p > 0.0
    ensures x / p > k
  {
    DivideUp(x, p);
    var q := x / p;
    if q <= k {
      ProductOrder(q, k, p);
      assert false;
    }
  }

  lemma PeakAtMost(block: seq<real>, bound: real)
    requires bound >= 0.0 && forall i :: 0 <= i < |block| ==> Abs(block[i]) <= bound
    ensures Peak(block) <= bound
  {
    hide Peak;
    if Peak(block) > 0.0 {
      var i :| 0 <= i < |block| && Abs(block[i]) == Peak(block);
    }
  }

  lemma BaseAtMost(peak: real, m: int)
    requires 0.0 < peak <= 6.0 * Exp2(m)
    ensures Base(peak) <= m
  {
    hide Exp2;
    if Base(peak) > m {
      Exp2Monotone(m, Base(peak) - 1);
    }
  }

  // What is left of a block quantized above its base has no higher base, or is out of reach.
  lemma QuantizedBase(block: seq<real>, d: int)
    requires Peak(block) > 0.0 && d >= 1
    ensures var b := Base(Peak(block));
      var left := Peak(QuantizeBlock(block, b + d));
      left > 0.0 ==> d <= 4 && Base(left) <= if d == 4 then b + 1 else b
  {
    hide Exp2, Quantize, Peak, Base;
    var b := Base(Peak(block));
    var q := QuantizeBlock(block, b + d);
    var bound := if d >= 5 then 0.0 else if d == 4 then 6.0 * Exp2(b + 1) else 6.0 * Exp2(b);
    forall i | 0 <= i < |q|
      ensures Abs(q[i]) <= bound
    {
      QuantizedSize(block[i], b, d);
    }
    PeakAtMost(q, bound);
    if Peak(q) > 0.0 {
      BaseAtMost(Peak(q), if d == 4 then b + 1 else b);
    }
  }

  // The exponent a block was quantized with, counted from its base.
  lemma ChosenOffset(block: seq<real>, o: Offsets) returns (delta: int)
    requires o.Valid() && Peak(block) > 0.0
    ensures o.lo <= delta <= o.hi && BestExponent(block, o) == Clamp(Base(Peak(block)) + delta)
  {
    hide Errors, Base, Peak;
    delta := o.lo + ArgMin(Errors(block, Base(Peak(block)), o));
  }

  // When every exponent tried lies above the base, the first one tried again suits what was left.
  lemma FirstSuits(block: seq<real>, o: Offsets)
    requires o.Valid() && o.Settle() && o.lo >= 1 && Peak(block) > 0.0 && Peak(Project(block, o)) > 0.0
    ensures var q := Project(block, o); Clamp(Base(Peak(q)) + o.lo) <= BestExponent(block, o)
  {
    hide Base, IsBase, Peak, BestExponent, QuantizeBlock, Quantize, Exp2, Clamp, Project;
    var delta := ChosenOffset(block, o);
    var b, e := Base(Peak(block)), BestExponent(block, o);
    ProjectIs(block, o);
    if e < 127 {
      NotCutDown(b + delta);
      QuantizedBase(block, e - b);
      assert b + (e - b) == e;
    }
    FirstArithmetic(b, delta, e, Base(Peak(Project(block, o))), o.lo);
  }

  lemma ProjectIs(block: seq<real>, o: Offsets)
    requires o.Valid() && Peak(block) > 0.0
    ensures Project(block, o) == QuantizeBlock(block, BestExponent(block, o))
  {
    hide Peak, BestExponent, QuantizeBlock;
  }

  lemma NotCutDown(e: int)
    ensures Clamp(e) < 127 ==> Clamp(e) >= e
  {
  }

  lemma FirstArithmetic(b: int, delta: int, e: int, left: int, lo: int)
    requires e == Clamp(b + delta) && 1 <= lo <= delta && lo != 4
    requires e < 127 ==> e - b <= 4 && left <= if e - b == 4 then b + 1 else b
    ensures Clamp(left + lo) <= e
  {
  }

  // Projecting twice is projecting once, for every real block, by default and for all offset ranges
  // but two families.
  lemma ProjectIdempotent(block: seq<real>, o: Offsets)
    requires o.Valid() && o.Settle()
    ensures Project(Project(block, o), o) == Project(block, o)
  {
    hide Project, Representable, Peak, Base, BestExponent, Candidates;
    if o.HoldBase() {
      ProjectIsRepresentable(block, o);
      var e :| -127 <= e <= 127 && Representable(Project(block, o), e);
      ProjectFixesRepresentable(Project(block, o), e, o);
    } else if Peak(block) > 0.0 && Peak(Project(block, o)) > 0.0 {
      SettledAbove(block, o);
    } else {
      NothingLeft(block, o);
      ZeroPeakStays(Project(block, o), o);
    }
  }

  lemma NothingLeft(block: seq<real>, o: Offsets)
    requires o.Valid() && (Peak(block) > 0.0 ==> Peak(Project(block, o)) <= 0.0)
    ensures Peak(Project(block, o)) <= 0.0
  {
    hide Peak, QuantizeBlock, BestExponent;
    if Peak(block) <= 0.0 {
      PeakAtMost(Project(block, o), 0.0);
    }
  }

  lemma ZeroPeakStays(q: seq<real>, o: Offsets)
    requires o.Valid() && Peak(q) <= 0.0
    ensures Project(q, o) == q
  {
    hide Peak, QuantizeBlock, BestExponent;
    forall i | 0 <= i < |q|
      ensures q[i] == 0.0
    {
      assert Abs(q[i]) <= 0.0;
    }
  }

  lemma SettledAbove(block: seq<real>, o: Offsets)
    requires o.Valid() && o.Settle() && o.lo >= 1 && Peak(block) > 0.0 && Peak(Project(block, o)) > 0.0
    ensures Project(Project(block, o), o) == Project(block, o)
  {
    hide Exp2, Peak, Base, BestExponent, Representable, Sse, Quantize;
    var q, e := Project(block, o), BestExponent(block, o);
    var base := Base(Peak(q));
    var c := Clamp(base + o.lo);
    QuantizedOnGrid(block, e);
    FirstSuits(block, o);
    ExponentIsSearched(q, e);
    Exp2Monotone(base, c);
    RepresentableBelow(q, e, c);
    ProjectIsBest(q, o, q, 0);
    SelfSse(q);
    ZeroSseIsEqual(Project(q, o), q);
  }

  lemma QuantizedOnGrid(block: seq<real>, e: int)
    ensures Representable(QuantizeBlock(block, e), e)
  {
    hide OnGrid, Quantize;
    forall i | 0 <= i < |block|
      ensures OnGrid(Quantize(block[i], e), e)
    {
      QuantizeOnGrid(block[i], e);
    }
  }

  // ----- where projecting twice is more -----

  ghost predicate IdempotentAll(o: Offsets)
    requires o.Valid()
  {
    forall block: seq<real> :: |block| == BLOCK ==> Project(Project(block, o), o) == Project(block, o)
  }

  // Exactly these offset ranges make the projection of every block final.
  lemma IdempotentExactly(o: Offsets)
    requires o.Valid()
    ensures IdempotentAll(o) <==> o.Settle()
  {
    hide Project;
    if o.Settle() {
      forall block: seq<real> | |block| == BLOCK
        ensures Project(Project(block, o), o) == Project(block, o)
      {
        ProjectIdempotent(block, o);
      }
    } else if o.hi < 0 {
      var block := Padded(6.0 * Exp2(0 - o.lo), 0.0);
      ShrinksAgain(o);
      assert Project(Project(block, o), o) != Project(block, o);
    } else {
      var block := Padded(5.0, 0.0);
      VanishesLater(o);
      assert Project(Project(block, o), o) != Project(block, o);
    }
  }

  lemma TopBase(e: int)
    ensures 6.0 * Exp2(e) > 0.0 && Base(6.0 * Exp2(e)) == e
  {
    hide Exp2;
    Exp2Step(e - 1);
    var peak := 6.0 * Exp2(e);
    assert IsBase(e, peak);
    BaseUnique(peak);
  }

  lemma QuantizeBounded(x: real, e: int)
    ensures Abs(Quantize(x, e)) <= 6.0 * Exp2(e)
  {
    hide Exp2, NearestCode;
    var code := NearestCode(Abs(x) / Exp2(e));
    GridNonnegative(code, e);
    ProductOrder(Magnitude(code), 6.0, Exp2(e));
  }

  // Six steps of a larger power saturate at six of the smaller.
  lemma Saturates(n: int, e: int)
    requires e < n
    ensures Quantize(6.0 * Exp2(n), e) == 6.0 * Exp2(e)
  {
    hide Exp2, NearestCode;
    Exp2Step(e);
    Exp2Monotone(e + 1, n);
    QuotientAbove(6.0 * Exp2(n), Exp2(e), 5.0);
    NearestCodeCases(6.0 * Exp2(n) / Exp2(e));
  }

  lemma QuantizeZero(e: int)
    ensures Quantize(0.0, e) == 0.0
  {
    hide Exp2, NearestCode;
    assert 0.0 / Exp2(e) == 0.0;
    NearestCodeCases(0.0);
  }

  lemma QuantizePadded(x: real, e: int)
    ensures QuantizeBlock(Padded(x, 0.0), e) == Padded(Quantize(x, e), 0.0)
  {
    hide Quantize;
    QuantizeZero(e);
    assert forall i :: 1 <= i < BLOCK ==> Padded(x, 0.0)[i] == 0.0 && Padded(Quantize(x, e), 0.0)[i] == 0.0;
  }

  lemma ProjectPadded(x: real, o: Offsets)
    requires o.Valid() && x > 0.0
    ensures Peak(Padded(x, 0.0)) == x
    ensures Project(Padded(x, 0.0), o) == Padded(Quantize(x, BestExponent(Padded(x, 0.0), o)), 0.0)
  {
    hide Peak, Quantize, BestExponent, QuantizeBlock;
    PaddedPeak(x, 0.0);
    QuantizePadded(x, BestExponent(Padded(x, 0.0), o));
  }

  // With every exponent below the base, six units shrink and shrink again.
  lemma ShrinksAgain(o: Offsets)
    requires o.Valid() && o.hi < 0
    ensures var block := Padded(6.0 * Exp2(0 - o.lo), 0.0); Project(Project(block, o), o) != Project(block, o)
  {
    hide Exp2, Quantize, BestExponent, Base, Project;
    var n := 0 - o.lo;
    var x := 6.0 * Exp2(n);
    TopBase(n);
    ProjectPadded(x, o);
    var delta := ChosenOffset(Padded(x, 0.0), o);
    var e := BestExponent(Padded(x, 0.0), o);
    Saturates(n, e);
    var y := 6.0 * Exp2(e);
    TopBase(e);
    ProjectPadded(y, o);
    var again := ChosenOffset(Padded(y, 0.0), o);
    var e2 := BestExponent(Padded(y, 0.0), o);
    QuantizeBounded(y, e2);
    Exp2Monotone(e2, e - 1);
    Exp2Step(e - 1);
    assert Padded(Quantize(y, e2), 0.0)[0] != Padded(y, 0.0)[0];
  }

  // Four above the base five becomes eight, whose own base is one higher, where four above it is lost.
  lemma VanishesLater(o: Offsets)
    requires o.Valid() && o.lo == 4
    ensures var block := Padded(5.0, 0.0); Project(Project(block, o), o) != Project(block, o)
  {
    hide Exp2, Quantize, BestExponent, Base, Project;
    SmallPowers();
    ProjectPadded(5.0, o);
    FiveBecomesEight(o);
    ProjectPadded(8.0, o);
    EightBase();
    var again := ChosenOffset(Padded(8.0, 0.0), o);
    var e2 := BestExponent(Padded(8.0, 0.0), o);
    EightIsLost(e2);
    assert Padded(0.0, 0.0)[0] != Padded(8.0, 0.0)[0];
  }

  lemma SmallPowers()
    ensures Exp2(0) == 1.0 && Exp2(-1) == 0.5 && Exp2(1) == 2.0 && Exp2(4) == 16.0 && Exp2(5) == 32.0
  {
    assert Exp2(2) == 4.0 && Exp2(3) == 8.0;
  }

  lemma EightBase()
    ensures Base(8.0) == 1 && Base(5.0) == 0
  {
    SmallPowers();
    assert IsBase(1, 8.0) && IsBase(0, 5.0);
    BaseUnique(8.0);
    BaseUnique(5.0);
  }

  lemma EightIsLost(e: int)
    requires e >= 5
    ensures Quantize(8.0, e) == 0.0
  {
    hide Exp2, NearestCode;
    SmallPowers();
    Exp2Monotone(5, e);
    QuotientAtMost(8.0, Exp2(e), 0.25);
    NearestCodeCases(8.0 / Exp2(e));
  }

  lemma FiveAt(e: int)
    requires e >= 4
    ensures Quantize(5.0, e) == if e == 4 then 8.0 else 0.0
  {
    hide Exp2, NearestCode;
    SmallPowers();
    if e >= 5 {
      Exp2Monotone(5, e);
      QuotientAtMost(5.0, Exp2(e), 0.25);
    }
    NearestCodeCases(5.0 / Exp2(e));
  }

  lemma FiveBecomesEight(o: Offsets)
    requires o.Valid() && o.lo == 4
    ensures Project(Padded(5.0, 0.0), o) == Padded(8.0, 0.0)
  {
    hide Exp2, Quantize, BestExponent, Base, Sse, Representable, QuantizeBlock;
    var block := Padded(5.0, 0.0);
    ProjectPadded(5.0, o);
    EightBase();
    var delta := ChosenOffset(block, o);
    var e := BestExponent(block, o);
    FiveAt(e);
    FiveAt(4);
    if e != 4 {
      QuantizePadded(5.0, 4);
      QuantizedOnGrid(block, 4);
      ProjectIsBest(block, o, Padded(8.0, 0.0), 0);
      SsePadded(8.0, 5.0);
      SsePadded(0.0, 5.0);
      assert false;
    }
  }

  lemma SsePadded(x: real, y: real)
    ensures Sse(Padded(x, 0.0), Padded(y, 0.0)) == Square(x - y)
  {
    hide Sum, Square;
    SquareFacts(0.0);
    var xs, ys := Padded(x, 0.0), Padded(y, 0.0);
    assert forall i :: 1 <= i < BLOCK ==> xs[i] == 0.0 && ys[i] == 0.0;
    assert Distances(xs, ys) == Zeros(BLOCK)[0 := Square(x - y)];
    SumUpdate(Zeros(BLOCK), 0, Square(x - y));
    SumZeros(Zeros(BLOCK));
  }

  // ----- stored form -----

  function StoredCode(x: real, e: int): (n: nat)
    ensures n < 16
  {
    var code := NearestCode(Abs(x) / Exp2(e));
    if code != 0 && x < 0.0 then code + 8 else code
  }

  function StoredCodes(block: seq<real>, o: Offsets): (codes: seq<nat>)
    requires o.Valid()
    ensures |codes| == |block| && Nibbles(codes)
  {
    if Peak(block) > 0.0
    then
      var e := BestExponent(block, o);
      seq(|block|, i requires 0 <= i < |block| => StoredCode(block[i], e))
    else seq(|block|, i => 0)
  }

  function StoredScale(block: seq<real>, o: Offsets): (raw: nat)
    requires o.Valid()
    ensures raw <= 254
  {
    if Peak(block) > 0.0 then BestExponent(block, o) + 127 else 0
  }

  // The stored nibbles and scale byte decode to exactly the returned block.
  lemma StorageDecodes(block: seq<real>, o: Offsets)
    requires o.Valid()
    ensures Weights(StoredCodes(block, o), StoredScale(block, o)) == Project(block, o)
  {
    hide Magnitude, Exp2, NearestCode, BestExponent, Peak, Quantize, StoredCode;
    MagnitudeZero();
    var stored := Weights(StoredCodes(block, o), StoredScale(block, o));
    forall i | 0 <= i < |block|
      ensures stored[i] == Project(block, o)[i]
    {
      if Peak(block) > 0.0 {
        StoredValue(block[i], BestExponent(block, o));
      }
    }
  }

  lemma StoredValue(x: real, e: int)
    ensures NibbleValue(StoredCode(x, e)) * Exp2(e) == Quantize(x, e)
  {
    hide Exp2, NearestCode;
    var code := NearestCode(Abs(x) / Exp2(e));
    assert (-Magnitude(code)) * Exp2(e) == -GridValue(code, e);
  }

  lemma MagnitudeZero()
    ensures Magnitude(0) == 0.0
  {
  }

  // ----- whole matrices, a chunk of rows at a time -----

  datatype Projected = Projected(output: seq<real>, codes: seq<nat>, scale: nat)

  function ProjectOne(block: seq<real>, o: Offsets): Projected
    requires o.Valid()
  {
    Projected(Project(block, o), StoredCodes(block, o), StoredScale(block, o))
  }

  // Whole blocks of 32 of the first n rows, row by row: reshape(-1, 32).
  function Blocks(matrix: seq<seq<real>>, width: nat, n: nat): (blocks: seq<seq<real>>)
    requires n <= |matrix| && forall r :: 0 <= r < |matrix| ==> |matrix[r]| == width * BLOCK
    ensures |blocks| == n * width
  {
    if n == 0 then [] else Blocks(matrix, width, n - 1) + RowBlocks(matrix[n - 1], width)
  }

  function RowBlocks(row: seq<real>, width: nat): (blocks: seq<seq<real>>)
    requires |row| == width * BLOCK
    ensures |blocks| == width
    ensures forall b :: 0 <= b < width ==> blocks[b] == row[b * BLOCK..b * BLOCK + BLOCK]
  {
    seq(width, b requires 0 <= b < width => row[b * BLOCK..b * BLOCK + BLOCK])
  }

  predicate ProjectedUpTo(blocks: seq<seq<real>>, o: Offsets, parts: seq<Projected>)
    requires o.Valid()
  {
    && |parts| <= |blocks|
    && forall i :: 0 <= i < |parts| ==> parts[i] == ProjectOne(blocks[i], o)
  }

  method ProjectChunk(blocks: seq<seq<real>>, o: Offsets, before: seq<Projected>, stop: nat)
      returns (parts: seq<Projected>)
    requires o.Valid() && ProjectedUpTo(blocks, o, before) && |before| <= stop <= |blocks|
    ensures ProjectedUpTo(blocks, o, parts) && |parts| == stop
  {
    hide ProjectOne;
    parts := before;
    for i := |before| to stop
      invariant ProjectedUpTo(blocks, o, parts) && |parts| == i
    {
      parts := parts + [ProjectOne(blocks[i], o)];
    }
  }

  // Refused for a column count off the block size, a chunk size or an offset range that is empty; the
  // chunk size only bounds memory, so every positive one projects every block alike.
  method ProjectMatrix(matrix: seq<seq<real>>, columns: nat, rowChunk: int, o: Offsets)
      returns (r: Option<seq<Projected>>)
    requires forall i :: 0 <= i < |matrix| ==> |matrix[i]| == columns
    ensures r.Some? <==> columns % BLOCK == 0 && rowChunk > 0 && o.Valid()
    ensures r.Some? ==>
      var blocks := Blocks(matrix, columns / BLOCK, |matrix|);
      |r.value| == |blocks| == |matrix| * (columns / BLOCK) && ProjectedUpTo(blocks, o, r.value)
  {
    if columns % BLOCK != 0 || rowChunk <= 0 || !o.Valid() {
      return None;
    }
    hide ProjectedUpTo, Blocks;
    var rows, width := |matrix|, columns / BLOCK;
    var blocks := Blocks(matrix, width, rows);
    var parts := [];
    var start := 0;
    NothingProjected(blocks, o);
    while start < rows
      invariant start <= rows && |parts| == start * width
      invariant ProjectedUpTo(blocks, o, parts)
    {
      var stop := if start + rowChunk < rows then start + rowChunk else rows;
      Within(start, stop, rows, width);
      parts := ProjectChunk(blocks, o, parts, stop * width);
      start := stop;
    }
    r := Some(parts);
  }

  lemma NothingProjected(blocks: seq<seq<real>>, o: Offsets)
    requires o.Valid()
    ensures ProjectedUpTo(blocks, o, [])
  {
  }

  lemma Within(a: nat, b: nat, n: nat, w: nat)
    requires a <= b <= n
    ensures a * w <= b * w <= n * w
  {
  }
}
