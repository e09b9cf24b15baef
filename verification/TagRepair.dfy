// In-band block tags.  Every weight of a block stores one symbol; the block's tag is the XOR of
// one small label per symbol.  The encoders embed a required tag by changing at most two symbols
// of the unconstrained best block.  This module gives the specification (the minimum over *all*
// symbol vectors carrying the tag) and the one group lemma every variant rests on: any vector can
// be undone to at most two changes without getting more expensive.
module TagRepair {
  import opened Numeric

  // ----- two-bit tags under XOR -----

  type Tag = t: nat | t < 4

  // Two-bit XOR: among 1, 2 and 3 the XOR of two different values is the third.
  function Xor(a: Tag, b: Tag): Tag {
    if a == 0 then b else if b == 0 then a else if a == b then 0 else 6 - a - b
  }

  lemma XorIsBitwise(a: Tag, b: Tag)
    ensures Xor(a, b) % 2 == (a % 2 + b % 2) % 2
    ensures Xor(a, b) / 2 == (a / 2 + b / 2) % 2
  {
    if a == 0 || b == 0 || a == b {
      assert (a % 2 + b % 2) % 2 == Xor(a, b) % 2;
    } else if a == 1 {
      assert b == 2 || b == 3;
    } else if a == 2 {
      assert b == 1 || b == 3;
    }
  }

  lemma XorLaws(a: Tag, b: Tag, c: Tag)
    ensures Xor(a, b) == Xor(b, a)
    ensures Xor(Xor(a, b), c) == Xor(a, Xor(b, c))
    ensures Xor(a, a) == 0 && Xor(a, 0) == a
    ensures Xor(Xor(a, b), b) == a
    ensures Xor(a, b) == 0 <==> a == b
  {
  }

  lemma XorCancel(a: Tag, b: Tag)
    ensures Xor(a, Xor(a, b)) == b
    ensures Xor(a, b) == 0 <==> a == b
  {
  }

  // The label pairs whose XOR is a given nonzero change.
  function PairLeft(change: Tag): Tag { if change == 1 then 2 else 1 }
  function PairRight(change: Tag): Tag { if change == 3 then 2 else 3 }

  // ----- the five tagging schemes -----

  // Xor4:    2-bit symbols, tag = XOR of the symbols
  // Low2:    3-bit symbols, tag = XOR of the low two bits
  // LowBit8: 3-bit symbols, tag = parity of the low bits
  // LowBit4: 2-bit symbols, tag = low bit of the XOR
  // Lanes:   1-bit symbols, tag = parity of the even lanes + 2 * parity of the odd lanes
  datatype Scheme = Xor4 | Low2 | LowBit8 | LowBit4 | Lanes

  function Alphabet(scheme: Scheme): nat {
    match scheme
    case Xor4 => 4
    case Low2 => 8
    case LowBit8 => 8
    case LowBit4 => 4
    case Lanes => 2
  }

  function Tags(scheme: Scheme): nat {
    if scheme.LowBit8? || scheme.LowBit4? then 2 else 4
  }

  // The masks "& 1" and "& 3" on three-bit symbols, as tables.
  function LowBit(symbol: nat): Tag {
    if symbol == 1 || symbol == 3 || symbol == 5 || symbol == 7 then 1 else 0
  }

  function LowTwo(symbol: nat): Tag {
    if symbol < 4 then symbol else if symbol < 8 then symbol - 4 else 0
  }

  lemma TablesAreMasks(symbol: nat)
    requires symbol < 8
    ensures LowBit(symbol) == symbol % 2 && LowTwo(symbol) == symbol % 4
  {
  }

  predicate OddLane(position: nat) { position % 2 == 1 }

  function Label(scheme: Scheme, position: nat, symbol: nat): Tag {
    match scheme
    case Xor4 => LowTwo(symbol)
    case Low2 => LowTwo(symbol)
    case LowBit8 => LowBit(symbol)
    case LowBit4 => LowBit(symbol)
    case Lanes => if OddLane(position) then 2 * LowBit(symbol) else LowBit(symbol)
  }

  function TagOf(scheme: Scheme, symbols: seq<nat>): Tag {
    if |symbols| == 0 then 0
    else
      var n := |symbols| - 1;
      Xor(TagOf(scheme, symbols[..n]), Label(scheme, n, symbols[n]))
  }

  // A cost table: one row per weight, one entry per symbol.
  type Block = seq<seq<real>>

  predicate WellFormed(scheme: Scheme, costs: Block) {
    |costs| >= 2 && forall i :: 0 <= i < |costs| ==> |costs[i]| == Alphabet(scheme)
  }

  predicate Fits(scheme: Scheme, costs: Block, symbols: seq<nat>) {
    && |symbols| == |costs|
    && WellFormed(scheme, costs)
    && forall i :: 0 <= i < |symbols| ==> symbols[i] < Alphabet(scheme)
  }

  function Picked(scheme: Scheme, costs: Block, symbols: seq<nat>): (p: seq<real>)
    requires Fits(scheme, costs, symbols)
    ensures |p| == |symbols|
    ensures forall i :: 0 <= i < |p| ==> p[i] == costs[i][symbols[i]]
  {
    seq(|symbols|, i requires 0 <= i < |symbols| => costs[i][symbols[i]])
  }

  function Cost(scheme: Scheme, costs: Block, symbols: seq<nat>): real
    requires Fits(scheme, costs, symbols)
  {
    Sum(Picked(scheme, costs, symbols))
  }

  predicate Carries(scheme: Scheme, costs: Block, tag: Tag, symbols: seq<nat>) {
    Fits(scheme, costs, symbols) && TagOf(scheme, symbols) == tag
  }

  // The specification: c is the least cost of any symbol vector carrying the tag.
  ghost predicate ConstrainedMin(scheme: Scheme, costs: Block, tag: Tag, c: real) {
    && (exists v :: Carries(scheme, costs, tag, v) && Cost(scheme, costs, v) == c)
    && (forall v :: Carries(scheme, costs, tag, v) ==> c <= Cost(scheme, costs, v))
  }

  lemma ConstrainedMinUnique(scheme: Scheme, costs: Block, tag: Tag, c: real, d: real)
    requires ConstrainedMin(scheme, costs, tag, c) && ConstrainedMin(scheme, costs, tag, d)
    ensures c == d
  {
  }

  lemma ConstrainedMinFrom(scheme: Scheme, costs: Block, tag: Tag, c: real, w: seq<nat>)
    requires Carries(scheme, costs, tag, w) && Cost(scheme, costs, w) == c
    requires forall v :: Carries(scheme, costs, tag, v) ==> c <= Cost(scheme, costs, v)
    ensures ConstrainedMin(scheme, costs, tag, c)
  {
  }

  // ----- changing one symbol -----

  lemma {:induction false} TagUpdate(scheme: Scheme, v: seq<nat>, i: nat, s: nat)
    requires i < |v|
    ensures TagOf(scheme, v[i := s]) ==
            Xor(TagOf(scheme, v), Xor(Label(scheme, i, v[i]), Label(scheme, i, s)))
  {
    var n := |v| - 1;
    var front, w := v[..n], v[i := s];
    if i == n {
      assert w[..n] == front;
      XorChange(TagOf(scheme, front), Label(scheme, n, v[n]), Label(scheme, n, s));
    } else {
      assert w[..n] == front[i := s];
      TagUpdate(scheme, front, i, s);
      XorSwap(TagOf(scheme, front), Xor(Label(scheme, i, v[i]), Label(scheme, i, s)), Label(scheme, n, v[n]));
    }
  }

  lemma XorChange(a: Tag, x: Tag, y: Tag)
    ensures Xor(a, y) == Xor(Xor(a, x), Xor(x, y))
  {
  }

  lemma XorSwap(a: Tag, x: Tag, y: Tag)
    ensures Xor(Xor(a, x), y) == Xor(Xor(a, y), x)
  {
  }

  lemma CostUpdate(scheme: Scheme, costs: Block, v: seq<nat>, i: nat, s: nat)
    requires Fits(scheme, costs, v) && i < |v| && s < Alphabet(scheme)
    ensures Fits(scheme, costs, v[i := s])
    ensures Cost(scheme, costs, v[i := s]) == Cost(scheme, costs, v) - costs[i][v[i]] + costs[i][s]
  {
    SumUpdate(Picked(scheme, costs, v), i, costs[i][s]);
    assert Picked(scheme, costs, v[i := s]) == Picked(scheme, costs, v)[i := costs[i][s]];
  }

  // ----- the unconstrained best block -----

  predicate Cheapest(row: seq<real>, symbol: nat) {
    symbol < |row| && forall s :: 0 <= s < |row| ==> row[symbol] <= row[s]
  }

  predicate Pointwise(scheme: Scheme, costs: Block, base: seq<nat>) {
    && Fits(scheme, costs, base)
    && forall i :: 0 <= i < |base| ==> Cheapest(costs[i], base[i])
  }

  function BaseSymbols(scheme: Scheme, costs: Block): (base: seq<nat>)
    requires WellFormed(scheme, costs)
    ensures Pointwise(scheme, costs, base)
  {
    seq(|costs|, i requires 0 <= i < |costs| => ArgMin(costs[i]))
  }

  function BaseError(scheme: Scheme, costs: Block): real
    requires WellFormed(scheme, costs)
  {
    Cost(scheme, costs, BaseSymbols(scheme, costs))
  }

  // A block that agrees with the base everywhere except where it copies v costs no more than v.
  lemma PartialCopyCheaper(scheme: Scheme, costs: Block, base: seq<nat>, v: seq<nat>, w: seq<nat>)
    requires Pointwise(scheme, costs, base) && Fits(scheme, costs, v) && Fits(scheme, costs, w)
    requires forall i :: 0 <= i < |w| ==> w[i] == base[i] || w[i] == v[i]
    ensures Cost(scheme, costs, w) <= Cost(scheme, costs, v)
  {
    SumMonotone(Picked(scheme, costs, w), Picked(scheme, costs, v));
  }

  // ----- the group lemma -----

  function Change(scheme: Scheme, base: seq<nat>, v: seq<nat>, i: nat): Tag
    requires i < |base| == |v|
  {
    Xor(Label(scheme, i, base[i]), Label(scheme, i, v[i]))
  }

  // If every position changes its label by 0 or by x, the tag changes by 0 or by x.
  lemma {:induction false} TagChangeWithin(scheme: Scheme, base: seq<nat>, v: seq<nat>, x: Tag)
    requires |base| == |v|
    requires forall i :: 0 <= i < |v| ==> Change(scheme, base, v, i) == 0 || Change(scheme, base, v, i) == x
    ensures Xor(TagOf(scheme, base), TagOf(scheme, v)) in {0, x}
  {
    if v != [] {
      var n := |v| - 1;
      forall i | 0 <= i < n
        ensures Change(scheme, base[..n], v[..n], i) == Change(scheme, base, v, i)
      {
      }
      TagChangeWithin(scheme, base[..n], v[..n], x);
      XorPairs(TagOf(scheme, base[..n]), Label(scheme, n, base[n]), TagOf(scheme, v[..n]), Label(scheme, n, v[n]));
      assert Change(scheme, base, v, n) in {0, x};
    }
  }

  lemma XorPairs(a: Tag, x: Tag, b: Tag, y: Tag)
    ensures Xor(Xor(a, x), Xor(b, y)) == Xor(Xor(a, b), Xor(x, y))
  {
  }

  // The same, when three of the four labels may occur: x alone cannot produce the other two.
  lemma {:induction false} SomePositionChangesBy(scheme: Scheme, base: seq<nat>, v: seq<nat>, x: Tag, y: Tag)
      returns (i: nat)
    requires |base| == |v| && x != y && x != 0 && y != 0
    requires Xor(TagOf(scheme, base), TagOf(scheme, v)) == Xor(x, y)
    requires forall i :: 0 <= i < |v| ==> Change(scheme, base, v, i) != Xor(x, y)
    ensures i < |v| && Change(scheme, base, v, i) == x
  {
    XorLaws(x, y, 0);
    if forall k :: 0 <= k < |v| ==> Change(scheme, base, v, k) != x {
      forall k | 0 <= k < |v|
        ensures Change(scheme, base, v, k) == 0 || Change(scheme, base, v, k) == y
      {
        var c := Change(scheme, base, v, k);
        assert c == 0 || c == x || c == y || c == Xor(x, y);
      }
      TagChangeWithin(scheme, base, v, y);
      assert false;
    }
    i :| 0 <= i < |v| && Change(scheme, base, v, i) == x;
  }

  // Any vector v whose tag differs from the base's reduces to one copied position (i == j) or to
  // two copied positions, with v's tag and at most v's cost.
  lemma TwoRepairsSuffice(scheme: Scheme, costs: Block, base: seq<nat>, v: seq<nat>) returns (i: nat, j: nat)
    requires Pointwise(scheme, costs, base) && Fits(scheme, costs, v)
    requires TagOf(scheme, base) != TagOf(scheme, v)
    ensures i < |v| && j < |v|
    ensures var change := Xor(TagOf(scheme, base), TagOf(scheme, v));
      if i == j
      then Change(scheme, base, v, i) == change
      else Change(scheme, base, v, i) == PairLeft(change) && Change(scheme, base, v, j) == PairRight(change)
    ensures TagOf(scheme, base[i := v[i]][j := v[j]]) == TagOf(scheme, v)
    ensures Fits(scheme, costs, base[i := v[i]][j := v[j]])
    ensures Cost(scheme, costs, base[i := v[i]][j := v[j]]) <= Cost(scheme, costs, v)
  {
    hide Cost, TagOf;
    var b, t := TagOf(scheme, base), TagOf(scheme, v);
    var change := Xor(b, t);
    XorLaws(b, t, t);
    if k :| 0 <= k < |v| && Change(scheme, base, v, k) == change {
      i, j := k, k;
      assert base[i := v[i]][j := v[j]] == base[i := v[i]];
      TagUpdate(scheme, base, i, v[i]);
    } else {
      var x, y := PairLeft(change), PairRight(change);
      assert Xor(x, y) == change && Xor(y, x) == change;
      i := SomePositionChangesBy(scheme, base, v, x, y);
      j := SomePositionChangesBy(scheme, base, v, y, x);
      TagUpdate(scheme, base, i, v[i]);
      TagUpdate(scheme, base[i := v[i]], j, v[j]);
      XorLaws(b, x, y);
    }
    assert Xor(b, change) == t;
    PartialCopyCheaper(scheme, costs, base, v, base[i := v[i]][j := v[j]]);
  }
}
