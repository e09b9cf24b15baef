// How the Metal kernel reads a block's tag: population counts and XOR folds over the packed words,
// without unpacking a symbol. Proved to be the tag the symbols carry.
module TagKernel {
  import opened Bitwise
  import opened BitBuffer
  import opened Packing
  import opened Numeric
  import opened TagRepair
  import opened BlockCodec
  import opened MatrixCodec
  import opened Slices

  // ----- parity of bits -----

  function Odd(s: seq<bool>): bool {
    if |s| == 0 then false else Odd(s[..|s| - 1]) != s[|s| - 1]
  }

  lemma {:induction false} OddConcat(a: seq<bool>, b: seq<bool>)
    ensures Odd(a + b) == (Odd(a) != Odd(b))
    decreases |b|
  {
    if b == [] {
      assert a + b == a;
    } else {
      var n := |b| - 1;
      OddConcat(a, b[..n]);
      assert (a + b)[..|a + b| - 1] == a + b[..n];
    }
  }

  function Differ(a: seq<bool>, b: seq<bool>): (c: seq<bool>)
    requires |a| == |b|
    ensures |c| == |a| && forall i :: 0 <= i < |c| ==> c[i] == (a[i] != b[i])
  {
    seq(|a|, i requires 0 <= i < |a| => a[i] != b[i])
  }

  lemma {:induction false} OddDiffer(a: seq<bool>, b: seq<bool>)
    requires |a| == |b|
    ensures Odd(Differ(a, b)) == (Odd(a) != Odd(b))
  {
    if |a| > 0 {
      var n := |a| - 1;
      OddDiffer(a[..n], b[..n]);
      assert Differ(a, b)[..n] == Differ(a[..n], b[..n]);
    }
  }

  function Popcount(x: nat): nat { if x == 0 then 0 else x % 2 + Popcount(x / 2) }

  lemma {:induction false} PopcountOdd(x: nat, n: nat)
    requires x < Pow2(n)
    ensures (Popcount(x) % 2 == 1) == Odd(BitsOf(x, n))
  {
    if n > 0 {
      PopcountOdd(x / 2, n - 1);
      OddConcat([x % 2 == 1], BitsOf(x / 2, n - 1));
      OddOne(x % 2 == 1);
      assert Popcount(x) == x % 2 + Popcount(x / 2);
    }
  }

  lemma OddOne(b: bool)
    ensures Odd([b]) == b
  {
    assert [b][..0] == [];
  }

  lemma {:induction false} BitAnd(a: nat, b: nat, j: nat)
    ensures Bit(And(a, b), j) == (Bit(a, j) && Bit(b, j))
  {
    if a == 0 || b == 0 {
      ZeroBits(j);
    } else {
      var low := if a % 2 == 1 && b % 2 == 1 then 1 else 0;
      assert And(a, b) / 2 == And(a / 2, b / 2) && And(a, b) % 2 == low;
      if j > 0 { BitAnd(a / 2, b / 2, j - 1); }
    }
  }

  lemma {:induction false} AndAtMost(a: nat, b: nat)
    ensures And(a, b) <= a
  {
    if a > 0 && b > 0 { AndAtMost(a / 2, b / 2); }
  }

  lemma {:induction false} BitOfXor(a: nat, b: nat, j: nat)
    ensures Bit(BitXor(a, b), j) == (Bit(a, j) != Bit(b, j))
    decreases a + b, j
  {
    if a == 0 || b == 0 {
      ZeroBits(j);
    } else {
      var low := if a % 2 == b % 2 then 0 else 1;
      assert BitXor(a, b) / 2 == BitXor(a / 2, b / 2) && BitXor(a, b) % 2 == low;
      if j > 0 { BitOfXor(a / 2, b / 2, j - 1); }
    }
  }

  // ----- masks -----

  // The bits of s whose place, counted from `from`, is `lane` modulo `step`.
  function Lane(s: seq<bool>, step: nat, lane: nat, from: nat): (r: seq<bool>)
    requires step > 0
    ensures |r| == |s| && forall i :: 0 <= i < |r| ==> r[i] == (s[i] && OnLane(from + i, step, lane))
  {
    seq(|s|, i requires 0 <= i < |s| => s[i] && OnLane(from + i, step, lane))
  }

  predicate OnLane(k: nat, step: nat, lane: nat)
    requires step > 0
  {
    k % step == lane
  }

  // Ones at the places that are `lane` modulo `step`.
  predicate Pattern(x: nat, n: nat, step: nat, lane: nat)
    requires lane < step
  {
    n == 0 || ((x % 2 == 1) == (lane == 0) && Pattern(x / 2, n - 1, step, if lane == 0 then step - 1 else lane - 1))
  }

  lemma {:induction false} PatternBits(x: nat, n: nat, step: nat, lane: nat, i: nat)
    requires lane < step && Pattern(x, n, step, lane) && i < n
    ensures Bit(x, i) == OnLane(i, step, lane)
  {
    if i > 0 {
      PatternBits(x / 2, n - 1, step, if lane == 0 then step - 1 else lane - 1, i - 1);
      OneEarlier(i, step, lane);
    }
  }

  lemma OneEarlier(i: nat, step: nat, lane: nat)
    requires i > 0 && lane < step
    ensures i % step == lane <==> (i - 1) % step == if lane == 0 then step - 1 else lane - 1
  {
    var q, r := (i - 1) / step, (i - 1) % step;
    assert i - 1 == q * step + r;
    if r + 1 < step {
      SmallRemainder(i, q, r + 1, step);
    } else {
      NextMultiple(q + 1, step);
      SmallRemainder(i, q + 1, 0, step);
    }
  }

  lemma SmallRemainder(i: nat, q: nat, r: nat, step: nat)
    requires r < step && i == q * step + r
    ensures i % step == r
  {
    var p := i / step;
    assert i == p * step + i % step;
    Multiple(p - q, step);
    assert (p - q) * step == p * step - q * step;
  }

  const MASK0: nat := 0x4924_9249
  const MASK1: nat := 0x9249_2492
  const MASK2: nat := 0x2492_4924

  // 1, 1001, 1001001, ...
  function EveryThird(k: nat): nat { if k == 0 then 1 else 1 + 8 * EveryThird(k - 1) }

  function EverySecond(k: nat): nat { if k == 0 then 1 else 1 + 4 * EverySecond(k - 1) }

  lemma {:induction false} ThirdPattern(k: nat, n: nat)
    requires 1 <= n <= 3
    ensures Pattern(EveryThird(k), n + 3 * k, 3, 0)
  {
    if k == 0 {
      OnePattern(n, 3);
    } else {
      ThirdPattern(k - 1, n);
      var x, y, m := EveryThird(k), EveryThird(k - 1), n + 3 * (k - 1);
      assert x / 2 / 2 / 2 == y && x % 2 == 1 && x / 2 % 2 == 0 && x / 2 / 2 % 2 == 0;
      assert Pattern(x / 2 / 2, m + 1, 3, 1) && Pattern(x / 2, m + 2, 3, 2);
    }
  }

  lemma {:induction false} SecondPattern(k: nat, n: nat)
    requires 1 <= n <= 2
    ensures Pattern(EverySecond(k), n + 2 * k, 2, 0)
  {
    if k == 0 {
      OnePattern(n, 2);
    } else {
      SecondPattern(k - 1, n);
      var x, y, m := EverySecond(k), EverySecond(k - 1), n + 2 * (k - 1);
      assert x / 2 / 2 == y && x % 2 == 1 && x / 2 % 2 == 0;
      assert Pattern(x / 2, m + 1, 2, 1);
    }
  }

  lemma OnePattern(n: nat, step: nat)
    requires 1 <= n <= step <= 3
    ensures Pattern(1, n, step, 0)
  {
    assert Pattern(0, 0, step, 0);
    if n >= 2 { assert Pattern(0, n - 1, step, step - 1) by { ZeroPattern(n - 1, step, step - 1); } }
  }

  lemma {:induction false} ZeroPattern(n: nat, step: nat, lane: nat)
    requires n <= lane < step
    ensures Pattern(0, n, step, lane)
  {
    if n > 0 { ZeroPattern(n - 1, step, lane - 1); }
  }

  lemma MaskPatterns()
    ensures Pattern(MASK0, 32, 3, 0) && Pattern(MASK1, 32, 3, 1) && Pattern(MASK2, 32, 3, 2)
    ensures Pattern(0x5555_5555, 32, 2, 0) && Pattern(0xAAAA_AAAA, 32, 2, 1)
  {
    ThirdPattern(10, 2);
    ThirdPattern(10, 1);
    ThirdPattern(9, 3);
    SecondPattern(15, 2);
    SecondPattern(15, 1);
    ThirdValues();
    SecondValues();
    assert Pattern(MASK2 / 2, 31, 3, 1);
  }

  lemma ThirdValues()
    ensures EveryThird(9) == 0x924_9249 && EveryThird(10) == MASK0
  {
    assert EveryThird(2) == 73;
    assert EveryThird(4) == 4681;
    assert EveryThird(6) == 299593;
    assert EveryThird(8) == 19173961;
  }

  lemma SecondValues()
    ensures EverySecond(15) == 0x5555_5555
  {
    assert EverySecond(3) == 85;
    assert EverySecond(5) == 1365;
    assert EverySecond(7) == 21845;
    assert EverySecond(9) == 349525;
    assert EverySecond(11) == 5592405;
    assert EverySecond(13) == 89478485;
  }

  predicate SameLane(step: nat, at: nat, lane: nat, from: nat)
    requires step > 0
  {
    forall i :: 0 <= i < 32 ==> (OnLane(from + i, step, lane) <==> OnLane(i, step, at))
  }

  // A masked population count is odd just when the bits in the mask's lane are.
  lemma MaskedParity(word: nat, mask: nat, step: nat, at: nat, lane: nat, from: nat)
    requires word < 0x1_0000_0000 && at < step && Pattern(mask, 32, step, at)
    requires SameLane(step, at, lane, from)
    ensures (Popcount(And(word, mask)) % 2 == 1) == Odd(Lane(BitsOf(word, 32), step, lane, from))
  {
    hide Bit, And, Popcount, BitsOf, Odd, Pow2, Pattern, OnLane;
    WordPowers();
    AndAtMost(word, mask);
    PopcountOdd(And(word, mask), 32);
    var bits, lanes := BitsOf(And(word, mask), 32), Lane(BitsOf(word, 32), step, lane, from);
    forall i | 0 <= i < 32
      ensures bits[i] == lanes[i]
    {
      BitsOfAt(And(word, mask), 32, i);
      BitsOfAt(word, 32, i);
      BitAnd(word, mask, i);
      PatternBits(mask, 32, step, at, i);
    }
    assert bits == lanes;
  }

  // ----- words of a block -----

  // A little-endian 32-bit load.
  function Word(block: seq<nat>, k: nat): nat
    requires 4 * k + 4 <= |block|
  {
    Load(block, 4 * k)
  }

  function Load(block: seq<nat>, i: nat): nat
    requires i + 4 <= |block|
  {
    LittleEndian(block[i], block[i + 1], block[i + 2], block[i + 3])
  }

  function LittleEndian(a: nat, b: nat, c: nat, d: nat): nat { a + 0x100 * (b + 0x100 * (c + 0x100 * d)) }

  lemma ByteAbove(low: nat, high: nat, m: nat)
    requires low < 256
    ensures BitsOf(low + 0x100 * high, 8 + m) == BitsOf(low, 8) + BitsOf(high, m)
  {
    hide BitsOf, Shl;
    assert Pow2(8) == 256;
    ShlEight(high);
    SplitBits(low, 8, high, m);
  }

  lemma ShlEight(x: nat)
    ensures Shl(x, 8) == 256 * x
  {
    assert Shl(x, 8) == 2 * Shl(x, 7) && Shl(x, 7) == 2 * Shl(x, 6) && Shl(x, 6) == 2 * Shl(x, 5);
    assert Shl(x, 5) == 2 * Shl(x, 4) && Shl(x, 4) == 2 * Shl(x, 3) && Shl(x, 3) == 2 * Shl(x, 2);
    assert Shl(x, 2) == 2 * Shl(x, 1) && Shl(x, 1) == 2 * Shl(x, 0);
  }

  lemma ByteSlice(block: seq<nat>, i: nat, at: nat)
    requires i < |block| && at == 8 * i
    ensures at + 8 <= |Stream(block)| && Stream(block)[at..at + 8] == BitsOf(block[i], 8)
  {
    hide Stream, BitsOf, Bit;
    forall j | 0 <= j < 8
      ensures Stream(block)[at + j] == BitsOf(block[i], 8)[j]
    {
      StreamAt(block, i, j);
      BitsOfAt(block[i], 8, j);
    }
  }

  lemma FourBytes(a: nat, b: nat, c: nat, d: nat)
    requires a < 256 && b < 256 && c < 256 && d < 256
    ensures var w := LittleEndian(a, b, c, d);
      && w < 0x1_0000_0000
      && BitsOf(w, 32) == BitsOf(a, 8) + (BitsOf(b, 8) + (BitsOf(c, 8) + BitsOf(d, 8)))
  {
    hide BitsOf;
    ByteAbove(c, d, 8);
    ByteAbove(b, c + 0x100 * d, 16);
    ByteAbove(a, b + 0x100 * (c + 0x100 * d), 24);
    LoadBelow(a, b, c, d);
  }

  lemma LoadBelow(a: nat, b: nat, c: nat, d: nat)
    requires a < 256 && b < 256 && c < 256 && d < 256
    ensures LittleEndian(a, b, c, d) < 0x1_0000_0000
  {
  }

  lemma FourSlices(s: seq<bool>, k: nat, a: seq<bool>, b: seq<bool>, c: seq<bool>, d: seq<bool>)
    requires k + 32 <= |s|
    requires s[k..k + 8] == a && s[k + 8..k + 16] == b && s[k + 16..k + 24] == c && s[k + 24..k + 32] == d
    ensures s[k..k + 32] == a + (b + (c + d))
  {
    SliceSplit(s, k, k + 8, k + 32);
    SliceSplit(s, k + 8, k + 16, k + 32);
    SliceSplit(s, k + 16, k + 24, k + 32);
  }

  lemma WordBits(block: seq<nat>, k: nat)
    requires Bytes(block) && 4 * k + 4 <= |block|
    ensures Word(block, k) < 0x1_0000_0000
    ensures BitsOf(Word(block, k), 32) == Stream(block)[32 * k..32 * k + 32]
  {
    hide BitsOf, Stream, Load, Bytes;
    LoadBits(block, 4 * k, 32 * k);
  }

  lemma LoadBits(block: seq<nat>, i: nat, at: nat)
    requires Bytes(block) && i + 4 <= |block| && at == 8 * i
    ensures var w := Load(block, i);
      && w < 0x1_0000_0000 && at + 32 <= |Stream(block)|
      && BitsOf(w, 32) == Stream(block)[at..at + 32]
  {
    hide BitsOf, Stream, Pow2, LittleEndian;
    FourBytes(block[i], block[i + 1], block[i + 2], block[i + 3]);
    ByteSlice(block, i, at);
    ByteSlice(block, i + 1, at + 8);
    ByteSlice(block, i + 2, at + 16);
    ByteSlice(block, i + 3, at + 24);
    FourSlices(Stream(block), at, BitsOf(block[i], 8), BitsOf(block[i + 1], 8), BitsOf(block[i + 2], 8),
      BitsOf(block[i + 3], 8));
  }

  // ----- lanes of a block -----

  predicate BitAt(s: seq<bool>, k: int) { 0 <= k < |s| && s[k] }

  // Bit `lane` of every field of width `step`.
  function Strided(s: seq<bool>, step: nat, lane: nat, n: nat): (r: seq<bool>)
    ensures |r| == n && forall i :: 0 <= i < n ==> r[i] == BitAt(s, i * step + lane)
  {
    seq(n, i requires 0 <= i < n => BitAt(s, i * step + lane))
  }

  lemma {:induction false} LaneIsStrided(s: seq<bool>, step: nat, lane: nat, n: nat)
    requires lane < step && n * step == |s|
    ensures Odd(Lane(s, step, lane, 0)) == Odd(Strided(s, step, lane, n))
  {
    hide Odd;
    if n == 0 {
      assert Lane(s, step, lane, 0) == Strided(s, step, lane, n);
    } else {
      NextMultiple(n, step);
      TimesNat(n - 1, step);
      var at := (n - 1) * step;
      LaneIsStrided(s[..at], step, lane, n - 1);
      LaneSplit(s, step, lane, at);
      OneField(s[at..], step, lane, at, n - 1);
      StridedSnoc(s, step, lane, n);
      OddConcat(Strided(s[..at], step, lane, n - 1), [s[at + lane]]);
      OddOne(s[at + lane]);
    }
  }

  lemma LaneSplit(s: seq<bool>, step: nat, lane: nat, at: nat)
    requires lane < step && at <= |s|
    ensures Odd(Lane(s, step, lane, 0)) == (Odd(Lane(s[..at], step, lane, 0)) != Odd(Lane(s[at..], step, lane, at)))
  {
    hide Odd;
    assert Lane(s, step, lane, 0) == Lane(s[..at], step, lane, 0) + Lane(s[at..], step, lane, at);
    OddConcat(Lane(s[..at], step, lane, 0), Lane(s[at..], step, lane, at));
  }

  lemma StridedSnoc(s: seq<bool>, step: nat, lane: nat, n: nat)
    requires lane < step && n > 0 && n * step == |s|
    ensures var at := (n - 1) * step;
      && 0 <= at && at + lane < |s| && at + step == |s|
      && Strided(s, step, lane, n) == Strided(s[..at], step, lane, n - 1) + [s[at + lane]]
  {
    NextMultiple(n, step);
    TimesNat(n - 1, step);
    var at := (n - 1) * step;
    var a, b := Strided(s, step, lane, n), Strided(s[..at], step, lane, n - 1);
    forall i | 0 <= i < n - 1
      ensures a[i] == b[i]
    {
      Slot(i, n - 1, step);
    }
    assert a == b + [s[at + lane]];
  }

  // One whole field has one bit in the lane.
  lemma OneField(field: seq<bool>, step: nat, lane: nat, from: nat, q: nat)
    requires |field| == step && lane < step && from == q * step
    ensures Odd(Lane(field, step, lane, from)) == field[lane]
  {
    hide Odd;
    var s := Lane(field, step, lane, from);
    forall i | 0 <= i < step
      ensures s[i] == (field[i] && i == lane)
    {
      SmallRemainder(from + i, q, i, step);
    }
    OnlyAt(s, lane);
  }

  lemma {:induction false} OnlyAt(s: seq<bool>, at: nat)
    requires at < |s| && forall i :: 0 <= i < |s| && i != at ==> !s[i]
    ensures Odd(s) == s[at]
  {
    var n := |s| - 1;
    if at < n {
      OnlyAt(s[..n], at);
    } else {
      NoneSet(s[..n]);
    }
  }

  lemma {:induction false} NoneSet(s: seq<bool>)
    requires forall i :: 0 <= i < |s| ==> !s[i]
    ensures !Odd(s)
  {
    if |s| > 0 { NoneSet(s[..|s| - 1]); }
  }

  // ----- labels of symbols -----

  function BitOfEach(symbols: seq<nat>, j: nat): (s: seq<bool>)
    ensures |s| == |symbols| && forall i :: 0 <= i < |s| ==> s[i] == Bit(symbols[i], j)
  {
    seq(|symbols|, i requires 0 <= i < |symbols| => Bit(symbols[i], j))
  }

  lemma StridedIsBits(symbols: seq<nat>, bits: nat, j: nat)
    requires j < bits
    ensures Strided(FieldsStream(symbols, bits), bits, j, |symbols|) == BitOfEach(symbols, j)
  {
    hide FieldsStream, BitsOf, Bit;
    var s := FieldsStream(symbols, bits);
    forall i | 0 <= i < |symbols|
      ensures Strided(s, bits, j, |symbols|)[i] == BitOfEach(symbols, j)[i]
    {
      FieldsStreamAt(symbols, bits, i);
      BitsOfAt(symbols[i], bits, j);
      assert s[i * bits..i * bits + bits][j] == s[i * bits + j];
    }
  }

  lemma OddSnoc(s: seq<bool>)
    requires |s| > 0
    ensures Odd(s) == (Odd(s[..|s| - 1]) != s[|s| - 1])
  {
  }

  lemma XorParities(a: Tag, b: Tag)
    ensures (Xor(a, b) % 2 == 1) == ((a % 2 == 1) != (b % 2 == 1))
    ensures (Xor(a, b) / 2 == 1) == ((a / 2 == 1) != (b / 2 == 1))
  {
    XorIsBitwise(a, b);
  }

  lemma LowTwoBits(symbol: nat)
    requires symbol < 8
    ensures LowTwo(symbol) % 2 == (if Bit(symbol, 0) then 1 else 0)
    ensures LowTwo(symbol) / 2 == (if Bit(symbol, 1) then 1 else 0)
  {
    assert Bit(symbol, 1) == Bit(symbol / 2, 0);
  }

  // The tag's two bits are the parities of the symbols' low two bits.
  lemma {:induction false} TagIsParities(scheme: Scheme, symbols: seq<nat>)
    requires scheme.Xor4? || scheme.Low2?
    requires forall i :: 0 <= i < |symbols| ==> symbols[i] < 8
    ensures (TagOf(scheme, symbols) % 2 == 1) == Odd(BitOfEach(symbols, 0))
    ensures (TagOf(scheme, symbols) / 2 == 1) == Odd(BitOfEach(symbols, 1))
  {
    hide Bit, Odd, Xor, LowTwo;
    if |symbols| == 0 {
      NoneSet(BitOfEach(symbols, 0));
      NoneSet(BitOfEach(symbols, 1));
    } else {
      var n := |symbols| - 1;
      TagIsParities(scheme, symbols[..n]);
      LowTwoBits(symbols[n]);
      XorParities(TagOf(scheme, symbols[..n]), LowTwo(symbols[n]));
      OddSnoc(BitOfEach(symbols, 0));
      OddSnoc(BitOfEach(symbols, 1));
      assert BitOfEach(symbols, 0)[..n] == BitOfEach(symbols[..n], 0);
      assert BitOfEach(symbols, 1)[..n] == BitOfEach(symbols[..n], 1);
    }
  }

  lemma LaneLabel(n: nat, symbol: nat)
    requires symbol < 2
    ensures (Label(Lanes, n, symbol) % 2 == 1) == (Bit(symbol, 0) && OnLane(n, 2, 0))
    ensures (Label(Lanes, n, symbol) / 2 == 1) == (Bit(symbol, 0) && OnLane(n, 2, 1))
  {
  }

  // One-bit symbols: the parities of the even and of the odd lanes.
  lemma {:induction false} TagIsLanes(symbols: seq<nat>)
    requires forall i :: 0 <= i < |symbols| ==> symbols[i] < 2
    ensures (TagOf(Lanes, symbols) % 2 == 1) == Odd(Lane(BitOfEach(symbols, 0), 2, 0, 0))
    ensures (TagOf(Lanes, symbols) / 2 == 1) == Odd(Lane(BitOfEach(symbols, 0), 2, 1, 0))
  {
    hide Bit, OnLane, Xor, Label, Odd;
    if |symbols| == 0 {
      NoneSet(Lane(BitOfEach(symbols, 0), 2, 0, 0));
      NoneSet(Lane(BitOfEach(symbols, 0), 2, 1, 0));
    } else {
      var n := |symbols| - 1;
      TagIsLanes(symbols[..n]);
      LaneLabel(n, symbols[n]);
      XorParities(TagOf(Lanes, symbols[..n]), Label(Lanes, n, symbols[n]));
      var s := BitOfEach(symbols, 0);
      OddSnoc(Lane(s, 2, 0, 0));
      OddSnoc(Lane(s, 2, 1, 0));
      assert s[..n] == BitOfEach(symbols[..n], 0);
      assert Lane(s, 2, 0, 0)[..n] == Lane(s[..n], 2, 0, 0);
      assert Lane(s, 2, 1, 0)[..n] == Lane(s[..n], 2, 1, 0);
    }
  }

  // ----- the kernel -----

  function Parity(count: nat): nat { And(count, 1) }

  // One-bit symbols: one word, its even and odd bits.
  function LowOfOne(block: seq<nat>): nat
    requires |block| == 4
  {
    var word := Word(block, 0);
    Or(Parity(Popcount(And(word, 0x5555_5555))), Shl(Parity(Popcount(And(word, 0xAAAA_AAAA))), 1))
  }

  // Two-bit symbols: two words folded onto their low two bits.
  function LowOfTwo(block: seq<nat>): nat
    requires |block| == 8
  {
    var f0 := BitXor(Word(block, 0), Word(block, 1));
    var f1 := BitXor(f0, Shr(f0, 16));
    var f2 := BitXor(f1, Shr(f1, 8));
    var f3 := BitXor(f2, Shr(f2, 4));
    var f4 := BitXor(f3, Shr(f3, 2));
    And(f4, 3)
  }

  // Three-bit symbols straddle the words, so the masks rotate.
  function LowOfThree(block: seq<nat>): nat
    requires |block| == 12
  {
    var w0, w1, w2 := Word(block, 0), Word(block, 1), Word(block, 2);
    var low := Popcount(And(w0, MASK0)) + Popcount(And(w1, MASK1)) + Popcount(And(w2, MASK2));
    var high := Popcount(And(w0, MASK1)) + Popcount(And(w1, MASK2)) + Popcount(And(w2, MASK0));
    Or(Parity(low), Shl(Parity(high), 1))
  }

  lemma ParityIs(count: nat)
    ensures Parity(count) == count % 2
  {
    if count > 0 { assert And(count / 2, 0) == 0; }
  }

  // Two parities side by side are the two bits of a tag.
  lemma TwoParities(low: nat, high: nat, t: Tag)
    requires (low % 2 == 1) == (t % 2 == 1) && (high % 2 == 1) == (t / 2 == 1)
    ensures Or(Parity(low), Shl(Parity(high), 1)) == t
  {
    hide Or, Parity;
    ParityIs(low);
    ParityIs(high);
    var a, b := Parity(low), Parity(high);
    assert Pow2(1) == 2;
    assert Shl(b, 1) == 2 * Shl(b, 0);
    OrAdds(a, 1, b);
  }

  predicate Packed(block: seq<nat>, symbols: seq<nat>, bits: nat) {
    Bytes(block) && |block| == 4 * bits && |symbols| == BLOCK && Stream(block) == FieldsStream(symbols, bits)
  }

  lemma OneWord(block: seq<nat>, step: nat, lane: nat, mask: nat)
    requires Bytes(block) && |block| == 4 && lane < step && Pattern(mask, 32, step, lane)
    ensures (Popcount(And(Word(block, 0), mask)) % 2 == 1) == Odd(Lane(Stream(block), step, lane, 0))
  {
    hide Word, BitsOf, Odd, Stream, And, Popcount, Pattern;
    WordBits(block, 0);
    MaskedParity(Word(block, 0), mask, step, lane, lane, 0);
    assert Stream(block)[0..32] == Stream(block);
  }

  lemma LowOfOneIsTag(block: seq<nat>, symbols: seq<nat>)
    requires Packed(block, symbols, 1) && forall i :: 0 <= i < |symbols| ==> symbols[i] < 2
    ensures LowOfOne(block) == TagOf(Lanes, symbols)
  {
    hide Word, Odd, Stream, And, Popcount, Pattern, Or, Shl, FieldsStream, Bit, TagOf;
    MaskPatterns();
    OneWord(block, 2, 0, 0x5555_5555);
    OneWord(block, 2, 1, 0xAAAA_AAAA);
    StridedIsBits(symbols, 1, 0);
    AllStrided(Stream(block));
    TagIsLanes(symbols);
    var word := Word(block, 0);
    TwoParities(Popcount(And(word, 0x5555_5555)), Popcount(And(word, 0xAAAA_AAAA)), TagOf(Lanes, symbols));
  }

  lemma AllStrided(s: seq<bool>)
    ensures Strided(s, 1, 0, |s|) == s
  {
  }

  // A lane moves on by one from word to word, 32 being 2 modulo 3.
  lemma WordLanes(lane: nat)
    requires lane < 3
    ensures SameLane(3, lane, lane, 0) && SameLane(3, (lane + 1) % 3, lane, 32) && SameLane(3, (lane + 2) % 3, lane, 64)
  {
  }

  // The three masked words together select one lane of the block.
  lemma ThreeWords(block: seq<nat>, lane: nat, m0: nat, m1: nat, m2: nat)
    requires Bytes(block) && |block| == 12 && lane < 3
    requires Pattern(m0, 32, 3, lane) && Pattern(m1, 32, 3, (lane + 1) % 3) && Pattern(m2, 32, 3, (lane + 2) % 3)
    ensures ((Popcount(And(Word(block, 0), m0)) + Popcount(And(Word(block, 1), m1)) + Popcount(And(Word(block, 2), m2)))
      % 2 == 1) == Odd(Lane(Stream(block), 3, lane, 0))
  {
    hide Word, BitsOf, Odd, Stream, And, Popcount, Pattern, SameLane, OnLane, Lane, Pow2;
    WordBits(block, 0);
    WordBits(block, 1);
    WordBits(block, 2);
    WordLanes(lane);
    MaskedParity(Word(block, 0), m0, 3, lane, lane, 0);
    MaskedParity(Word(block, 1), m1, 3, (lane + 1) % 3, lane, 32);
    MaskedParity(Word(block, 2), m2, 3, (lane + 2) % 3, lane, 64);
    ThreeLanes(Stream(block), lane);
  }

  lemma ThreeLanes(s: seq<bool>, lane: nat)
    requires |s| == 96
    ensures Odd(Lane(s, 3, lane, 0))
      == (Odd(Lane(s[0..32], 3, lane, 0)) != (Odd(Lane(s[32..64], 3, lane, 32)) != Odd(Lane(s[64..96], 3, lane, 64))))
  {
    hide Odd;
    var a, b, c := Lane(s[0..32], 3, lane, 0), Lane(s[32..64], 3, lane, 32), Lane(s[64..96], 3, lane, 64);
    assert Lane(s, 3, lane, 0) == a + (b + c);
    OddConcat(a, b + c);
    OddConcat(b, c);
  }

  lemma LowOfThreeIsTag(block: seq<nat>, symbols: seq<nat>)
    requires Packed(block, symbols, 3) && forall i :: 0 <= i < |symbols| ==> symbols[i] < 8
    ensures LowOfThree(block) == TagOf(Low2, symbols)
  {
    hide Word, Odd, Stream, And, Popcount, Pattern, Or, Shl, FieldsStream, Bit, TagOf, Lane, Strided, BitOfEach, Parity;
    MaskPatterns();
    ThreeWords(block, 0, MASK0, MASK1, MASK2);
    ThreeWords(block, 1, MASK1, MASK2, MASK0);
    LaneIsStrided(Stream(block), 3, 0, BLOCK);
    LaneIsStrided(Stream(block), 3, 1, BLOCK);
    StridedIsBits(symbols, 3, 0);
    StridedIsBits(symbols, 3, 1);
    TagIsParities(Low2, symbols);
    var w0, w1, w2 := Word(block, 0), Word(block, 1), Word(block, 2);
    TwoParities(Popcount(And(w0, MASK0)) + Popcount(And(w1, MASK1)) + Popcount(And(w2, MASK2)),
      Popcount(And(w0, MASK1)) + Popcount(And(w1, MASK2)) + Popcount(And(w2, MASK0)), TagOf(Low2, symbols));
  }

  // ----- folding -----

  // Bit j of the first m two-bit fields of x.
  function FieldBits(x: nat, m: nat, j: nat): (s: seq<bool>)
    ensures |s| == m && forall i :: 0 <= i < m ==> s[i] == Bit(x, 2 * i + j)
  {
    seq(m, i requires 0 <= i < m => Bit(x, 2 * i + j))
  }

  // Folding the upper half onto the lower keeps the parity.
  lemma FoldKeeps(x: nat, m: nat, j: nat)
    ensures Odd(FieldBits(BitXor(x, Shr(x, 2 * m)), m, j)) == Odd(FieldBits(x, 2 * m, j))
  {
    hide Odd, Bit, BitXor, Shr;
    var low, high := FieldBits(x, m, j), FieldBits(Shr(x, 2 * m), m, j);
    var folded := FieldBits(BitXor(x, Shr(x, 2 * m)), m, j);
    forall i | 0 <= i < m
      ensures folded[i] == (low[i] != high[i])
      ensures high[i] == FieldBits(x, 2 * m, j)[m + i]
    {
      BitOfXor(x, Shr(x, 2 * m), 2 * i + j);
      BitShr(x, 2 * m, 2 * i + j);
    }
    assert folded == Differ(low, high);
    OddDiffer(low, high);
    assert FieldBits(x, 2 * m, j) == low + high;
    OddConcat(low, high);
  }

  lemma WordFields(block: seq<nat>, k: nat, j: nat)
    requires Bytes(block) && 4 * k + 4 <= |block| && j < 2
    ensures forall i :: 0 <= i < 16 ==> 0 <= 32 * k + (2 * i + j) < |Stream(block)|
    ensures forall i :: 0 <= i < 16 ==> FieldBits(Word(block, k), 16, j)[i] == Stream(block)[32 * k + (2 * i + j)]
  {
    hide Word, Stream, Bit, BitsOf;
    WordBits(block, k);
    forall i | 0 <= i < 16
      ensures FieldBits(Word(block, k), 16, j)[i] == Stream(block)[32 * k + (2 * i + j)]
    {
      BitsOfAt(Word(block, k), 32, 2 * i + j);
      assert Stream(block)[32 * k..32 * k + 32][2 * i + j] == Stream(block)[32 * k + (2 * i + j)];
    }
  }

  lemma TwoWords(block: seq<nat>, symbols: seq<nat>, j: nat)
    requires Packed(block, symbols, 2) && j < 2
    ensures Odd(FieldBits(BitXor(Word(block, 0), Word(block, 1)), 16, j)) == Odd(BitOfEach(symbols, j))
  {
    hide Odd, Word, Stream, Bit, FieldsStream, BitXor;
    var w0, w1 := Word(block, 0), Word(block, 1);
    var a, b := FieldBits(w0, 16, j), FieldBits(w1, 16, j);
    WordFields(block, 0, j);
    WordFields(block, 1, j);
    StridedIsBits(symbols, 2, j);
    forall i | 0 <= i < 16
      ensures FieldBits(BitXor(w0, w1), 16, j)[i] == (a[i] != b[i])
    {
      BitOfXor(w0, w1, 2 * i + j);
    }
    assert FieldBits(BitXor(w0, w1), 16, j) == Differ(a, b);
    OddDiffer(a, b);
    assert a + b == Strided(Stream(block), 2, j, BLOCK);
    OddConcat(a, b);
  }

  lemma Folds(f0: nat, j: nat)
    requires j < 2
    ensures var f1 := BitXor(f0, Shr(f0, 16));
      var f2 := BitXor(f1, Shr(f1, 8));
      var f3 := BitXor(f2, Shr(f2, 4));
      var f4 := BitXor(f3, Shr(f3, 2));
      Bit(f4, j) == Odd(FieldBits(f0, 16, j))
  {
    hide Odd, Bit, BitXor, Shr;
    var f1 := BitXor(f0, Shr(f0, 16));
    var f2 := BitXor(f1, Shr(f1, 8));
    var f3 := BitXor(f2, Shr(f2, 4));
    var f4 := BitXor(f3, Shr(f3, 2));
    FoldKeeps(f0, 8, j);
    FoldKeeps(f1, 4, j);
    FoldKeeps(f2, 2, j);
    FoldKeeps(f3, 1, j);
    assert FieldBits(f4, 1, j) == [Bit(f4, j)];
    OddOne(Bit(f4, j));
  }

  lemma AndThree(x: nat, t: Tag)
    requires Bit(x, 0) == (t % 2 == 1) && Bit(x, 1) == (t / 2 == 1)
    ensures And(x, 3) == t
  {
    assert Bit(x, 1) == Bit(x / 2, 0);
    ParityIs(x / 2);
  }

  lemma LowOfTwoIsTag(block: seq<nat>, symbols: seq<nat>)
    requires Packed(block, symbols, 2) && forall i :: 0 <= i < |symbols| ==> symbols[i] < 4
    ensures LowOfTwo(block) == TagOf(Xor4, symbols)
  {
    hide Word, Odd, Stream, And, BitXor, Shr, FieldsStream, Bit, TagOf;
    var f0 := BitXor(Word(block, 0), Word(block, 1));
    TwoWords(block, symbols, 0);
    TwoWords(block, symbols, 1);
    Folds(f0, 0);
    Folds(f0, 1);
    TagIsParities(Xor4, symbols);
    var f1 := BitXor(f0, Shr(f0, 16));
    var f2 := BitXor(f1, Shr(f1, 8));
    var f3 := BitXor(f2, Shr(f2, 4));
    AndThree(BitXor(f3, Shr(f3, 2)), TagOf(Xor4, symbols));
  }

  // ----- a block of a stored matrix -----

  function KernelTag(symbols: seq<nat>, selectors: seq<nat>, j: nat, bits: nat): nat
    requires 1 <= bits <= 3 && (j + 1) * (4 * bits) <= |symbols| && j / 8 < |selectors|
  {
    TimesNat(j, 4 * bits);
    NextMultiple(j + 1, 4 * bits);
    var block := symbols[j * (4 * bits)..j * (4 * bits) + 4 * bits];
    var low := if bits == 1 then LowOfOne(block) else if bits == 2 then LowOfTwo(block) else LowOfThree(block);
    Or(low, Shl(And(Shr(selectors[j / 8], j % 8), 1), 2))
  }

  lemma LowIsTag(scheme: Scheme, block: seq<nat>, symbols: seq<nat>, bits: nat)
    requires Tags(scheme) == 4 && bits == SymbolBits(scheme) && Packed(block, symbols, bits)
    requires forall i :: 0 <= i < |symbols| ==> symbols[i] < Alphabet(scheme)
    ensures (if bits == 1 then LowOfOne(block) else if bits == 2 then LowOfTwo(block) else LowOfThree(block))
      == TagOf(scheme, symbols)
  {
    hide LowOfOne, LowOfTwo, LowOfThree, TagOf, Stream, FieldsStream;
    match scheme
    case Lanes => LowOfOneIsTag(block, symbols);
    case Xor4 => LowOfTwoIsTag(block, symbols);
    case Low2 => LowOfThreeIsTag(block, symbols);
    case _ =>
  }

  // A block's bytes are its own symbols' fields: no block shares a byte with another.
  lemma BlockBytes(symbols: seq<seq<nat>>, packed: seq<nat>, j: nat, bits: nat)
    requires Width(symbols, BLOCK) && j < |symbols| && Bytes(packed)
    requires Stream(packed) == FieldsStream(Flatten(symbols), bits)
    ensures 0 <= j * (4 * bits) && j * (4 * bits) + 4 * bits <= |packed|
    ensures Packed(packed[j * (4 * bits)..j * (4 * bits) + 4 * bits], symbols[j], bits)
  {
    hide FieldsStream, Stream, Flatten, Width, Bytes;
    var flat := Flatten(symbols);
    FlattenSlice(symbols, BLOCK, j);
    Sizes(j, |symbols|, bits, |flat|, |packed|);
    SymbolsApart(flat, j * BLOCK, symbols[j], bits);
    StreamSlice(packed, j * (4 * bits), j * (4 * bits) + 4 * bits);
  }

  // Fields of consecutive symbols are consecutive bits.
  lemma SymbolsApart(flat: seq<nat>, at: nat, mine: seq<nat>, bits: nat)
    requires at + |mine| <= |flat| && flat[at..at + |mine|] == mine
    ensures 0 <= at * bits && at * bits + |mine| * bits <= |FieldsStream(flat, bits)|
    ensures FieldsStream(flat, bits)[at * bits..at * bits + |mine| * bits] == FieldsStream(mine, bits)
  {
    hide FieldsStream;
    var front, rest := flat[..at], flat[at + |mine|..];
    assert flat == front + (mine + rest);
    FieldsStreamConcat(front, mine + rest, bits);
    FieldsStreamConcat(mine, rest, bits);
    TimesNat(at, bits);
    MiddleSlice(FieldsStream(front, bits), FieldsStream(mine, bits), FieldsStream(rest, bits));
  }

  lemma MiddleSlice(a: seq<bool>, b: seq<bool>, c: seq<bool>)
    ensures (a + (b + c))[|a|..|a| + |b|] == b
  {
  }

  lemma Sizes(j: nat, m: nat, bits: nat, flat: nat, bytes: nat)
    requires j < m && flat == m * BLOCK && 8 * bytes == flat * bits
    ensures 0 <= j * (4 * bits) && j * (4 * bits) + 4 * bits <= bytes
    ensures (j * BLOCK) * bits == 8 * (j * (4 * bits)) && BLOCK * bits == 8 * (4 * bits)
  {
    Slot(j, m, 4 * bits);
    ThirtyTwofold(m, bits);
    ThirtyTwofold(j, bits);
  }

  lemma ThirtyTwofold(m: nat, bits: nat)
    ensures (m * BLOCK) * bits == 8 * (m * (4 * bits))
  {
    var p := m * bits;
    assert (m * BLOCK) * bits == 32 * p;
    assert m * (4 * bits) == 4 * p;
  }

  lemma {:induction false} StreamSlice(data: seq<nat>, lo: nat, hi: nat)
    requires lo <= hi <= |data| && Bytes(data)
    ensures Bytes(data[lo..hi]) && Stream(data[lo..hi]) == Stream(data)[8 * lo..8 * hi]
  {
    hide Stream;
    var a, b, c := data[..lo], data[lo..hi], data[hi..];
    assert data == a + (b + c);
    StreamConcat(a, b + c);
    StreamConcat(b, c);
    MiddleSlice(Stream(a), Stream(b), Stream(c));
  }

  lemma SymbolStream(f: Format, c: Content)
    requires ContentOk(f, c)
    ensures var packed := PackSymbols(f.scheme, Flatten(c.symbols));
      Bytes(packed) && Stream(packed) == FieldsStream(Flatten(c.symbols), SymbolBits(f.scheme))
  {
    hide PackBits, FieldsStream, TwoBitByte, Flatten, Stream, TagOf, Pow2;
    var flat := Flatten(c.symbols);
    FlattenLength(c.symbols, BLOCK);
    FlattenAll(c.symbols, x => x < Alphabet(f.scheme));
    PowersUsed();
    SymbolBytes(f.scheme, flat, c.rows * c.blocks);
    if Alphabet(f.scheme) == 4 {
      TwoBitPacks(flat);
    } else {
      PackBitsHolds(FieldsStream(flat, SymbolBits(f.scheme)));
      WholeStream(PackBits(FieldsStream(flat, SymbolBits(f.scheme))), FieldsStream(flat, SymbolBits(f.scheme)));
    }
  }

  lemma WholeStream(data: seq<nat>, prefix: seq<bool>)
    requires Holds(data, prefix) && |prefix| == 8 * |data|
    ensures Stream(data) == prefix
  {
    hide Stream;
    assert Stream(data)[..|prefix|] == Stream(data);
  }

  lemma SelectorBit(selectors: seq<nat>, s: seq<bool>, j: nat)
    requires Holds(selectors, s) && j < |s|
    ensures j / 8 < |selectors| && And(Shr(selectors[j / 8], j % 8), 1) == if s[j] then 1 else 0
  {
    hide Stream, Bit, And, Shr;
    var i, k := j / 8, j % 8;
    StreamAt(selectors, i, k);
    assert 8 * i + k == j && Stream(selectors)[j] == Stream(selectors)[..|s|][j];
    BitShr(selectors[i], k, 0);
    BitZero(Shr(selectors[i], k));
    ParityIs(Shr(selectors[i], k));
  }

  lemma BitZero(x: nat)
    ensures Bit(x, 0) == (x % 2 == 1)
  {
  }

  // Whatever the payload, the kernel reads every block's tag as the encoder chose it.
  lemma KernelReadsTags(f: Format, c: Content, base: int, j: nat)
    requires ContentOk(f, c) && f.tags == 8 && j < |c.tags|
    ensures var p, bits := Serialize(f, c, base), SymbolBits(f.scheme);
      && 0 <= j * (4 * bits) && (j + 1) * (4 * bits) <= |p.symbols| && j / 8 < |p.selectors|
      && KernelTag(p.symbols, p.selectors, j, bits) == c.tags[j]
  {
    hide PackBits, PackSymbols, Flatten, FieldsStream, Stream, TagOf, Or, Shl, Shr, And, LowOfOne, LowOfTwo,
      LowOfThree, Bytes, Holds;
    var bits := SymbolBits(f.scheme);
    var p := Serialize(f, c, base);
    SymbolStream(f, c);
    BlockBytes(c.symbols, p.symbols, j, bits);
    NextMultiple(j + 1, 4 * bits);
    LowIsTag(f.scheme, p.symbols[j * (4 * bits)..j * (4 * bits) + 4 * bits], c.symbols[j], bits);
    PackBitsHolds(HighBits(f.scheme, c.tags));
    SelectorBit(p.selectors, HighBits(f.scheme, c.tags), j);
    TagRestored(f, c.tags[j], c.symbols[j]);
    OrCommutes(TagOf(f.scheme, c.symbols[j]), Shl(if HighBits(f.scheme, c.tags)[j] then 1 else 0, 2));
  }
}
