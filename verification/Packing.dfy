// The payload packers and unpackers, the bit-by-bit oracle, and the proof that they all describe
// one layout: the values' bits, low bit first, one after another, zero padded to a byte.
module Packing {
  import opened Bitwise
  import opened BitBuffer
  import opened Numeric
  import opened Options
  import opened Slices

  // ----- the layout -----

  function FieldsStream(values: seq<nat>, bits: nat): (s: seq<bool>)
    ensures |s| == |values| * bits
  {
    if |values| == 0 then [] else FieldsStream(values[..|values| - 1], bits) + BitsOf(values[|values| - 1], bits)
  }

  predicate InRange(values: seq<nat>, bits: nat) {
    forall i :: 0 <= i < |values| ==> values[i] < Pow2(bits)
  }

  // The one byte string that packs these values.
  predicate Packs(packed: seq<nat>, values: seq<nat>, bits: nat) {
    |packed| == (|values| * bits + 7) / 8 && Holds(packed, FieldsStream(values, bits))
  }

  lemma PacksUnique(a: seq<nat>, b: seq<nat>, values: seq<nat>, bits: nat)
    requires Packs(a, values, bits) && Packs(b, values, bits)
    ensures a == b
  {
    assert Stream(a) == Stream(b) by {
      var n := |values| * bits;
      forall k | 0 <= k < |Stream(a)|
        ensures Stream(a)[k] == Stream(b)[k]
      {
        if k < n {
          assert Stream(a)[k] == Stream(a)[..n][k] && Stream(b)[k] == Stream(b)[..n][k];
        }
      }
    }
    StreamInjective(a, b);
  }

  lemma FieldsSnoc(values: seq<nat>, v: nat, bits: nat)
    ensures FieldsStream(values + [v], bits) == FieldsStream(values, bits) + BitsOf(v, bits)
  {
    assert (values + [v])[..|values|] == values;
  }

  lemma {:induction false} FieldsStreamConcat(a: seq<nat>, b: seq<nat>, bits: nat)
    ensures FieldsStream(a + b, bits) == FieldsStream(a, bits) + FieldsStream(b, bits)
    decreases |b|
  {
    hide FieldsStream, BitsOf;
    if |b| == 0 {
      assert a + b == a && b == [];
      NoFields(bits);
    } else {
      var n := |b| - 1;
      var front, v := b[..n], b[n];
      FieldsStreamConcat(a, front, bits);
      assert b == front + [v] && a + b == (a + front) + [v];
      FieldsSnoc(front, v, bits);
      FieldsSnoc(a + front, v, bits);
    }
  }

  lemma NoFields(bits: nat)
    ensures FieldsStream([], bits) == []
  {
  }

  lemma {:induction false} FieldsStreamAt(values: seq<nat>, bits: nat, i: nat)
    requires i < |values|
    ensures 0 <= i * bits && i * bits + bits <= |values| * bits
    ensures FieldsStream(values, bits)[i * bits..i * bits + bits] == BitsOf(values[i], bits)
  {
    hide FieldsStream, BitsOf;
    var n := |values| - 1;
    Slot(i, |values|, bits);
    FieldsLast(values, bits);
    var front, last := FieldsStream(values[..n], bits), BitsOf(values[n], bits);
    if i < n {
      FieldsStreamAt(values[..n], bits, i);
      SliceOfHead(front, last, i * bits, i * bits + bits);
    } else {
      SliceOfTail(front, last, 0, bits);
      assert last[0..bits] == last;
    }
  }

  lemma FieldsLast(values: seq<nat>, bits: nat)
    requires |values| > 0
    ensures FieldsStream(values, bits)
      == FieldsStream(values[..|values| - 1], bits) + BitsOf(values[|values| - 1], bits)
  {
  }

  // ----- the oracle: one bit at a time -----

  method Pack(values: seq<nat>, bits: nat) returns (out: Option<seq<nat>>)
    ensures out.Some? <==> InRange(values, bits)
    ensures out.Some? ==> Packs(out.value, values, bits)
  {
    hide Holds, Pow2, FieldsStream, InRange;
    NoFields(bits);
    NoneOutOfRange(bits);
    var buffer := new nat[(|values| * bits + 7) / 8](i => 0);
    EmptyHolds(buffer[..]);
    for i := 0 to |values|
      invariant InRange(values[..i], bits)
      invariant Holds(buffer[..], FieldsStream(values[..i], bits))
    {
      OneMoreInRange(values, bits, i);
      if values[i] >= Pow2(bits) {
        return None;
      }
      Slot(i, |values|, bits);
      AppendField(buffer, i * bits, bits, values[i], FieldsStream(values[..i], bits));
      FieldsSnoc(values[..i], values[i], bits);
      assert values[..i + 1] == values[..i] + [values[i]];
    }
    assert values[..|values|] == values;
    out := Some(buffer[..]);
  }

  lemma NoneOutOfRange(bits: nat)
    ensures InRange([], bits)
  {
  }

  lemma OneMoreInRange(values: seq<nat>, bits: nat, i: nat)
    requires i < |values| && InRange(values[..i], bits)
    ensures InRange(values[..i + 1], bits) <==> values[i] < Pow2(bits)
    ensures values[i] >= Pow2(bits) ==> !InRange(values, bits)
  {
    assert values[..i + 1][i] == values[i];
    assert forall j :: 0 <= j < i ==> values[..i + 1][j] == values[..i][j];
  }

  method AppendField(data: array<nat>, target: nat, width: nat, value: nat, ghost prefix: seq<bool>)
    requires Holds(data[..], prefix) && |prefix| == target && target + width <= 8 * data.Length
    modifies data
    ensures Holds(data[..], prefix + BitsOf(value, width))
  {
    OrIntoZeros(Stream(data[..]), target, BitsOf(value, width));
    PutBits(data, target, width, value);
  }

  // ----- packbits / unpackbits, little bit order -----

  function PackBits(s: seq<bool>): (packed: seq<nat>)
    ensures |packed| == (|s| + 7) / 8
  {
    if |s| == 0 then []
    else if |s| <= 8 then [ValueOf(s)]
    else [ValueOf(s[..8])] + PackBits(s[8..])
  }

  // The first `count` bits, zero padded when the buffer is shorter.
  function UnpackBits(packed: seq<nat>, count: nat): (s: seq<bool>)
    ensures |s| == count
  {
    if count <= 8 * |packed| then Stream(packed)[..count] else Stream(packed) + ZeroStream(count - 8 * |packed|)
  }

  lemma {:induction false} BitsOfPadded(s: seq<bool>, n: nat)
    requires |s| <= n
    ensures BitsOf(ValueOf(s), n) == s + ZeroStream(n - |s|)
  {
    if |s| == 0 {
      ZeroBitsOf(n);
    } else {
      BitsOfPadded(s[1..], n - 1);
      assert s == [s[0]] + s[1..];
    }
  }

  lemma {:induction false} ZeroBitsOf(n: nat)
    ensures BitsOf(0, n) == ZeroStream(n)
  {
    if n > 0 { ZeroBitsOf(n - 1); }
  }

  lemma {:induction false} PackBitsHolds(s: seq<bool>)
    ensures Holds(PackBits(s), s)
    decreases |s|
  {
    hide BitsOf, ValueOf, Holds;
    if |s| == 0 {
      EmptyHolds([]);
    } else if |s| <= 8 {
      ByteHolds(s);
    } else {
      ByteHolds(s[..8]);
      PackBitsHolds(s[8..]);
      HoldsMore([ValueOf(s[..8])], s[..8], PackBits(s[8..]), s[8..]);
      assert s == s[..8] + s[8..];
    }
  }

  lemma ByteHolds(s: seq<bool>)
    requires |s| <= 8
    ensures Holds([ValueOf(s)], s)
  {
    hide BitsOf, ValueOf, Stream;
    BitsOfValue(s);
    BitsOfPadded(s, 8);
    SmallPow2(|s|);
    StreamOne(ValueOf(s));
  }

  lemma HoldsMore(front: seq<nat>, a: seq<bool>, rest: seq<nat>, b: seq<bool>)
    requires Holds(front, a) && Holds(rest, b) && |a| == 8 * |front|
    ensures Holds(front + rest, a + b)
  {
    hide Stream;
    StreamConcat(front, rest);
    assert Stream(front) == a;
  }

  lemma SmallPow2(n: nat)
    requires n <= 8
    ensures Pow2(n) <= 256
  {
    assert Pow2(8) == 256;
    if n < 8 { Pow2Monotone(n, 8); }
  }

  lemma StreamOne(b: nat)
    ensures Stream([b]) == BitsOf(b, 8)
  {
    StreamSnoc([], b);
    assert [] + [b] == [b];
  }

  // Selector bits are laid out as fields of width one,
  function ZeroOnes(s: seq<bool>): (values: seq<nat>)
    ensures |values| == |s| && forall i :: 0 <= i < |s| ==> values[i] == if s[i] then 1 else 0
  {
    seq(|s|, i requires 0 <= i < |s| => if s[i] then 1 else 0)
  }

  lemma {:induction false} FieldsOfBits(s: seq<bool>)
    ensures FieldsStream(ZeroOnes(s), 1) == s
  {
    if |s| > 0 {
      var n := |s| - 1;
      FieldsOfBits(s[..n]);
      assert ZeroOnes(s)[..n] == ZeroOnes(s[..n]);
      assert BitsOf(ZeroOnes(s)[n], 1) == [s[n]];
    }
  }

  // so their bytes are the oracle's.
  lemma PackBitsMatchesOracle(s: seq<bool>)
    ensures InRange(ZeroOnes(s), 1) && Packs(PackBits(s), ZeroOnes(s), 1)
  {
    PackBitsHolds(s);
    FieldsOfBits(s);
    assert Pow2(1) == 2;
  }

  lemma PackBitsBytes(s: seq<bool>)
    ensures Bytes(PackBits(s))
  {
    PackBitsHolds(s);
  }

  lemma UnpackPackBits(s: seq<bool>)
    ensures UnpackBits(PackBits(s), |s|) == s
  {
    PackBitsHolds(s);
  }

  // ----- fixed-width packing -----

  function PackFixedWidth(values: seq<nat>, bits: int): (packed: Option<seq<nat>>)
  {
    if bits <= 0 || bits > 16 || |values| == 0 || !InRange(values, bits) then None
    else Some(PackBits(FieldsStream(values, bits)))
  }

  // Row i of the count-by-bits matrix, weighted by powers of two.
  function FieldAt(s: seq<bool>, bits: nat, i: nat): nat {
    if 0 <= i * bits && i * bits + bits <= |s| then ValueOf(s[i * bits..i * bits + bits]) else 0
  }

  function Fields(s: seq<bool>, bits: nat, count: nat): (values: seq<nat>)
    ensures |values| == count
    ensures forall i :: 0 <= i < count ==> values[i] == FieldAt(s, bits, i)
  {
    seq(count, i requires 0 <= i < count => FieldAt(s, bits, i))
  }

  function UnpackFixedWidth(packed: seq<nat>, bits: int, count: int): (values: Option<seq<nat>>)
  {
    if bits <= 0 || bits > 16 || count <= 0 then None
    else Some(Fields(UnpackBits(packed, count * bits), bits, count))
  }

  lemma FieldOfStream(values: seq<nat>, bits: nat, i: nat)
    requires InRange(values, bits) && i < |values|
    ensures FieldAt(FieldsStream(values, bits), bits, i) == values[i]
  {
    hide FieldsStream, BitsOf, ValueOf, Pow2;
    FieldsStreamAt(values, bits, i);
    ValueOfBits(values[i], bits);
  }

  lemma FieldsOfStream(values: seq<nat>, bits: nat)
    requires InRange(values, bits)
    ensures Fields(FieldsStream(values, bits), bits, |values|) == values
  {
    hide FieldsStream, FieldAt;
    forall i | 0 <= i < |values|
      ensures FieldAt(FieldsStream(values, bits), bits, i) == values[i]
    {
      FieldOfStream(values, bits, i);
    }
  }

  lemma FixedWidthPacks(values: seq<nat>, bits: int)
    requires PackFixedWidth(values, bits).Some?
    ensures Packs(PackFixedWidth(values, bits).value, values, bits)
  {
    PackBitsHolds(FieldsStream(values, bits));
  }

  // A short read is impossible: whatever packs the values gives them back.
  lemma UnpackAnyPacking(packed: seq<nat>, values: seq<nat>, bits: nat)
    requires 0 < bits <= 16 && |values| > 0 && InRange(values, bits) && Packs(packed, values, bits)
    ensures UnpackFixedWidth(packed, bits, |values|) == Some(values)
  {
    FieldsOfStream(values, bits);
  }

  // ----- two-bit symbols and four-bit codes, packed by shifts -----

  function TwoBitByte(a: nat, b: nat, c: nat, d: nat): nat {
    Or(Or(Or(a, Shl(b, 2)), Shl(c, 4)), Shl(d, 6))
  }

  function PackTwoBit(symbols: seq<nat>): (packed: Option<seq<nat>>)
  {
    if |symbols| % 4 != 0 then None
    else Some(TwoBitBytes(symbols))
  }

  function TwoBitBytes(symbols: seq<nat>): (packed: seq<nat>)
    ensures |packed| == |symbols| / 4
  {
    seq(|symbols| / 4, k requires 0 <= k < |symbols| / 4 =>
      TwoBitByte(symbols[4 * k], symbols[4 * k + 1], symbols[4 * k + 2], symbols[4 * k + 3]))
  }

  function TwoBitSymbol(byte: nat, lane: nat): nat
    requires lane < 4
  {
    Low(Shr(byte, 2 * lane), 2)
  }

  function UnpackTwoBit(packed: seq<nat>): (symbols: seq<nat>)
    ensures |symbols| == 4 * |packed|
  {
    seq(4 * |packed|, i requires 0 <= i < 4 * |packed| => TwoBitSymbol(packed[i / 4], i % 4))
  }

  function NibbleByte(a: nat, b: nat): nat { Or(a, Shl(b, 4)) }

  function PackNibbles(codes: seq<nat>): (packed: Option<seq<nat>>)
  {
    if |codes| % 2 != 0 || !InRange(codes, 4) then None else Some(NibbleBytes(codes))
  }

  function NibbleBytes(codes: seq<nat>): (packed: seq<nat>)
    ensures |packed| == |codes| / 2
  {
    seq(|codes| / 2, k requires 0 <= k < |codes| / 2 => NibbleByte(codes[2 * k], codes[2 * k + 1]))
  }

  function UnpackNibbles(packed: seq<nat>): (codes: seq<nat>)
    ensures |codes| == 2 * |packed|
  {
    seq(2 * |packed|, i requires 0 <= i < 2 * |packed| =>
      if i % 2 == 0 then Low(packed[i / 2], 4) else Shr(packed[i / 2], 4))
  }

  // Two stacked fields are the bits of one after the other.
  lemma {:induction false} SplitBits(low: nat, n: nat, high: nat, m: nat)
    requires low < Pow2(n)
    ensures BitsOf(low + Shl(high, n), n + m) == BitsOf(low, n) + BitsOf(high, m)
  {
    if n > 0 {
      var v := low + Shl(high, n);
      assert Shl(high, n) == 2 * Shl(high, n - 1);
      assert v / 2 == low / 2 + Shl(high, n - 1) && v % 2 == low % 2;
      SplitBits(low / 2, n - 1, high, m);
    }
  }

  lemma {:induction false} StackBelow(low: nat, n: nat, high: nat, m: nat)
    requires low < Pow2(n) && high < Pow2(m)
    ensures low + Shl(high, n) < Pow2(n + m)
  {
    if n > 0 {
      StackBelow(low / 2, n - 1, high, m);
      assert Shl(high, n) == 2 * Shl(high, n - 1);
    }
  }

  // Stacking `high` above an n-bit `low`.
  lemma Stacked(low: nat, n: nat, high: nat, m: nat)
    requires low < Pow2(n) && high < Pow2(m)
    ensures Or(low, Shl(high, n)) < Pow2(n + m)
    ensures BitsOf(Or(low, Shl(high, n)), n + m) == BitsOf(low, n) + BitsOf(high, m)
  {
    OrAdds(low, n, high);
    SplitBits(low, n, high, m);
    StackBelow(low, n, high, m);
  }

  lemma TwoBitByteBits(a: nat, b: nat, c: nat, d: nat)
    requires a < 4 && b < 4 && c < 4 && d < 4
    ensures TwoBitByte(a, b, c, d) < 256
    ensures BitsOf(TwoBitByte(a, b, c, d), 8) == BitsOf(a, 2) + BitsOf(b, 2) + BitsOf(c, 2) + BitsOf(d, 2)
  {
    hide Or, Shl, BitsOf;
    assert Pow2(2) == 4 && Pow2(8) == 256;
    Stacked(a, 2, b, 2);
    Stacked(Or(a, Shl(b, 2)), 4, c, 2);
    Stacked(Or(Or(a, Shl(b, 2)), Shl(c, 4)), 6, d, 2);
  }

  lemma FieldsOne(v: nat, bits: nat)
    ensures FieldsStream([v], bits) == BitsOf(v, bits)
  {
    assert [v][..0] == [];
  }

  lemma {:induction false} TwoBitPacks(symbols: seq<nat>)
    requires |symbols| % 4 == 0 && InRange(symbols, 2)
    ensures Bytes(TwoBitBytes(symbols)) && Stream(TwoBitBytes(symbols)) == FieldsStream(symbols, 2)
  {
    hide FieldsStream, BitsOf, TwoBitByte;
    if |symbols| == 0 {
      assert symbols == [];
      NoFields(2);
    } else {
      var n := |symbols| - 4;
      var front, last := symbols[..n], symbols[n..];
      var a, b, c, d := symbols[n], symbols[n + 1], symbols[n + 2], symbols[n + 3];
      assert Pow2(2) == 4;
      TwoBitPacks(front);
      TwoBitByteBits(a, b, c, d);
      assert n == 4 * (n / 4);
      assert TwoBitBytes(symbols) == TwoBitBytes(front) + [TwoBitByte(a, b, c, d)];
      StreamSnoc(TwoBitBytes(front), TwoBitByte(a, b, c, d));
      FourFields(a, b, c, d);
      assert symbols == front + [a, b, c, d];
      FieldsStreamConcat(front, [a, b, c, d], 2);
    }
  }

  lemma FourFields(a: nat, b: nat, c: nat, d: nat)
    ensures FieldsStream([a, b, c, d], 2) == BitsOf(a, 2) + BitsOf(b, 2) + BitsOf(c, 2) + BitsOf(d, 2)
  {
    hide FieldsStream, BitsOf;
    FieldsOne(a, 2);
    FieldsSnoc([a], b, 2);
    FieldsSnoc([a, b], c, 2);
    FieldsSnoc([a, b, c], d, 2);
    assert [a] + [b] == [a, b] && [a, b] + [c] == [a, b, c] && [a, b, c] + [d] == [a, b, c, d];
  }

  lemma NibbleByteBits(a: nat, b: nat)
    requires a < Pow2(4) && b < Pow2(4)
    ensures NibbleByte(a, b) < 256 && BitsOf(NibbleByte(a, b), 8) == BitsOf(a, 4) + BitsOf(b, 4)
  {
    hide Or, Shl, BitsOf;
    assert Pow2(8) == 256;
    Stacked(a, 4, b, 4);
  }

  lemma {:induction false} NibblePacks(codes: seq<nat>)
    requires |codes| % 2 == 0 && InRange(codes, 4)
    ensures Bytes(NibbleBytes(codes)) && Stream(NibbleBytes(codes)) == FieldsStream(codes, 4)
  {
    hide FieldsStream, BitsOf, NibbleByte, Pow2;
    if |codes| == 0 {
      assert codes == [];
      NoFields(4);
    } else {
      var n := |codes| - 2;
      var front, a, b := codes[..n], codes[n], codes[n + 1];
      NibblePacks(front);
      NibbleByteBits(a, b);
      assert n == 2 * (n / 2);
      assert NibbleBytes(codes) == NibbleBytes(front) + [NibbleByte(a, b)];
      StreamSnoc(NibbleBytes(front), NibbleByte(a, b));
      TwoFields(a, b);
      assert codes == front + [a, b];
      FieldsStreamConcat(front, [a, b], 4);
    }
  }

  lemma TwoFields(a: nat, b: nat)
    ensures FieldsStream([a, b], 4) == BitsOf(a, 4) + BitsOf(b, 4)
  {
    hide FieldsStream, BitsOf;
    FieldsOne(a, 4);
    FieldsSnoc([a], b, 4);
    assert [a] + [b] == [a, b];
  }

  // ----- unpackers undo packers -----

  lemma PackTwoBitMatchesOracle(symbols: seq<nat>)
    requires |symbols| % 4 == 0 && InRange(symbols, 2)
    ensures PackTwoBit(symbols).Some? && Packs(PackTwoBit(symbols).value, symbols, 2)
  {
    TwoBitPacks(symbols);
  }

  lemma PackNibblesMatchesOracle(codes: seq<nat>)
    requires |codes| % 2 == 0 && InRange(codes, 4)
    ensures PackNibbles(codes).Some? && Packs(PackNibbles(codes).value, codes, 4)
  {
    NibblePacks(codes);
  }

  lemma {:induction false} LowIsBits(x: nat, n: nat)
    ensures Low(x, n) == ValueOf(BitsOf(x, n))
  {
    if n > 0 {
      LowIsBits(x / 2, n - 1);
      assert BitsOf(x, n)[1..] == BitsOf(x / 2, n - 1);
    }
  }

  lemma {:induction false} ShrBits(x: nat, k: nat, n: nat)
    ensures BitsOf(Shr(x, k), n) == BitsOf(x, k + n)[k..]
  {
    if k > 0 {
      ShrBits(x / 2, k - 1, n);
      assert BitsOf(x, k + n)[k..] == BitsOf(x / 2, k - 1 + n)[k - 1..];
    }
  }

  // (x >> k) & (2^n - 1) reads bits k .. k + n.
  lemma {:induction false} MaskReads(x: nat, k: nat, n: nat, width: nat)
    requires k + n <= width
    ensures Low(Shr(x, k), n) == ValueOf(BitsOf(x, width)[k..k + n])
  {
    LowIsBits(Shr(x, k), n);
    ShrBits(x, k, n);
    BitsOfTake(x, k + n, width);
    assert BitsOf(x, width)[k..k + n] == BitsOf(x, k + n)[k..];
  }

  lemma {:induction false} BitsOfTake(x: nat, n: nat, width: nat)
    requires n <= width
    ensures BitsOf(x, width)[..n] == BitsOf(x, n)
  {
    if n > 0 {
      BitsOfTake(x / 2, n - 1, width - 1);
    }
  }

  lemma UnpackTwoBitInverts(symbols: seq<nat>)
    requires |symbols| % 4 == 0 && InRange(symbols, 2)
    ensures UnpackTwoBit(TwoBitBytes(symbols)) == symbols
  {
    hide BitsOf, ValueOf, Low, Shr, TwoBitByte;
    var packed := TwoBitBytes(symbols);
    assert Pow2(2) == 4;
    forall i | 0 <= i < |symbols|
      ensures UnpackTwoBit(packed)[i] == symbols[i]
    {
      var k, lane := i / 4, i % 4;
      assert i == 4 * k + lane;
      TwoBitSymbolReads(symbols[4 * k], symbols[4 * k + 1], symbols[4 * k + 2], symbols[4 * k + 3], lane);
    }
  }

  lemma TwoBitSymbolReads(a: nat, b: nat, c: nat, d: nat, lane: nat)
    requires a < 4 && b < 4 && c < 4 && d < 4 && lane < 4
    ensures TwoBitSymbol(TwoBitByte(a, b, c, d), lane) == [a, b, c, d][lane]
  {
    hide BitsOf, ValueOf, Low, Shr, TwoBitByte;
    assert Pow2(2) == 4;
    var v := [a, b, c, d][lane];
    TwoBitByteBits(a, b, c, d);
    MaskReads(TwoBitByte(a, b, c, d), 2 * lane, 2, 8);
    ValueOfBits(v, 2);
    assert BitsOf(TwoBitByte(a, b, c, d), 8)[2 * lane..2 * lane + 2] == BitsOf(v, 2);
  }

  lemma NibbleReads(a: nat, b: nat)
    requires a < 16 && b < 16
    ensures Low(NibbleByte(a, b), 4) == a && Shr(NibbleByte(a, b), 4) == b
  {
    hide BitsOf, ValueOf, Or, Shl;
    assert Pow2(4) == 16 && Pow2(8) == 256;
    var x := NibbleByte(a, b);
    NibbleByteBits(a, b);
    MaskReads(x, 0, 4, 8);
    assert Shr(x, 0) == x;
    assert BitsOf(x, 8)[0..4] == BitsOf(a, 4);
    ValueOfBits(a, 4);
    MaskReads(x, 4, 4, 8);
    assert BitsOf(x, 8)[4..8] == BitsOf(b, 4);
    ValueOfBits(b, 4);
    ShrFour(x);
    LowOfSmall(x / 16, 4);
  }

  lemma ShrFour(x: nat)
    ensures Shr(x, 4) == x / 16
  {
    assert Shr(x, 4) == Shr(x / 2, 3);
    assert Shr(x / 2, 3) == Shr(x / 2 / 2, 2);
    assert Shr(x / 2 / 2, 2) == Shr(x / 2 / 2 / 2, 1);
    assert Shr(x / 2 / 2 / 2, 1) == Shr(x / 2 / 2 / 2 / 2, 0);
  }

  lemma {:induction false} LowOfSmall(x: nat, n: nat)
    requires x < Pow2(n)
    ensures Low(x, n) == x
  {
    if n > 0 { LowOfSmall(x / 2, n - 1); }
  }

  lemma UnpackNibblesInverts(codes: seq<nat>)
    requires |codes| % 2 == 0 && InRange(codes, 4)
    ensures UnpackNibbles(NibbleBytes(codes)) == codes
  {
    hide Low, Shr, NibbleByte;
    assert Pow2(4) == 16;
    var packed := NibbleBytes(codes);
    forall i | 0 <= i < |codes|
      ensures UnpackNibbles(packed)[i] == codes[i]
    {
      var k := i / 2;
      assert i == 2 * k || i == 2 * k + 1;
      NibbleReads(codes[2 * k], codes[2 * k + 1]);
    }
  }

  lemma UnpackFixedWidthInverts(values: seq<nat>, bits: int)
    requires PackFixedWidth(values, bits).Some?
    ensures UnpackFixedWidth(PackFixedWidth(values, bits).value, bits, |values|) == Some(values)
  {
    FixedWidthPacks(values, bits);
    UnpackAnyPacking(PackFixedWidth(values, bits).value, values, bits);
  }
}
