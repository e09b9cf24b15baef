// Reading and OR-writing bit fields of a byte buffer.
module BitBuffer {
  import opened Bitwise

  // A stream after `field` has been OR-ed in at bit `at`.
  function OrInto(s: seq<bool>, at: nat, field: seq<bool>): (r: seq<bool>)
    requires at + |field| <= |s|
    ensures |r| == |s|
    ensures forall k :: 0 <= k < |s| ==> r[k] == (s[k] || (at <= k < at + |field| && field[k - at]))
  {
    seq(|s|, k requires 0 <= k < |s| => s[k] || (at <= k < at + |field| && field[k - at]))
  }

  // A stream whose bits from `at` on are still zero.
  predicate ZeroFrom(s: seq<bool>, at: nat) {
    at <= |s| && forall k :: at <= k < |s| ==> !s[k]
  }

  lemma OrIntoZeros(s: seq<bool>, at: nat, field: seq<bool>)
    requires at + |field| <= |s| && ZeroFrom(s, at)
    ensures OrInto(s, at, field)[..at + |field|] == s[..at] + field
    ensures ZeroFrom(OrInto(s, at, field), at + |field|)
  {
  }

  lemma {:induction false} BitsOfFront(v: nat, i: nat)
    ensures BitsOf(v, i + 1) == BitsOf(v, i) + [Bit(v, i)]
  {
    if i > 0 {
      BitsOfFront(v / 2, i - 1);
    }
  }

  method GetBits(data: seq<nat>, bit: nat, bits: nat) returns (value: nat)
    requires bit + bits <= 8 * |data|
    ensures value == ValueOf(Stream(data)[bit..bit + bits])
  {
    hide Or, Shl, Shr, Low, Stream, ValueOf;
    value := 0;
    assert Stream(data)[bit..bit] == [];
    NoBits();
    for i := 0 to bits
      invariant value == ValueOf(Stream(data)[bit..bit + i])
    {
      ReadBit(data, bit, i, value);
      value := Or(value, Shl(Low(Shr(data[(bit + i) / 8], (bit + i) % 8), 1), i));
    }
  }

  lemma NoBits()
    ensures ValueOf([]) == 0
  {
  }

  // One iteration of the read: bit `bit + i` lands above the i bits read so far.
  lemma ReadBit(data: seq<nat>, bit: nat, i: nat, value: nat)
    requires bit + i < 8 * |data| && value == ValueOf(Stream(data)[bit..bit + i])
    ensures Or(value, Shl(Low(Shr(data[(bit + i) / 8], (bit + i) % 8), 1), i))
      == ValueOf(Stream(data)[bit..bit + i + 1])
  {
    hide Or, Shl, Shr, Low, Stream, ValueOf;
    var s := Stream(data);
    var here := s[bit..bit + i];
    var byte, k := data[(bit + i) / 8], (bit + i) % 8;
    SplitIndex(bit + i);
    StreamAt(data, (bit + i) / 8, k);
    LowIsBit(byte, k);
    BitsOfValue(here);
    var one := Low(Shr(byte, k), 1);
    OneIsPow2(i, one);
    OrAdds(value, i, one);
    ValueSnoc(here, s[bit + i]);
    assert s[bit..bit + i + 1] == here + [s[bit + i]];
  }

  lemma SplitIndex(k: nat)
    ensures k == 8 * (k / 8) + k % 8 && k % 8 < 8
  {
  }

  lemma {:induction false} OneIsPow2(i: nat, b: nat)
    requires b < 2
    ensures Shl(b, i) == if b == 1 then Pow2(i) else 0
  {
    if i > 0 { OneIsPow2(i - 1, b); }
  }

  method PutBits(data: array<nat>, bit: nat, bits: nat, value: nat)
    requires bit + bits <= 8 * data.Length && Bytes(data[..])
    modifies data
    ensures Bytes(data[..])
    ensures Stream(data[..]) == OrInto(old(Stream(data[..])), bit, BitsOf(value, bits))
  {
    hide Bit, Or, Shl, Stream, BitsOf;
    ghost var before := Stream(data[..]);
    assert OrInto(before, bit, BitsOf(value, 0)) == before;
    for i := 0 to bits
      invariant Bytes(data[..])
      invariant Stream(data[..]) == OrInto(before, bit, BitsOf(value, i))
    {
      var at := bit + i;
      var one := Low(Shr(value, i), 1);
      ghost var was := data[..];
      LowIsBit(value, i);
      data[at / 8] := Or(data[at / 8], Shl(one, at % 8));
      assert data[..] == WithBit(was, at, Bit(value, i));
      WithBitStream(was, at, Bit(value, i));
      BitsOfFront(value, i);
      assert Stream(data[..]) == OrInto(before, bit, BitsOf(value, i + 1));
    }
  }

  lemma LowIsBit(value: nat, i: nat)
    ensures Low(Shr(value, i), 1) == if Bit(value, i) then 1 else 0
  {
    BitShr(value, i, 0);
  }

  // A buffer whose bits are `prefix` followed by zeros.
  predicate Holds(data: seq<nat>, prefix: seq<bool>) {
    && Bytes(data)
    && |prefix| <= 8 * |data|
    && Stream(data)[..|prefix|] == prefix
    && ZeroFrom(Stream(data), |prefix|)
  }

  lemma EmptyHolds(data: seq<nat>)
    requires forall i :: 0 <= i < |data| ==> data[i] == 0
    ensures Holds(data, [])
  {
    StreamOfZeros(data);
  }

  // put_bits(data, target, width, get_bits(source, at, width)) at the end of what is written.
  method CopyField(data: array<nat>, target: nat, width: nat, source: seq<nat>, at: nat, ghost prefix: seq<bool>)
    requires Holds(data[..], prefix) && |prefix| == target && target + width <= 8 * data.Length
    requires at + width <= 8 * |source|
    modifies data
    ensures Holds(data[..], prefix + Stream(source)[at..at + width])
  {
    var value := GetBits(source, at, width);
    ghost var field := Stream(source)[at..at + width];
    BitsOfValue(field);
    OrIntoZeros(Stream(data[..]), target, field);
    PutBits(data, target, width, value);
  }

  // Two fields read back equal exactly when their bits are equal.
  method SameField(a: seq<nat>, at: nat, b: seq<nat>, bt: nat, width: nat) returns (same: bool)
    requires at + width <= 8 * |a| && bt + width <= 8 * |b|
    ensures same <==> Stream(a)[at..at + width] == Stream(b)[bt..bt + width]
  {
    var x := GetBits(a, at, width);
    var y := GetBits(b, bt, width);
    BitsOfValue(Stream(a)[at..at + width]);
    BitsOfValue(Stream(b)[bt..bt + width]);
    same := x == y;
  }
}
