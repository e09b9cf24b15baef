// Unsigned machine words as natural numbers with their bit operations, and byte buffers as streams
// of bits, least significant bit first.
module Bitwise {
  import Numeric

  // ----- words -----

  function Pow2(n: nat): (p: nat)
    ensures p > 0
  {
    if n == 0 then 1 else 2 * Pow2(n - 1)
  }

  lemma {:induction false} Pow2Monotone(m: nat, n: nat)
    requires m <= n
    ensures Pow2(m) <= Pow2(n)
  {
    if m < n { Pow2Monotone(m, n - 1); }
  }

  // Bit j of x.
  predicate Bit(x: nat, j: nat) {
    if j == 0 then x % 2 == 1 else Bit(x / 2, j - 1)
  }

  function Or(a: nat, b: nat): nat
    decreases a + b
  {
    if a == 0 then b else if b == 0 then a
    else 2 * Or(a / 2, b / 2) + (if a % 2 == 1 || b % 2 == 1 then 1 else 0)
  }

  function And(a: nat, b: nat): nat {
    if a == 0 || b == 0 then 0
    else 2 * And(a / 2, b / 2) + (if a % 2 == 1 && b % 2 == 1 then 1 else 0)
  }

  function BitXor(a: nat, b: nat): nat
    decreases a + b
  {
    if a == 0 then b else if b == 0 then a
    else 2 * BitXor(a / 2, b / 2) + (if a % 2 == b % 2 then 0 else 1)
  }

  function Shl(x: nat, k: nat): nat { if k == 0 then x else 2 * Shl(x, k - 1) }

  function Shr(x: nat, k: nat): nat { if k == 0 then x else Shr(x / 2, k - 1) }

  // x & (2^n - 1)
  function Low(x: nat, n: nat): nat { if n == 0 then 0 else x % 2 + 2 * Low(x / 2, n - 1) }

  predicate Nibbles(values: seq<nat>) {
    forall i :: 0 <= i < |values| ==> values[i] < 16
  }

  lemma {:induction false} AndSelf(a: nat)
    ensures And(a, a) == a
  {
    if a > 0 { AndSelf(a / 2); }
  }

  ghost predicate PowerOfTwo(n: nat) { exists k: nat :: n == Pow2(k) }

  lemma DoublePower(n: nat)
    ensures PowerOfTwo(2 * n) <==> 2 * n == 1 || PowerOfTwo(n)
  {
    if k: nat :| n == Pow2(k) {
      assert 2 * n == Pow2(k + 1);
    }
    if k: nat :| 2 * n == Pow2(k) {
      assert n == Pow2(k - 1);
    }
  }

  lemma OddPower(n: nat)
    requires n % 2 == 1
    ensures PowerOfTwo(n) <==> n == 1
  {
    assert Pow2(0) == 1;
    if k: nat :| n == Pow2(k) {
      assert k > 0 ==> n == 2 * Pow2(k - 1);
    }
  }

  // n & (n - 1) is zero for the powers of two alone.
  lemma {:induction false} LoneBit(n: nat)
    requires n > 0
    ensures And(n, n - 1) == 0 <==> PowerOfTwo(n)
  {
    hide PowerOfTwo;
    if n % 2 == 1 {
      OddPower(n);
      AndSelf(n / 2);
      assert (n - 1) / 2 == n / 2;
    } else {
      LoneBit(n / 2);
      DoublePower(n / 2);
      assert (n - 1) / 2 == n / 2 - 1;
    }
  }

  lemma {:induction false} ZeroBits(j: nat)
    ensures !Bit(0, j)
  {
    if j > 0 { ZeroBits(j - 1); }
  }

  lemma {:induction false} BitOr(a: nat, b: nat, j: nat)
    ensures Bit(Or(a, b), j) == (Bit(a, j) || Bit(b, j))
    decreases a + b, j
  {
    if a == 0 {
      ZeroBits(j);
    } else if b == 0 {
      ZeroBits(j);
    } else {
      var low := if a % 2 == 1 || b % 2 == 1 then 1 else 0;
      assert Or(a, b) / 2 == Or(a / 2, b / 2) && Or(a, b) % 2 == low;
      if j > 0 {
        BitOr(a / 2, b / 2, j - 1);
      }
    }
  }

  lemma {:induction false} BitShl(x: nat, k: nat, j: nat)
    ensures Bit(Shl(x, k), j) == (j >= k && Bit(x, j - k))
  {
    if k > 0 {
      assert Shl(x, k) / 2 == Shl(x, k - 1) && Shl(x, k) % 2 == 0;
      if j > 0 {
        BitShl(x, k - 1, j - 1);
      }
    }
  }

  lemma {:induction false} BitShr(x: nat, k: nat, j: nat)
    ensures Bit(Shr(x, k), j) == Bit(x, j + k)
  {
    if k > 0 {
      BitShr(x / 2, k - 1, j);
    }
  }

  lemma {:induction false} LowBelow(x: nat, n: nat)
    ensures Low(x, n) < Pow2(n)
  {
    if n > 0 { LowBelow(x / 2, n - 1); }
  }

  lemma Pow2Add(a: nat, b: nat)
    ensures Pow2(a + b) == Pow2(a) * Pow2(b)
  {
    if a > 0 {
      Pow2Add(a - 1, b);
      assert Pow2(a + b) == 2 * Pow2(a - 1 + b);
    }
  }

  lemma WordPowers()
    ensures Pow2(3) == 8 && Pow2(8) == 256 && Pow2(16) == 0x1_0000 && Pow2(32) == 0x1_0000_0000
  {
    Pow2Add(8, 8);
    Pow2Add(16, 16);
  }

  // Masking the low n bits and shifting them out are remainder and quotient by 2^n.
  lemma {:induction false} MaskIsRemainder(x: nat, n: nat)
    ensures Low(x, n) == x % Pow2(n) && Shr(x, n) == x / Pow2(n)
  {
    if n > 0 {
      MaskIsRemainder(x / 2, n - 1);
      HalveTwice(x, Pow2(n - 1));
    }
  }

  lemma HalveTwice(x: nat, p: nat)
    requires p > 0
    ensures x / (2 * p) == x / 2 / p && x % (2 * p) == x % 2 + 2 * (x / 2 % p)
  {
    var q, r := x / 2 / p, x / 2 % p;
    assert x / 2 == q * p + r && x == 2 * (x / 2) + x % 2;
    var rest := 2 * r + x % 2;
    assert x == q * (2 * p) + rest && 0 <= rest < 2 * p;
    Quotient(x, 2 * p, q, rest);
  }

  lemma Quotient(x: nat, d: nat, q: nat, r: nat)
    requires d > 0 && x == q * d + r && r < d
    ensures x / d == q && x % d == r
  {
    var e := x / d - q;
    assert e * d == r - x % d;
    Numeric.Multiple(e, d);
  }

  // Disjoint or is addition.
  lemma {:induction false} OrAdds(low: nat, n: nat, high: nat)
    requires low < Pow2(n)
    ensures Or(low, Shl(high, n)) == low + Shl(high, n)
  {
    if n > 0 {
      assert Shl(high, n) / 2 == Shl(high, n - 1) && Shl(high, n) % 2 == 0;
      OrAdds(low / 2, n - 1, high);
      if low > 0 && Shl(high, n) > 0 {
        assert Or(low, Shl(high, n)) == 2 * Or(low / 2, Shl(high, n - 1)) + low % 2;
      }
    }
  }

  // ----- fixed-width fields as bit sequences -----

  function BitsOf(v: nat, width: nat): (s: seq<bool>)
    ensures |s| == width
  {
    if width == 0 then [] else [v % 2 == 1] + BitsOf(v / 2, width - 1)
  }

  function ValueOf(s: seq<bool>): nat {
    if |s| == 0 then 0 else (if s[0] then 1 else 0) + 2 * ValueOf(s[1..])
  }

  lemma {:induction false} BitsOfAt(v: nat, width: nat, j: nat)
    requires j < width
    ensures BitsOf(v, width)[j] == Bit(v, j)
  {
    if j > 0 { BitsOfAt(v / 2, width - 1, j - 1); }
  }

  lemma {:induction false} ValueOfBits(v: nat, width: nat)
    requires v < Pow2(width)
    ensures ValueOf(BitsOf(v, width)) == v
  {
    if width > 0 {
      ValueOfBits(v / 2, width - 1);
      assert BitsOf(v, width)[1..] == BitsOf(v / 2, width - 1);
    }
  }

  lemma {:induction false} BitsOfValue(s: seq<bool>)
    ensures BitsOf(ValueOf(s), |s|) == s
    ensures ValueOf(s) < Pow2(|s|)
  {
    if |s| > 0 {
      BitsOfValue(s[1..]);
      assert s == [s[0]] + s[1..];
    }
  }

  // Writing bit n on top of an n-bit value.
  lemma {:induction false} ValueSnoc(s: seq<bool>, b: bool)
    ensures ValueOf(s + [b]) == ValueOf(s) + (if b then Pow2(|s|) else 0)
  {
    if |s| > 0 {
      assert (s + [b])[1..] == s[1..] + [b];
      ValueSnoc(s[1..], b);
    }
  }

  // ----- byte buffers -----

  predicate Bytes(data: seq<nat>) {
    forall i :: 0 <= i < |data| ==> data[i] < 256
  }

  // The bits of a buffer in wire order.
  function Stream(data: seq<nat>): (s: seq<bool>)
    ensures |s| == 8 * |data|
  {
    if |data| == 0 then [] else Stream(data[..|data| - 1]) + BitsOf(data[|data| - 1], 8)
  }

  lemma {:induction false} StreamAt(data: seq<nat>, i: nat, j: nat)
    requires i < |data| && j < 8
    ensures Stream(data)[8 * i + j] == Bit(data[i], j)
  {
    var n := |data| - 1;
    if i == n {
      BitsOfAt(data[n], 8, j);
    } else {
      StreamAt(data[..n], i, j);
    }
  }

  lemma {:induction false} StreamSnoc(data: seq<nat>, b: nat)
    ensures Stream(data + [b]) == Stream(data) + BitsOf(b, 8)
  {
    assert (data + [b])[..|data|] == data;
  }

  lemma {:induction false} StreamConcat(a: seq<nat>, b: seq<nat>)
    ensures Stream(a + b) == Stream(a) + Stream(b)
    decreases |b|
  {
    hide Stream, BitsOf;
    if |b| == 0 {
      assert a + b == a;
      NoStream();
    } else {
      var n := |b| - 1;
      StreamConcat(a, b[..n]);
      assert a + b == (a + b[..n]) + [b[n]];
      StreamSnoc(a + b[..n], b[n]);
      StreamSnoc(b[..n], b[n]);
      assert b == b[..n] + [b[n]];
    }
  }

  lemma NoStream()
    ensures Stream([]) == []
  {
  }

  lemma StreamFront(data: seq<nat>)
    requires |data| > 0
    ensures Stream(data)[..8 * (|data| - 1)] == Stream(data[..|data| - 1])
    ensures Stream(data)[8 * (|data| - 1)..] == BitsOf(data[|data| - 1], 8)
  {
  }

  lemma {:induction false} StreamInjective(a: seq<nat>, b: seq<nat>)
    requires Bytes(a) && Bytes(b) && Stream(a) == Stream(b)
    ensures a == b
  {
    hide Stream, BitsOf;
    assert |a| == |b|;
    if |a| > 0 {
      var n := |a| - 1;
      StreamFront(a);
      StreamFront(b);
      StreamInjective(a[..n], b[..n]);
      assert Pow2(8) == 256;
      ValueOfBits(a[n], 8);
      ValueOfBits(b[n], 8);
      assert a == a[..n] + [a[n]] && b == b[..n] + [b[n]];
    }
  }

  function ZeroStream(n: nat): (s: seq<bool>)
    ensures |s| == n && forall i :: 0 <= i < n ==> !s[i]
  {
    seq(n, i => false)
  }

  lemma {:induction false} StreamOfZeros(data: seq<nat>)
    requires forall i :: 0 <= i < |data| ==> data[i] == 0
    ensures Stream(data) == ZeroStream(8 * |data|)
  {
    forall k | 0 <= k < 8 * |data|
      ensures !Stream(data)[k]
    {
      StreamAt(data, k / 8, k % 8);
      ZeroBits(k % 8);
    }
  }

  // data[at / 8] |= bit << (at % 8)
  function WithBit(data: seq<nat>, at: nat, bit: bool): (r: seq<nat>)
    requires at < 8 * |data|
    ensures |r| == |data|
  {
    data[at / 8 := Or(data[at / 8], Shl(if bit then 1 else 0, at % 8))]
  }

  lemma OneBit(k: nat, j: nat, bit: bool)
    ensures Bit(Shl(if bit then 1 else 0, k), j) == (j == k && bit)
  {
    BitShl(if bit then 1 else 0, k, j);
    if j >= k {
      SingleBits(j - k);
    }
  }

  lemma SingleBits(j: nat)
    ensures !Bit(0, j) && Bit(1, j) == (j == 0)
  {
    ZeroBits(j);
    if j > 0 { ZeroBits(j - 1); }
  }

  lemma {:induction false} BelowPow2(x: nat, n: nat)
    requires forall j :: j >= n ==> !Bit(x, j)
    ensures x < Pow2(n)
  {
    if n == 0 {
      if x > 0 {
        var j := TopBit(x);
        assert false;
      }
    } else {
      forall j | j >= n - 1
        ensures !Bit(x / 2, j)
      {
        assert !Bit(x, j + 1);
      }
      BelowPow2(x / 2, n - 1);
    }
  }

  lemma {:induction false} TopBit(x: nat) returns (j: nat)
    requires x > 0
    ensures Bit(x, j)
  {
    if x == 1 {
      j := 0;
    } else {
      j := TopBit(x / 2);
      j := j + 1;
    }
  }

  lemma {:induction false} AbovePow2(x: nat, n: nat, j: nat)
    requires x < Pow2(n) && j >= n
    ensures !Bit(x, j)
  {
    if n == 0 {
      ZeroBits(j);
    } else {
      AbovePow2(x / 2, n - 1, j - 1);
    }
  }

  // Or of two n-bit words is an n-bit word.
  lemma OrBelow(a: nat, b: nat, n: nat)
    requires a < Pow2(n) && b < Pow2(n)
    ensures Or(a, b) < Pow2(n)
  {
    forall j | j >= n
      ensures !Bit(Or(a, b), j)
    {
      BitOr(a, b, j);
      AbovePow2(a, n, j);
      AbovePow2(b, n, j);
    }
    BelowPow2(Or(a, b), n);
  }

  lemma {:induction false} StreamIs(data: seq<nat>, s: seq<bool>)
    requires |s| == 8 * |data|
    requires forall i, j :: 0 <= i < |data| && 0 <= j < 8 ==> s[8 * i + j] == Bit(data[i], j)
    ensures Stream(data) == s
  {
    if |data| > 0 {
      var n := |data| - 1;
      StreamIs(data[..n], s[..8 * n]);
      forall j | 0 <= j < 8
        ensures BitsOf(data[n], 8)[j] == s[8 * n..][j]
      {
        BitsOfAt(data[n], 8, j);
      }
      assert BitsOf(data[n], 8) == s[8 * n..];
      assert s == s[..8 * n] + s[8 * n..];
    }
  }

  lemma WithBitByte(byte: nat, k: nat, bit: bool, j: nat)
    requires k < 8 && byte < 256
    ensures var r := Or(byte, Shl(if bit then 1 else 0, k));
      r < 256 && Bit(r, j) == (Bit(byte, j) || (j == k && bit))
  {
    var one := Shl(if bit then 1 else 0, k);
    assert Pow2(8) == 256;
    forall j | j >= 8
      ensures !Bit(one, j)
    {
      OneBit(k, j, bit);
    }
    BelowPow2(one, 8);
    OrBelow(byte, one, 8);
    BitOr(byte, one, j);
    OneBit(k, j, bit);
  }

  lemma WithBitAt(data: seq<nat>, at: nat, bit: bool, i: nat, j: nat)
    requires at < 8 * |data| && Bytes(data) && i < |data| && j < 8
    ensures 8 * i + j < |Stream(data)|
    ensures Stream(data)[at := Stream(data)[at] || bit][8 * i + j] == Bit(WithBit(data, at, bit)[i], j)
  {
    hide Bit, Or, Shl, Stream;
    var n, k := at / 8, at % 8;
    StreamAt(data, i, j);
    SamePlace(at, i, j);
    if i == n {
      WithBitByte(data[n], k, bit, j);
    }
  }

  lemma SamePlace(at: nat, i: nat, j: nat)
    requires j < 8
    ensures 8 * i + j == at <==> i == at / 8 && j == at % 8
  {
  }

  lemma WithBitStream(data: seq<nat>, at: nat, bit: bool)
    requires at < 8 * |data| && Bytes(data)
    ensures Bytes(WithBit(data, at, bit))
    ensures Stream(WithBit(data, at, bit)) == Stream(data)[at := Stream(data)[at] || bit]
  {
    hide Bit, Or, Shl, Stream;
    WithBitByte(data[at / 8], at % 8, bit, 0);
    var r := WithBit(data, at, bit);
    var before := Stream(data);
    var s := before[at := before[at] || bit];
    forall i, j | 0 <= i < |r| && 0 <= j < 8
      ensures s[8 * i + j] == Bit(r[i], j)
    {
      WithBitAt(data, at, bit, i, j);
    }
    StreamIs(r, s);
  }
}
