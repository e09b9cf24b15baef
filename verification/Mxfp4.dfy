// MXFP4 values: E2M1 nibbles under an E8M0 block scale (OCP Microscaling Formats (MX)
// Specification v1.0, sections 5.3.3 and 5.4.1), as exact reals.
module Mxfp4 {
  import opened Bitwise
  import opened Numeric

  function Exp2(e: int): (p: real)
    ensures p > 0.0
    decreases if e < 0 then -e else e
  {
    if e == 0 then 1.0 else if e > 0 then 2.0 * Exp2(e - 1) else Exp2(e + 1) / 2.0
  }

  function Magnitude(code: nat): real
    requires code < 8
  {
    if code == 0 then 0.0
    else if code == 1 then 0.5
    else if code == 2 then 1.0
    else if code == 3 then 1.5
    else if code == 4 then 2.0
    else if code == 5 then 3.0
    else if code == 6 then 4.0
    else 6.0
  }

  // Sign in bit 3, magnitude code in the low three bits.
  function NibbleValue(nibble: nat): real
    requires nibble < 16
  {
    if nibble < 8 then Magnitude(nibble) else -Magnitude(nibble - 8)
  }

  // A block's weights: nibble values under the scale byte `raw`.
  function Weights(nibbles: seq<nat>, raw: nat): (t: seq<real>)
    requires Nibbles(nibbles)
    ensures |t| == |nibbles|
    ensures forall i :: 0 <= i < |t| ==> t[i] == NibbleValue(nibbles[i]) * Exp2(raw - 127)
  {
    seq(|nibbles|, i requires 0 <= i < |nibbles| => NibbleValue(nibbles[i]) * Exp2(raw - 127))
  }

  // palette[symbols]
  function Lookup(palette: seq<nat>, symbols: seq<nat>): (n: seq<nat>)
    requires forall i :: 0 <= i < |symbols| ==> symbols[i] < |palette|
    ensures |n| == |symbols| && forall i :: 0 <= i < |n| ==> n[i] == palette[symbols[i]]
  {
    seq(|symbols|, i requires 0 <= i < |symbols| => palette[symbols[i]])
  }

  // Squared distance of two weight vectors.
  function Distances(xs: seq<real>, ys: seq<real>): (d: seq<real>)
    requires |xs| == |ys|
    ensures |d| == |xs| && forall i :: 0 <= i < |d| ==> d[i] == Square(xs[i] - ys[i])
  {
    seq(|xs|, i requires 0 <= i < |xs| => Square(xs[i] - ys[i]))
  }

  function Sse(xs: seq<real>, ys: seq<real>): real
    requires |xs| == |ys|
  {
    Sum(Distances(xs, ys))
  }
}
