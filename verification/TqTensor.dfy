// A TQ tensor: one descriptor a row, packed states laid end to end, nibble scale selectors. What a
// row says, apart from where it lies, is its view; slicing and joining tensors move views whole.
module TqTensor {
  import opened Bitwise
  import opened Packing
  import opened Slices

  datatype Tensor = Tensor(
    rows: nat, width: nat, gs: nat, columns: bool, descriptors: seq<nat>, scales: seq<nat>, packed: seq<nat>)

  // ----- descriptors: word offset below, precision and anchor above -----

  const LIMIT: nat := 0x1_0000_0000

  function Offset(d: nat): nat { d % LIMIT }

  function Upper(d: nat): nat { d / LIMIT }

  function UpperPrecision(u: nat): (bits: nat)
    ensures 1 <= bits <= 8
  {
    u % 8 + 1
  }

  // These are the source's masks and shifts.
  lemma FieldsAreMasks(d: nat)
    ensures Offset(d) == Low(d, 32) && Upper(d) == Shr(d, 32) && UpperPrecision(Upper(d)) == Low(Shr(d, 32), 3) + 1
  {
    hide Low, Shr, Pow2;
    WordPowers();
    MaskIsRemainder(d, 32);
    MaskIsRemainder(Shr(d, 32), 3);
  }

  // A row's binary16 anchor.
  function Anchor(d: nat): nat { Upper(d) / 256 }

  // Finite and at least zero: exponent field not all ones, no sign except that of a zero.
  predicate NonnegativeHalf(half: nat) { half < 0x7c00 || half == 0x8000 }

  predicate PositiveHalf(half: nat) { 0 < half < 0x7c00 }

  // Bits 35..39 and 56..63 of a descriptor are reserved, and its anchor is usable.
  predicate Clean(d: nat) {
    Upper(d) / 8 % 32 == 0 && Upper(d) < 0x100_0000 && NonnegativeHalf(Anchor(d))
  }

  function WordsIn(width: nat, d: nat): nat { width * UpperPrecision(Upper(d)) / 32 }

  // (d & ~0xffffffff) | offset
  function WithOffset(d: nat, offset: nat): nat { Or(offset, Shl(Upper(d), 32)) }

  lemma {:induction false} JoinWord(low: nat, n: nat, high: nat)
    requires low < Pow2(n)
    ensures Low(low + Shl(high, n), n) == low && Shr(low + Shl(high, n), n) == high
  {
    if n > 0 {
      JoinWord(low / 2, n - 1, high);
      assert (low + Shl(high, n)) / 2 == low / 2 + Shl(high, n - 1);
    }
  }

  // Replacing the offset keeps everything above it.
  lemma WithOffsetFields(d: nat, offset: nat)
    requires offset < LIMIT
    ensures Offset(WithOffset(d, offset)) == offset && Upper(WithOffset(d, offset)) == Upper(d)
  {
    hide Or, Shl, Shr, Low, Pow2;
    WordPowers();
    OrAdds(offset, 32, Upper(d));
    JoinWord(offset, 32, Upper(d));
    FieldsAreMasks(WithOffset(d, offset));
  }

  // So does adding to the whole descriptor while the offset does not overflow its 32 bits.
  lemma AddedOffsetFields(d: nat, words: nat)
    requires Offset(d) + words < LIMIT
    ensures Offset(d + words) == Offset(d) + words && Upper(d + words) == Upper(d)
  {
  }

  // ----- rows laid end to end -----

  function WordsBefore(width: nat, ds: seq<nat>, n: nat): nat
    requires n <= |ds|
  {
    if n == 0 then 0 else WordsBefore(width, ds, n - 1) + WordsIn(width, ds[n - 1])
  }

  predicate Tiles(width: nat, ds: seq<nat>, bytes: nat) {
    && (forall r :: 0 <= r < |ds| ==> Offset(ds[r]) == WordsBefore(width, ds, r))
    && 4 * WordsBefore(width, ds, |ds|) == bytes
  }

  lemma {:induction false} WordsOfSlice(width: nat, ds: seq<nat>, b: nat, ys: seq<nat>, n: nat)
    requires n <= |ys| && b + |ys| <= |ds|
    requires forall r :: 0 <= r < |ys| ==> Upper(ys[r]) == Upper(ds[b + r])
    ensures WordsBefore(width, ds, b + n) == WordsBefore(width, ds, b) + WordsBefore(width, ys, n)
    decreases n
  {
    hide Shr;
    if n > 0 { WordsOfSlice(width, ds, b, ys, n - 1); }
  }

  lemma NoWordsBefore(width: nat, ds: seq<nat>)
    ensures WordsBefore(width, ds, 0) == 0
  {
  }

  lemma NextWords(width: nat, ds: seq<nat>, n: nat)
    requires n < |ds|
    ensures WordsBefore(width, ds, n + 1) == WordsBefore(width, ds, n) + WordsIn(width, ds[n])
  {
  }

  lemma {:induction false} WordsMonotone(width: nat, ds: seq<nat>, m: nat, n: nat)
    requires m <= n <= |ds|
    ensures WordsBefore(width, ds, m) <= WordsBefore(width, ds, n)
  {
    if m < n { WordsMonotone(width, ds, m, n - 1); }
  }

  // ----- views -----

  // What a row says: precision and anchor, packed states, scale selectors.
  datatype RowView = RowView(upper: nat, payload: seq<nat>, selectors: seq<nat>)

  // A tensor with its selectors unpacked, `groups` of them a row.
  datatype Parts = Parts(width: nat, groups: nat, descriptors: seq<nat>, packed: seq<nat>, selectors: seq<nat>)

  predicate Sized(rows: nat, groups: nat, total: nat) { total == rows * groups }

  predicate PartsOk(p: Parts) {
    && Tiles(p.width, p.descriptors, |p.packed|)
    && Sized(|p.descriptors|, p.groups, |p.selectors|)
  }

  lemma PackedInside(width: nat, ds: seq<nat>, bytes: nat, b: nat, e: nat)
    requires Tiles(width, ds, bytes) && b <= e <= |ds|
    ensures WordsBefore(width, ds, b) <= WordsBefore(width, ds, e) && 4 * WordsBefore(width, ds, e) <= bytes
  {
    hide WordsBefore, Offset;
    WordsMonotone(width, ds, b, e);
    WordsMonotone(width, ds, e, |ds|);
  }

  lemma SelectorsInside(rows: nat, groups: nat, total: nat, b: nat, e: nat)
    requires Sized(rows, groups, total) && b <= e <= rows
    ensures 0 <= b * groups <= e * groups <= total
  {
  }

  function PackedRows(width: nat, ds: seq<nat>, packed: seq<nat>, b: nat, e: nat): seq<nat>
    requires Tiles(width, ds, |packed|) && b <= e <= |ds|
  {
    PackedInside(width, ds, |packed|, b, e);
    packed[4 * WordsBefore(width, ds, b)..4 * WordsBefore(width, ds, e)]
  }

  function SelectorRows(rows: nat, groups: nat, selectors: seq<nat>, b: nat, e: nat): seq<nat>
    requires Sized(rows, groups, |selectors|) && b <= e <= rows
  {
    SelectorsInside(rows, groups, |selectors|, b, e);
    selectors[b * groups..e * groups]
  }

  function View(p: Parts, r: nat): RowView
    requires PartsOk(p) && r < |p.descriptors|
  {
    RowView(
      Upper(p.descriptors[r]),
      PackedRows(p.width, p.descriptors, p.packed, r, r + 1),
      SelectorRows(|p.descriptors|, p.groups, p.selectors, r, r + 1))
  }

  function Views(p: Parts): (views: seq<RowView>)
    requires PartsOk(p)
    ensures |views| == |p.descriptors|
    ensures forall r :: 0 <= r < |views| ==> views[r] == View(p, r)
  {
    seq(|p.descriptors|, r requires 0 <= r < |p.descriptors| => View(p, r))
  }

  // ----- a range of rows -----

  // Descriptors of rows b..e, their offsets counted from row b.
  function Rebased(width: nat, ds: seq<nat>, b: nat, e: nat): (r: seq<nat>)
    requires b <= e <= |ds|
    ensures |r| == e - b
    decreases e
  {
    if b == e then []
    else
      WordsMonotone(width, ds, b, e - 1);
      Rebased(width, ds, b, e - 1) + [WithOffset(ds[e - 1], WordsBefore(width, ds, e - 1) - WordsBefore(width, ds, b))]
  }

  predicate SameUppers(ys: seq<nat>, ds: seq<nat>, b: nat)
    requires b + |ys| <= |ds|
  {
    forall k :: 0 <= k < |ys| ==> Upper(ys[k]) == Upper(ds[b + k])
  }

  lemma OffsetBelow(d: nat)
    ensures Offset(d) < LIMIT
  {
  }

  lemma {:induction false} RebasedFields(width: nat, ds: seq<nat>, bytes: nat, b: nat, e: nat)
    requires Tiles(width, ds, bytes) && b <= e <= |ds|
    ensures SameUppers(Rebased(width, ds, b, e), ds, b)
    ensures forall k :: 0 <= k < e - b ==>
      Offset(Rebased(width, ds, b, e)[k]) == WordsBefore(width, ds, b + k) - WordsBefore(width, ds, b)
    decreases e
  {
    hide Upper, Offset, WithOffset, WordsIn, WordsBefore, Tiles, Rebased;
    if b < e {
      RebasedFields(width, ds, bytes, b, e - 1);
      RebasedLast(width, ds, bytes, b, e);
      var front := Rebased(width, ds, b, e - 1);
      assert forall k :: 0 <= k < e - 1 - b ==> Rebased(width, ds, b, e)[k] == front[k];
    }
  }

  lemma RebasedLast(width: nat, ds: seq<nat>, bytes: nat, b: nat, e: nat)
    requires Tiles(width, ds, bytes) && b < e <= |ds|
    ensures Rebased(width, ds, b, e)[..e - 1 - b] == Rebased(width, ds, b, e - 1)
    ensures var last := Rebased(width, ds, b, e)[e - 1 - b];
      && Upper(last) == Upper(ds[e - 1])
      && Offset(last) == WordsBefore(width, ds, e - 1) - WordsBefore(width, ds, b)
  {
    hide Upper, Offset, WithOffset, WordsIn, WordsBefore;
    WordsMonotone(width, ds, b, e - 1);
    OffsetBelow(ds[e - 1]);
    WithOffsetFields(ds[e - 1], WordsBefore(width, ds, e - 1) - WordsBefore(width, ds, b));
  }

  // Rows b..e as a tensor of their own.
  function SliceParts(p: Parts, b: nat, e: nat): Parts
    requires PartsOk(p) && b <= e <= |p.descriptors|
  {
    Parts(p.width, p.groups, Rebased(p.width, p.descriptors, b, e),
      PackedRows(p.width, p.descriptors, p.packed, b, e), SelectorRows(|p.descriptors|, p.groups, p.selectors, b, e))
  }

  lemma SliceWords(width: nat, ds: seq<nat>, bytes: nat, b: nat, e: nat, n: nat)
    requires Tiles(width, ds, bytes) && b <= e <= |ds| && n <= e - b
    ensures WordsBefore(width, ds, b + n) == WordsBefore(width, ds, b) + WordsBefore(width, Rebased(width, ds, b, e), n)
  {
    hide Upper, WordsIn, WordsBefore, Offset, Tiles;
    RebasedFields(width, ds, bytes, b, e);
    WordsOfSlice(width, ds, b, Rebased(width, ds, b, e), n);
  }

  lemma SliceTiles(width: nat, ds: seq<nat>, packed: seq<nat>, b: nat, e: nat)
    requires Tiles(width, ds, |packed|) && b <= e <= |ds|
    ensures Tiles(width, Rebased(width, ds, b, e), |PackedRows(width, ds, packed, b, e)|)
  {
    hide Upper, WordsIn, WordsBefore, Offset, Rebased;
    RebasedFields(width, ds, |packed|, b, e);
    PackedInside(width, ds, |packed|, b, e);
    forall n | 0 <= n <= e - b
      ensures WordsBefore(width, ds, b + n)
        == WordsBefore(width, ds, b) + WordsBefore(width, Rebased(width, ds, b, e), n)
    {
      SliceWords(width, ds, |packed|, b, e, n);
    }
  }

  lemma SlicedPayload(width: nat, ds: seq<nat>, packed: seq<nat>, b: nat, e: nat, k: nat)
    requires Tiles(width, ds, |packed|) && b <= e <= |ds| && k < e - b
    requires Tiles(width, Rebased(width, ds, b, e), |PackedRows(width, ds, packed, b, e)|)
    ensures PackedRows(width, Rebased(width, ds, b, e), PackedRows(width, ds, packed, b, e), k, k + 1)
         == PackedRows(width, ds, packed, b + k, b + k + 1)
  {
    hide Tiles, WordsBefore, Rebased;
    SliceWords(width, ds, |packed|, b, e, k);
    SliceWords(width, ds, |packed|, b, e, k + 1);
    PackedInside(width, ds, |packed|, b, b + k);
    PackedInside(width, ds, |packed|, b + k, b + k + 1);
    PackedInside(width, ds, |packed|, b + k + 1, e);
    SliceOfSlice(packed, 4 * WordsBefore(width, ds, b), 4 * WordsBefore(width, ds, e),
      4 * WordsBefore(width, ds, b + k), 4 * WordsBefore(width, ds, b + k + 1));
  }

  lemma ProductSum(b: nat, k: nat, groups: nat)
    ensures (b + k) * groups == b * groups + k * groups
  {
  }

  lemma SliceSized(rows: nat, groups: nat, selectors: seq<nat>, b: nat, e: nat)
    requires Sized(rows, groups, |selectors|) && b <= e <= rows
    ensures Sized(e - b, groups, |SelectorRows(rows, groups, selectors, b, e)|)
  {
    SelectorsInside(rows, groups, |selectors|, b, e);
    ProductSum(b, e - b, groups);
  }

  lemma SlicedSelectors(rows: nat, groups: nat, selectors: seq<nat>, b: nat, e: nat, k: nat)
    requires Sized(rows, groups, |selectors|) && b <= e <= rows && k < e - b
    requires Sized(e - b, groups, |SelectorRows(rows, groups, selectors, b, e)|)
    ensures SelectorRows(e - b, groups, SelectorRows(rows, groups, selectors, b, e), k, k + 1)
         == SelectorRows(rows, groups, selectors, b + k, b + k + 1)
  {
    hide Sized;
    SelectorsInside(rows, groups, |selectors|, b, b + k);
    SelectorsInside(rows, groups, |selectors|, b + k, b + k + 1);
    SelectorsInside(rows, groups, |selectors|, b + k + 1, e);
    ProductSum(b, k, groups);
    ProductSum(b, k + 1, groups);
    SliceOfSlice(selectors, b * groups, e * groups, (b + k) * groups, (b + k + 1) * groups);
  }

  // Cutting a row range out of a tensor keeps every row's view.
  lemma SliceViews(p: Parts, b: nat, e: nat)
    requires PartsOk(p) && b <= e <= |p.descriptors|
    ensures PartsOk(SliceParts(p, b, e))
    ensures Views(SliceParts(p, b, e)) == Views(p)[b..e]
  {
    hide Tiles, Sized, Rebased, PackedRows, SelectorRows, Upper;
    SliceTiles(p.width, p.descriptors, p.packed, b, e);
    SliceSized(|p.descriptors|, p.groups, p.selectors, b, e);
    RebasedFields(p.width, p.descriptors, |p.packed|, b, e);
    forall k | 0 <= k < e - b
      ensures View(SliceParts(p, b, e), k) == View(p, b + k)
    {
      SlicedPayload(p.width, p.descriptors, p.packed, b, e, k);
      SlicedSelectors(|p.descriptors|, p.groups, p.selectors, b, e, k);
    }
  }

  // ----- joining -----

  function Advanced(ds: seq<nat>, words: nat): (r: seq<nat>)
    ensures |r| == |ds| && forall k :: 0 <= k < |r| ==> r[k] == ds[k] + words
  {
    seq(|ds|, k requires 0 <= k < |ds| => ds[k] + words)
  }

  // b's rows after a's, its offsets advanced by a's length.
  function JoinParts(a: Parts, b: Parts): Parts
  {
    Parts(a.width, a.groups, a.descriptors + Advanced(b.descriptors, |a.packed| / 4), a.packed + b.packed,
      a.selectors + b.selectors)
  }

  predicate Joinable(a: Parts, b: Parts) {
    && PartsOk(a) && PartsOk(b) && a.width == b.width > 0 && a.width % 256 == 0 && a.groups == b.groups
    && |a.packed| + |b.packed| <= 4 * LIMIT
  }

  lemma SomeWords(width: nat, d: nat)
    requires width > 0 && width % 256 == 0
    ensures WordsIn(width, d) > 0
  {
    hide Upper;
    var bits := UpperPrecision(Upper(d));
    assert width >= 256;
    assert width * bits >= width;
  }

  lemma AdvancedFields(width: nat, ds: seq<nat>, bytes: nat, k: nat, words: nat)
    requires Tiles(width, ds, bytes) && k < |ds| && width > 0 && width % 256 == 0
    requires 4 * words + bytes <= 4 * LIMIT
    ensures Upper(ds[k] + words) == Upper(ds[k]) && Offset(ds[k] + words) == Offset(ds[k]) + words
  {
    hide Upper, Offset, WordsIn, Pow2;
    PackedInside(width, ds, bytes, k + 1, |ds|);
    SomeWords(width, ds[k]);
    assert Offset(ds[k]) == WordsBefore(width, ds, k);
    AddedOffsetFields(ds[k], words);
  }

  lemma {:induction false} JoinedWords(width: nat, xs: seq<nat>, ys: seq<nat>, words: nat, n: nat)
    requires n <= |ys| && words == WordsBefore(width, xs, |xs|)
    requires SameUppers(Advanced(ys, words), ys, 0)
    ensures WordsBefore(width, xs + Advanced(ys, words), |xs| + n) == words + WordsBefore(width, ys, n)
    decreases n
  {
    hide *;
    var zs := xs + Advanced(ys, words);
    if n == 0 {
      JoinedFront(width, xs, Advanced(ys, words), |xs|);
      NoWordsBefore(width, ys);
    } else {
      JoinedWords(width, xs, ys, words, n - 1);
      NextWords(width, zs, |xs| + n - 1);
      NextWords(width, ys, n - 1);
      assert zs[|xs| + n - 1] == Advanced(ys, words)[n - 1];
      SameWords(width, Advanced(ys, words), ys, n - 1);
    }
  }

  lemma SameWords(width: nat, xs: seq<nat>, ys: seq<nat>, k: nat)
    requires |xs| == |ys| && SameUppers(xs, ys, 0) && k < |xs|
    ensures WordsIn(width, xs[k]) == WordsIn(width, ys[k])
  {
    hide Upper, UpperPrecision;
  }

  lemma JoinedFront(width: nat, xs: seq<nat>, ys: seq<nat>, n: nat)
    requires n <= |xs|
    ensures WordsBefore(width, xs + ys, n) == WordsBefore(width, xs, n)
  {
    hide Upper, WordsIn, WordsBefore;
    WordsOfSlice(width, xs + ys, 0, xs, n);
    NoWordsBefore(width, xs + ys);
  }

  lemma AllAdvanced(width: nat, ys: seq<nat>, bytes: nat, words: nat)
    requires Tiles(width, ys, bytes) && width > 0 && width % 256 == 0
    requires 4 * words + bytes <= 4 * LIMIT
    ensures SameUppers(Advanced(ys, words), ys, 0)
    ensures forall k :: 0 <= k < |ys| ==> Offset(Advanced(ys, words)[k]) == Offset(ys[k]) + words
  {
    hide Upper, Offset, WordsIn, Pow2, WordsBefore, Tiles;
    forall k | 0 <= k < |ys|
      ensures Upper(Advanced(ys, words)[k]) == Upper(ys[k]) && Offset(Advanced(ys, words)[k]) == Offset(ys[k]) + words
    {
      AdvancedFields(width, ys, bytes, k, words);
    }
  }

  lemma JoinTiles(width: nat, xs: seq<nat>, n: nat, ys: seq<nat>, m: nat)
    requires Tiles(width, xs, n) && Tiles(width, ys, m) && width > 0 && width % 256 == 0 && n + m <= 4 * LIMIT
    ensures Tiles(width, xs + Advanced(ys, n / 4), n + m)
  {
    hide Upper, Offset, WordsIn, Pow2, WordsBefore;
    AllAdvanced(width, ys, m, n / 4);
    var zs := xs + Advanced(ys, n / 4);
    forall r | 0 <= r < |zs|
      ensures Offset(zs[r]) == WordsBefore(width, zs, r)
    {
      if r < |xs| {
        JoinedFront(width, xs, Advanced(ys, n / 4), r);
      } else {
        JoinedWords(width, xs, ys, n / 4, r - |xs|);
      }
    }
    JoinedWords(width, xs, ys, n / 4, |ys|);
  }

  lemma JoinOk(a: Parts, b: Parts)
    requires Joinable(a, b)
    ensures PartsOk(JoinParts(a, b))
  {
    hide Tiles, Pow2;
    JoinTiles(a.width, a.descriptors, |a.packed|, b.descriptors, |b.packed|);
    ProductSum(|a.descriptors|, |b.descriptors|, a.groups);
  }

  lemma JoinLeft(a: Parts, b: Parts, r: nat)
    requires Joinable(a, b) && PartsOk(JoinParts(a, b)) && r < |a.descriptors|
    ensures View(JoinParts(a, b), r) == View(a, r)
  {
    hide Upper, WordsBefore, Tiles, Sized, Pow2;
    var more := Advanced(b.descriptors, |a.packed| / 4);
    JoinedFront(a.width, a.descriptors, more, r);
    JoinedFront(a.width, a.descriptors, more, r + 1);
    PackedInside(a.width, a.descriptors, |a.packed|, r, r + 1);
    SliceOfHead(a.packed, b.packed, 4 * WordsBefore(a.width, a.descriptors, r),
      4 * WordsBefore(a.width, a.descriptors, r + 1));
    SelectorsInside(|a.descriptors|, a.groups, |a.selectors|, r, r + 1);
    SliceOfHead(a.selectors, b.selectors, r * a.groups, (r + 1) * a.groups);
  }

  lemma JoinRight(a: Parts, b: Parts, k: nat)
    requires Joinable(a, b) && PartsOk(JoinParts(a, b)) && k < |b.descriptors|
    ensures View(JoinParts(a, b), |a.descriptors| + k) == View(b, k)
  {
    hide Upper, WordsBefore, PackedRows, SelectorRows, Tiles, Sized;
    var n, words := |a.descriptors|, |a.packed| / 4;
    AllAdvanced(b.width, b.descriptors, |b.packed|, words);
    JoinedPayload(a, b, k);
    JoinedSelectors(a, b, k);
    assert JoinParts(a, b).descriptors[n + k] == Advanced(b.descriptors, words)[k];
  }

  lemma JoinedPayload(a: Parts, b: Parts, k: nat)
    requires Joinable(a, b) && PartsOk(JoinParts(a, b)) && k < |b.descriptors|
    ensures var q, n := JoinParts(a, b), |a.descriptors|;
      PackedRows(q.width, q.descriptors, q.packed, n + k, n + k + 1)
        == PackedRows(b.width, b.descriptors, b.packed, k, k + 1)
  {
    hide Upper, WordsBefore, Pow2, Sized;
    var words := |a.packed| / 4;
    AllAdvanced(b.width, b.descriptors, |b.packed|, words);
    JoinedWords(a.width, a.descriptors, b.descriptors, words, k);
    JoinedWords(a.width, a.descriptors, b.descriptors, words, k + 1);
    PackedInside(b.width, b.descriptors, |b.packed|, k, k + 1);
    SliceOfTail(a.packed, b.packed, 4 * WordsBefore(b.width, b.descriptors, k),
      4 * WordsBefore(b.width, b.descriptors, k + 1));
  }

  lemma JoinedSelectors(a: Parts, b: Parts, k: nat)
    requires Joinable(a, b) && PartsOk(JoinParts(a, b)) && k < |b.descriptors|
    ensures var q, n := JoinParts(a, b), |a.descriptors|;
      SelectorRows(|q.descriptors|, q.groups, q.selectors, n + k, n + k + 1)
        == SelectorRows(|b.descriptors|, b.groups, b.selectors, k, k + 1)
  {
    hide Tiles, Pow2;
    ProductSum(|a.descriptors|, k, a.groups);
    ProductSum(|a.descriptors|, k + 1, a.groups);
    SelectorsInside(|b.descriptors|, b.groups, |b.selectors|, k, k + 1);
    SliceOfTail(a.selectors, b.selectors, k * a.groups, (k + 1) * a.groups);
  }

  // Joining keeps every row's view, in order.
  lemma JoinViews(a: Parts, b: Parts)
    requires Joinable(a, b)
    ensures PartsOk(JoinParts(a, b))
    ensures Views(JoinParts(a, b)) == Views(a) + Views(b)
  {
    hide View, Tiles, Sized, Pow2;
    JoinOk(a, b);
    var q := JoinParts(a, b);
    forall r | 0 <= r < |q.descriptors|
      ensures Views(q)[r] == (Views(a) + Views(b))[r]
    {
      if r < |a.descriptors| {
        JoinLeft(a, b, r);
      } else {
        JoinRight(a, b, r - |a.descriptors|);
      }
    }
  }

  // ----- selectors: two nibbles a byte, the low one first -----

  function Selector(scales: seq<nat>, i: nat): (v: nat)
    requires i < 2 * |scales|
    ensures v < 16
  {
    var v := Low(if i % 2 == 0 then scales[i / 2] else Shr(scales[i / 2], 4), 4);
    NibbleRange(v, if i % 2 == 0 then scales[i / 2] else Shr(scales[i / 2], 4));
    v
  }

  lemma NibbleRange(v: nat, x: nat)
    requires v == Low(x, 4)
    ensures v < 16
  {
    LowBelow(x, 4);
    assert Pow2(4) == 16;
  }

  function Selectors(scales: seq<nat>, n: nat): (values: seq<nat>)
    requires n <= 2 * |scales|
    ensures |values| == n && Nibbles(values)
    ensures forall i :: 0 <= i < n ==> values[i] == Selector(scales, i)
  {
    seq(n, i requires 0 <= i < n => Selector(scales, i))
  }

  // scales = values[::2]; scales[:n // 2] |= values[1::2] << 4
  function PackSelectors(values: seq<nat>): (scales: seq<nat>)
    ensures |scales| == (|values| + 1) / 2
  {
    seq((|values| + 1) / 2, k requires 0 <= k < (|values| + 1) / 2 =>
      if 2 * k + 1 < |values| then NibbleByte(values[2 * k], values[2 * k + 1]) else values[2 * k])
  }

  lemma LoneNibble(v: nat)
    requires v < 16
    ensures Low(v, 4) == v
  {
    assert Pow2(4) == 16;
    LowOfSmall(v, 4);
  }

  // Packing selectors, an odd number too, loses none of them.
  lemma SelectorsRoundTrip(values: seq<nat>)
    requires Nibbles(values)
    ensures Selectors(PackSelectors(values), |values|) == values
  {
    hide Low, Shr, NibbleByte;
    var scales := PackSelectors(values);
    forall i | 0 <= i < |values|
      ensures Selector(scales, i) == values[i]
    {
      var k := i / 2;
      if 2 * k + 1 < |values| {
        NibbleReads(values[2 * k], values[2 * k + 1]);
      }
      LoneNibble(values[i]);
    }
  }

  // ----- the tensor's own checks -----

  // A power of two (Bitwise.LoneBit) from 16 to 2^20.
  predicate GroupSize(gs: nat) { 16 <= gs <= 0x10_0000 && And(gs, gs - 1) == 0 }

  lemma GroupSizePositive(gs: nat)
    requires GroupSize(gs)
    ensures gs > 0
  {
  }

  function Groups(t: Tensor): nat
    requires t.columns || t.gs > 0
  {
    if t.columns then 0 else (t.width + t.gs - 1) / t.gs
  }

  predicate Geometry(t: Tensor) {
    && t.rows > 0 && t.width > 0 && t.width % 256 == 0 && (t.columns || GroupSize(t.gs))
    && |t.descriptors| == t.rows
    && |t.scales| == if t.columns then t.width else (t.rows * Groups(t) + 1) / 2
  }

  predicate AllClean(ds: seq<nat>) { forall r :: 0 <= r < |ds| ==> Clean(ds[r]) }

  predicate Valid(t: Tensor) {
    && Geometry(t)
    && AllClean(t.descriptors)
    && Tiles(t.width, t.descriptors, |t.packed|)
    && |t.packed| <= 4 * LIMIT
    && (t.columns ==> PositiveScales(t.scales))
  }

  predicate PositiveScales(scales: seq<nat>) { forall i :: 0 <= i < |scales| ==> PositiveHalf(scales[i]) }

  lemma SelectorsFit(t: Tensor)
    requires Geometry(t)
    ensures 0 <= t.rows * Groups(t) <= 2 * |t.scales|
  {
  }

  function PartsOf(t: Tensor): (p: Parts)
    requires Geometry(t)
    ensures Sized(|p.descriptors|, p.groups, |p.selectors|) && Nibbles(p.selectors)
  {
    SelectorsFit(t);
    Parts(t.width, Groups(t), t.descriptors, t.packed, Selectors(t.scales, t.rows * Groups(t)))
  }

  // What every row of the tensor says.
  function TensorViews(t: Tensor): (views: seq<RowView>)
    requires Valid(t)
    ensures |views| == t.rows
  {
    Views(PartsOf(t))
  }

  function TensorOf(p: Parts, gs: nat): Tensor
  {
    Tensor(|p.descriptors|, p.width, gs, false, p.descriptors, PackSelectors(p.selectors), p.packed)
  }

  predicate TensorParts(p: Parts, gs: nat) {
    && PartsOk(p) && Nibbles(p.selectors) && AllClean(p.descriptors)
    && p.width > 0 && p.width % 256 == 0 && GroupSize(gs) && p.groups == (p.width + gs - 1) / gs
    && |p.packed| <= 4 * LIMIT
  }

  lemma TensorOfParts(p: Parts, gs: nat)
    requires TensorParts(p, gs) && |p.descriptors| > 0
    ensures Valid(TensorOf(p, gs)) && TensorViews(TensorOf(p, gs)) == Views(p)
  {
    hide Tiles, Pow2, AllClean, Views, GroupSize, PackSelectors, Selectors;
    SelectorsRoundTrip(p.selectors);
  }

  lemma SliceTensorParts(p: Parts, gs: nat, b: nat, e: nat)
    requires TensorParts(p, gs) && b < e <= |p.descriptors|
    ensures TensorParts(SliceParts(p, b, e), gs) && Views(SliceParts(p, b, e)) == Views(p)[b..e]
  {
    hide Tiles, Pow2, Views, Sized, Low, Shr, WordsBefore;
    SliceViews(p, b, e);
    RebasedFields(p.width, p.descriptors, |p.packed|, b, e);
    PackedInside(p.width, p.descriptors, |p.packed|, b, e);
    SelectorsInside(|p.descriptors|, p.groups, |p.selectors|, b, e);
  }

  lemma JoinTensorParts(a: Parts, b: Parts, gs: nat)
    requires TensorParts(a, gs) && TensorParts(b, gs) && a.width == b.width && |a.packed| + |b.packed| <= 4 * LIMIT
    ensures TensorParts(JoinParts(a, b), gs) && Views(JoinParts(a, b)) == Views(a) + Views(b)
  {
    hide Tiles, Pow2, Views, Sized, Low, Shr, WordsBefore;
    JoinViews(a, b);
    AllAdvanced(b.width, b.descriptors, |b.packed|, |a.packed| / 4);
    PackedWords(a.width, a.descriptors, |a.packed|);
    var q := JoinParts(a, b);
    forall r | 0 <= r < |q.descriptors|
      ensures Clean(q.descriptors[r])
    {
      if r >= |a.descriptors| {
        var k := r - |a.descriptors|;
        assert q.descriptors[r] == Advanced(b.descriptors, |a.packed| / 4)[k];
        assert Clean(b.descriptors[k]);
      }
    }
  }

  lemma PackedWords(width: nat, ds: seq<nat>, bytes: nat)
    requires Tiles(width, ds, bytes)
    ensures bytes % 4 == 0 && WordsBefore(width, ds, |ds|) == bytes / 4
  {
    hide WordsBefore, Offset;
  }

  // ----- payload size -----

  function PayloadBytes(views: seq<RowView>): nat {
    if |views| == 0 then 0 else PayloadBytes(views[..|views| - 1]) + |views[|views| - 1].payload|
  }

  lemma {:induction false} PayloadConcat(xs: seq<RowView>, ys: seq<RowView>)
    ensures PayloadBytes(xs + ys) == PayloadBytes(xs) + PayloadBytes(ys)
    decreases |ys|
  {
    if ys == [] {
      assert xs + ys == xs;
    } else {
      PayloadConcat(xs, ys[..|ys| - 1]);
      assert (xs + ys)[..|xs + ys| - 1] == xs + ys[..|ys| - 1];
    }
  }

  lemma {:induction false} PayloadUpTo(p: Parts, n: nat)
    requires PartsOk(p) && n <= |p.descriptors|
    ensures PayloadBytes(Views(p)[..n]) == 4 * WordsBefore(p.width, p.descriptors, n)
  {
    hide WordsBefore, Tiles, Sized, SelectorRows, Upper;
    NoWordsBefore(p.width, p.descriptors);
    if n > 0 {
      PayloadUpTo(p, n - 1);
      PackedInside(p.width, p.descriptors, |p.packed|, n - 1, n);
      assert Views(p)[..n][..n - 1] == Views(p)[..n - 1];
      assert Views(p)[..n][n - 1] == View(p, n - 1);
    }
  }

  // The rows' payloads account for every packed byte.
  lemma PayloadIsPacked(p: Parts)
    requires PartsOk(p)
    ensures PayloadBytes(Views(p)) == |p.packed|
  {
    hide WordsBefore, Offset;
    PayloadUpTo(p, |p.descriptors|);
    assert Views(p)[..|p.descriptors|] == Views(p);
  }
}
