// A synthetic TQ segment: rows of one to eight bits per weight, never stored, read at any byte.
module TqSegment {
  import opened Numeric
  import opened Bitwise
  import opened TqBudget
  import opened TqBacking
  import opened Packing
  import TqTensor

  // ----- the segment description -----

  datatype Spec = Spec(
    rows: nat, width: nat, gs: nat, bitSum: nat, seed: nat, anchorBits: nat,
    histograms: map<(nat, int), seq<int>>, packed: seq<Piece>, nbytes: nat)

  function Groups(s: Spec): nat
    requires s.gs > 0
  {
    (s.width + s.gs - 1) / s.gs
  }

  function ScaleOffset(s: Spec): nat { 64 + s.rows * 8 }

  function ScaleBytes(s: Spec): nat
    requires s.gs > 0
  {
    (s.rows * Groups(s) + 1) / 2
  }

  function PackedOffset(s: Spec): nat
    requires s.gs > 0
  {
    ScaleOffset(s) + ScaleBytes(s)
  }

  function PackedBytes(s: Spec): nat { s.width * s.bitSum / 8 }

  // A stored histogram has the key's rows and bits.
  predicate HistogramsOk(s: Spec)
    requires s.rows > 0
  {
    forall key :: key in StoredKeys(s.bitSum, s.rows) ==>
      && key in s.histograms && Counts(s.histograms[key])
      && RowsOf(s.histograms[key]) == key.0 && LevelSum(s.histograms[key]) == key.1
  }

  predicate Valid(s: Spec) {
    && s.rows > 0 && TqTensor.GroupSize(s.gs) && s.width > 0 && s.width % 256 == 0
    && s.rows <= s.bitSum <= 8 * s.rows
    && s.rows * s.width <= 0xffff_ffff
    && TqTensor.NonnegativeHalf(s.anchorBits)
    && HistogramsOk(s)
    && s.nbytes == PackedOffset(s) + PackedBytes(s)
  }

  // ----- the shuffle -----

  const WORD: nat := 0x1_0000_0000_0000_0000
  const GAMMA: nat := 0x9e37_79b9_7f4a_7c15

  function Mix(v: nat): nat {
    var a := BitXor(v, Shr(v, 30)) * 0xbf58_476d_1ce4_e5b9 % WORD;
    var b := BitXor(a, Shr(a, 27)) * 0x94d0_49bb_1331_11eb % WORD;
    BitXor(b, Shr(b, 31))
  }

  function Swap(xs: seq<nat>, i: nat, j: nat): (r: seq<nat>)
    requires i < |xs| && j < |xs|
    ensures |r| == |xs|
  {
    xs[i := xs[j]][j := xs[i]]
  }

  // The swaps still to do when the loop stands at `index`.
  function Shuffle(xs: seq<nat>, state: nat, index: nat): (r: seq<nat>)
    requires index < |xs| || index == 0
    ensures |r| == |xs|
    decreases index
  {
    if index == 0 then xs
    else
      var next := (state + GAMMA) % WORD;
      Shuffle(Swap(xs, index, Mix(next) % (index + 1)), next, index - 1)
  }

  lemma SwapKeeps(xs: seq<nat>, i: nat, j: nat)
    requires i < |xs| && j < |xs|
    ensures multiset(Swap(xs, i, j)) == multiset(xs) && SumInt(Swap(xs, i, j)) == SumInt(xs)
  {
    hide SumInt;
    SwapSum(xs, i, j);
    SwapElements(xs, i, j);
  }

  lemma SwapSum(xs: seq<nat>, i: nat, j: nat)
    requires i < |xs| && j < |xs|
    ensures SumInt(Swap(xs, i, j)) == SumInt(xs)
  {
    hide SumInt;
    SumIntUpdate(xs, i, xs[j]);
    SumIntUpdate(xs[i := xs[j]], j, xs[i]);
  }

  lemma SwapElements(xs: seq<nat>, i: nat, j: nat)
    requires i < |xs| && j < |xs|
    ensures multiset(Swap(xs, i, j)) == multiset(xs)
  {
    var once := xs[i := xs[j]];
    assert multiset(once) == multiset(xs) - multiset{xs[i]} + multiset{xs[j]};
    assert multiset(once[j := xs[i]]) == multiset(once) - multiset{once[j]} + multiset{xs[i]};
  }

  // A shuffle is a permutation.
  lemma {:induction false} ShufflePermutes(xs: seq<nat>, state: nat, index: nat)
    requires index < |xs| || index == 0
    ensures multiset(Shuffle(xs, state, index)) == multiset(xs)
    ensures SumInt(Shuffle(xs, state, index)) == SumInt(xs)
    decreases index
  {
    hide Mix, Swap, SumInt;
    if index > 0 {
      var next := (state + GAMMA) % WORD;
      var other := Mix(next) % (index + 1);
      SwapKeeps(xs, index, other);
      ShufflePermutes(Swap(xs, index, other), next, index - 1);
    }
  }

  // np.repeat(1..8, counts), levels below n
  function Repeat(counts: seq<int>, n: nat): (xs: seq<nat>)
    requires Counts(counts) && n <= 8
    ensures forall k :: 0 <= k < |xs| ==> 1 <= xs[k] <= 8
  {
    if n == 0 then [] else Repeat(counts, n - 1) + Same(n, counts[n - 1])
  }

  function Same(level: nat, count: nat): (xs: seq<nat>)
    ensures |xs| == count && forall k :: 0 <= k < count ==> xs[k] == level
  {
    seq(count, i => level)
  }

  lemma SameSum(level: nat, count: nat)
    ensures SumInt(Same(level, count)) == level * count
  {
    SumIntBounds(Same(level, count), level, level);
  }

  lemma RepeatExact(counts: seq<int>)
    requires Counts(counts)
    ensures |Repeat(counts, 8)| == RowsOf(counts) && SumInt(Repeat(counts, 8)) == LevelSum(counts)
  {
    hide SumInt, Repeat;
    SumIntEmpty();
    NoRepeat(counts);
    RepeatStep(counts, 1);
    RepeatStep(counts, 2);
    RepeatStep(counts, 3);
    RepeatStep(counts, 4);
    RepeatStep(counts, 5);
    RepeatStep(counts, 6);
    RepeatStep(counts, 7);
    RepeatStep(counts, 8);
  }

  lemma NoRepeat(counts: seq<int>)
    requires Counts(counts)
    ensures Repeat(counts, 0) == []
  {
  }

  lemma SumIntEmpty()
    ensures SumInt([]) == 0
  {
  }

  lemma RepeatStep(counts: seq<int>, n: nat)
    requires Counts(counts) && 0 < n <= 8
    ensures |Repeat(counts, n)| == |Repeat(counts, n - 1)| + counts[n - 1]
    ensures SumInt(Repeat(counts, n)) == SumInt(Repeat(counts, n - 1)) + n * counts[n - 1]
  {
    SumIntConcat(Repeat(counts, n - 1), Same(n, counts[n - 1]));
    SameSum(n, counts[n - 1]);
  }

  // ----- bits per row -----

  predicate InBlocks(s: Spec, block: nat) { block * BLOCK < s.rows }

  function BlockRows(s: Spec, block: nat): nat
  {
    BlockCount(s.rows, BLOCK, block)
  }

  function BlockKey(s: Spec, block: nat): (nat, int)
    requires s.rows > 0
  {
    (BlockRows(s, block), Budget(s.bitSum, s.rows, block * BLOCK, BlockRows(s, block)))
  }

  function BlockBits(s: Spec, block: nat): (bits: seq<nat>)
    requires Valid(s) && InBlocks(s, block)
    ensures |bits| == BlockRows(s, block)
  {
    LookupNeverFails(s.bitSum, s.rows, block);
    var counts := s.histograms[BlockKey(s, block)];
    RepeatExact(counts);
    var levels := Repeat(counts, 8);
    Shuffle(levels, BitXor(s.seed, block), |levels| - 1)
  }

  // Each block's rows carry one to eight bits and together exactly the block's budget.
  lemma BlockBitsExact(s: Spec, block: nat)
    requires Valid(s) && InBlocks(s, block)
    ensures SumInt(BlockBits(s, block)) == Budget(s.bitSum, s.rows, block * BLOCK, BlockRows(s, block))
    ensures forall i :: 0 <= i < |BlockBits(s, block)| ==> 1 <= BlockBits(s, block)[i] <= 8
  {
    hide RowsOf, LevelSum, Repeat, Shuffle, Counts, SumInt, Budget;
    LookupNeverFails(s.bitSum, s.rows, block);
    var counts := s.histograms[BlockKey(s, block)];
    RepeatExact(counts);
    var levels := Repeat(counts, 8);
    ShufflePermutes(levels, BitXor(s.seed, block), |levels| - 1);
    forall i | 0 <= i < |BlockBits(s, block)|
      ensures 1 <= BlockBits(s, block)[i] <= 8
    {
      SameElements(levels, BlockBits(s, block), i);
    }
  }

  lemma SameElements(xs: seq<nat>, ys: seq<nat>, i: nat)
    requires multiset(xs) == multiset(ys) && i < |ys|
    ensures ys[i] in xs
  {
    assert ys[i] in multiset(ys);
  }

  // Fisher-Yates from the last index down.
  method ShuffleInPlace(result: array<nat>, seed: nat)
    requires result.Length > 0
    modifies result
    ensures result[..] == Shuffle(old(result[..]), seed, result.Length - 1)
  {
    hide Mix;
    var state: nat, index: nat := seed, result.Length - 1;
    ghost var before := result[..];
    while index > 0
      invariant 0 <= index < result.Length
      invariant Shuffle(result[..], state, index) == Shuffle(before, seed, result.Length - 1)
    {
      state := (state + GAMMA) % WORD;
      var other := Mix(state) % (index + 1);
      ghost var was := result[..];
      result[index], result[other] := result[other], result[index];
      assert result[..] == Swap(was, index, other);
      index := index - 1;
    }
  }

  method Bits(s: Spec, block: nat) returns (result: array<nat>)
    requires Valid(s) && InBlocks(s, block)
    ensures fresh(result) && result[..] == BlockBits(s, block)
  {
    hide Shuffle, BitXor, RowsOf, LevelSum, Repeat, HistogramsOk;
    var start := block * BLOCK;
    var count := if BLOCK < s.rows - start then BLOCK else s.rows - start;
    var budget := s.bitSum * (start + count) / s.rows - s.bitSum * start / s.rows;
    BlockKeyIs(s, block, count, budget);
    var counts := s.histograms[(count, budget)];
    RepeatExact(counts);
    var levels := Repeat(counts, 8);
    result := new nat[count](i requires 0 <= i < count => levels[i]);
    assert result[..] == levels;
    ShuffleInPlace(result, BitXor(s.seed, block));
  }

  lemma BlockKeyIs(s: Spec, block: nat, count: nat, budget: int)
    requires Valid(s) && InBlocks(s, block)
    requires count == if BLOCK < s.rows - block * BLOCK then BLOCK else s.rows - block * BLOCK
    requires budget == s.bitSum * (block * BLOCK + count) / s.rows - s.bitSum * (block * BLOCK) / s.rows
    ensures BlockKey(s, block) == (count, budget) && (count, budget) in s.histograms
    ensures Counts(s.histograms[(count, budget)]) && RowsOf(s.histograms[(count, budget)]) == count
  {
    hide RowsOf, LevelSum;
    LookupNeverFails(s.bitSum, s.rows, block);
  }

  // ----- rows and their place in the packed stream -----

  lemma RowInBlock(s: Spec, row: nat)
    requires row < s.rows
    ensures InBlocks(s, row / BLOCK) && row % BLOCK < BlockRows(s, row / BLOCK)
  {
    hide BlockRows;
    assert row == (row / BLOCK) * BLOCK + row % BLOCK;
    BlockRowsAre(s, row / BLOCK);
  }

  lemma BlockRowsAre(s: Spec, block: nat)
    requires InBlocks(s, block)
    ensures BlockRows(s, block) == if block * BLOCK + BLOCK <= s.rows then BLOCK else s.rows - block * BLOCK
  {
  }

  function RowBits(s: Spec, row: nat): nat
    requires Valid(s) && row < s.rows
  {
    RowInBlock(s, row);
    BlockBits(s, row / BLOCK)[row % BLOCK]
  }

  lemma RowBitsRange(s: Spec, row: nat)
    requires Valid(s) && row < s.rows
    ensures 1 <= RowBits(s, row) <= 8
  {
    hide BlockBits;
    RowInBlock(s, row);
    BlockBitsExact(s, row / BLOCK);
  }

  // Bits of all rows before this one.
  function Prefix(s: Spec, row: nat): nat
    requires Valid(s) && row < s.rows
  {
    RowInBlock(s, row);
    SumNat(BlockBits(s, row / BLOCK)[..row % BLOCK]);
    Span(s.bitSum, s.rows, row / BLOCK * BLOCK) + SumInt(BlockBits(s, row / BLOCK)[..row % BLOCK])
  }

  // Rows follow one another without a gap, across block boundaries too, and end at the bit sum.
  lemma RowsAreConsecutive(s: Spec, row: nat)
    requires Valid(s) && row < s.rows
    ensures Prefix(s, 0) == 0
    ensures row + 1 < s.rows ==> Prefix(s, row + 1) == Prefix(s, row) + RowBits(s, row)
    ensures row + 1 == s.rows ==> Prefix(s, row) + RowBits(s, row) == s.bitSum
  {
    hide BlockBits, SumInt, Span;
    FirstPrefix(s);
    RowInBlock(s, row);
    var block, at := row / BLOCK, row % BLOCK;
    var bits: seq<nat> := BlockBits(s, block);
    SumIntPrefix(bits, at);
    if at + 1 < |bits| {
      assert (row + 1) / BLOCK == block && (row + 1) % BLOCK == at + 1;
    } else {
      assert bits[..at + 1] == bits;
      BlockBitsExact(s, block);
      BlockRowsAre(s, block);
      if row + 1 < s.rows {
        RowInBlock(s, row + 1);
        assert (row + 1) / BLOCK == block + 1 && (row + 1) % BLOCK == 0;
        NoSum(BlockBits(s, block + 1));
      } else {
        SpanEnds(s.bitSum, s.rows);
      }
    }
  }

  lemma NoSum(bits: seq<nat>)
    ensures SumInt(bits[..0]) == 0
  {
  }

  lemma FirstPrefix(s: Spec)
    requires Valid(s)
    ensures Prefix(s, 0) == 0
  {
    hide BlockBits, Span;
    SpanEnds(s.bitSum, s.rows);
    NoSum(BlockBits(s, 0));
  }

  lemma {:induction false} PrefixBound(s: Spec, row: nat)
    requires Valid(s) && row < s.rows
    ensures Prefix(s, row) <= 8 * row
    decreases row
  {
    hide Prefix, RowBits, BlockBits;
    RowsAreConsecutive(s, 0);
    if row > 0 {
      PrefixBound(s, row - 1);
      RowsAreConsecutive(s, row - 1);
      RowBitsRange(s, row - 1);
    }
  }

  // ----- descriptors -----

  function Words(bits: nat, width: nat): nat { bits * width / 32 }

  function WordOffset(s: Spec, row: nat): nat
    requires Valid(s) && row < s.rows
  {
    Words(Prefix(s, row), s.width)
  }

  // offset | (bits - 1) << 32 | anchor << 40
  function DescriptorWord(offset: nat, bits: nat, anchor: nat): nat
    requires bits > 0
  {
    Or(Or(offset, Shl(bits - 1, 32)), Shl(anchor, 40))
  }

  function Descriptor(s: Spec, row: nat): nat
    requires Valid(s) && row < s.rows
  {
    RowBitsRange(s, row);
    DescriptorWord(WordOffset(s, row), RowBits(s, row), s.anchorBits)
  }

  // A row of k bits per weight takes width * k / 32 whole words.
  function RowWords(s: Spec, row: nat): nat
    requires Valid(s) && row < s.rows
  {
    Words(RowBits(s, row), s.width)
  }

  lemma WholeWords(width: nat, a: nat, b: nat)
    requires width % 256 == 0
    ensures Words(a + b, width) == Words(a, width) + Words(b, width)
    ensures width * a / 8 == Words(a, width) * 4
  {
    var w := width / 32;
    assert width == 32 * w;
    ThirtyTwo(a + b, w, width);
    ThirtyTwo(a, w, width);
    ThirtyTwo(b, w, width);
    Distributes(a, b, w);
  }

  lemma ThirtyTwo(a: nat, w: nat, width: nat)
    requires width == 32 * w
    ensures a * width == width * a == 32 * (a * w)
    ensures a * width / 32 == a * w && width * a / 8 == 4 * (a * w)
  {
  }

  lemma Distributes(a: int, b: int, w: int)
    ensures (a + b) * w == a * w + b * w
  {
  }

  lemma NoWords(width: nat)
    ensures Words(0, width) == 0
  {
  }

  // Word offsets are the running sum of row lengths, and the last row ends at the packed length:
  // exactly what a TQ tensor requires of its descriptors.
  lemma OffsetsTile(s: Spec, row: nat)
    requires Valid(s) && row < s.rows
    ensures WordOffset(s, 0) == 0
    ensures row + 1 < s.rows ==> WordOffset(s, row + 1) == WordOffset(s, row) + RowWords(s, row)
    ensures row + 1 == s.rows ==> (WordOffset(s, row) + RowWords(s, row)) * 4 == PackedBytes(s)
  {
    hide Prefix, RowBits, Words;
    RowsAreConsecutive(s, row);
    WholeWords(s.width, Prefix(s, row), RowBits(s, row));
    WholeWords(s.width, s.bitSum, 0);
    NoWords(s.width);
  }

  // ----- descriptor fields -----

  // Three fields stacked at fixed bit positions are read back by shifting and masking.
  lemma StackedFields(low: nat, n: nat, mid: nat, m: nat, high: nat, h: nat, read: nat)
    requires low < Pow2(n) && mid < Pow2(m) && high < Pow2(h) && read <= m && mid < Pow2(read)
    ensures var d := Or(Or(low, Shl(mid, n)), Shl(high, n + m));
      && d < Pow2(n + m + h)
      && Low(d, n) == low
      && Low(Shr(d, n), read) == mid
      && Low(Shr(d, n + m), h) == high
  {
    hide Or, Shl, Shr, Low, Pow2, Bitwise.BitsOf, ValueOf;
    Stacked(low, n, mid, m);
    var x := Or(low, Shl(mid, n));
    Stacked(x, n + m, high, h);
    var d := Or(x, Shl(high, n + m));
    var all := Bitwise.BitsOf(d, n + m + h);
    MaskReads(d, 0, n, n + m + h);
    ShrZero(d);
    assert all[0..n] == Bitwise.BitsOf(low, n);
    ValueOfBits(low, n);
    MaskReads(d, n, read, n + m + h);
    BitsOfTake(mid, read, m);
    assert all[n..n + read] == Bitwise.BitsOf(mid, m)[..read];
    ValueOfBits(mid, read);
    MaskReads(d, n + m, h, n + m + h);
    assert all[n + m..n + m + h] == Bitwise.BitsOf(high, h);
    ValueOfBits(high, h);
  }

  lemma ShrZero(d: nat)
    ensures Shr(d, 0) == d
  {
  }

  // A descriptor gives its row's word offset, bit width and anchor back, and uses no reserved bits.
  lemma DescriptorFields(s: Spec, row: nat)
    requires Valid(s) && row < s.rows
    ensures var d := Descriptor(s, row);
      && d < Pow2(56)
      && Low(d, 32) == WordOffset(s, row)
      && Low(Shr(d, 32), 3) + 1 == RowBits(s, row)
      && Low(Shr(d, 40), 16) == s.anchorBits
  {
    hide WordOffset, RowBits, Pow2, Or, Shl, Shr, Low, HistogramsOk;
    RowBitsRange(s, row);
    WordPowers();
    OffsetFits(s, row);
    StackedFields(WordOffset(s, row), 32, RowBits(s, row) - 1, 8, s.anchorBits, 16, 3);
  }

  lemma OffsetFits(s: Spec, row: nat)
    requires Valid(s) && row < s.rows
    ensures WordOffset(s, row) < 0x1_0000_0000
  {
    hide Prefix, HistogramsOk;
    PrefixBound(s, row);
    SmallOffset(Prefix(s, row), s.rows, s.width);
  }

  lemma SmallOffset(prefix: nat, rows: nat, width: nat)
    requires prefix <= 8 * rows && rows * width <= 0xffff_ffff
    ensures Words(prefix, width) < 0x1_0000_0000
  {
    Slide(prefix, 8 * rows, width);
    assert (8 * rows) * width == 8 * (rows * width);
  }
}
