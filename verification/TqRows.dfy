// Rows of a synthetic tensor: each segment is read at the bytes its rows need, and the pieces of
// several segments become one tensor.
module TqRows {
  import opened Numeric
  import opened Options
  import opened Bitwise
  import opened TqBacking
  import opened TqSegment
  import opened TqReader
  import opened TqTensor
  import opened Slices

  // ----- words from bytes -----

  function FromLe(bytes: seq<nat>): nat {
    if |bytes| == 0 then 0 else bytes[0] + 256 * FromLe(bytes[1..])
  }

  lemma {:induction false} LeReadsBack(v: nat, n: nat)
    requires v < Pow2(8 * n)
    ensures FromLe(Le(v, n)) == v
  {
    if n > 0 {
      EightMore(n - 1);
      LeReadsBack(v / 256, n - 1);
      assert Le(v, n)[1..] == Le(v / 256, n - 1);
    }
  }

  lemma EightMore(n: nat)
    ensures Pow2(8 * (n + 1)) == 256 * Pow2(8 * n)
  {
    var k := 8 * n;
    assert Pow2(k + 8) == 2 * Pow2(k + 7) && Pow2(k + 7) == 2 * Pow2(k + 6) && Pow2(k + 6) == 2 * Pow2(k + 5);
    assert Pow2(k + 5) == 2 * Pow2(k + 4) && Pow2(k + 4) == 2 * Pow2(k + 3) && Pow2(k + 3) == 2 * Pow2(k + 2);
    assert Pow2(k + 2) == 2 * Pow2(k + 1) && Pow2(k + 1) == 2 * Pow2(k);
  }

  // ----- the tensor a segment stands for -----

  function DescriptorsOf(s: Spec, n: nat): (ds: seq<nat>)
    requires TqSegment.Valid(s) && n <= s.rows
    ensures |ds| == n && forall r :: 0 <= r < n ==> ds[r] == Descriptor(s, r)
  {
    seq(n, r requires 0 <= r < n => Descriptor(s, r))
  }

  function SegmentTensor(s: Spec, files: seq<seq<nat>>): Tensor
    requires TqSegment.Valid(s) && Backed(s, files)
  {
    Tensor(s.rows, s.width, s.gs, false, DescriptorsOf(s, s.rows), ScaleRange(s, 0, ScaleBytes(s)),
      PiecesBytes(files, s.packed))
  }

  lemma DescriptorSays(s: Spec, row: nat)
    requires TqSegment.Valid(s) && row < s.rows
    ensures var d := Descriptor(s, row);
      Offset(d) == WordOffset(s, row) && WordsIn(s.width, d) == TqSegment.RowWords(s, row) && Clean(d) && d < Pow2(64)
  {
    hide WordOffset, TqSegment.RowBits, Descriptor, Low, Shr, Pow2, HistogramsOk;
    DescriptorFields(s, row);
    FieldsAreMasks(Descriptor(s, row));
    CleanDescriptor(s, row);
    RowBitsRange(s, row);
    PrecisionIs(s, row);
    Pow2Monotone(56, 64);
    var bits := TqSegment.RowBits(s, row);
    assert s.width * bits == bits * s.width;
  }

  lemma PrecisionIs(s: Spec, row: nat)
    requires TqSegment.Valid(s) && row < s.rows
    ensures UpperPrecision(Upper(Descriptor(s, row))) == TqSegment.RowBits(s, row)
  {
    hide WordOffset, TqSegment.RowBits, Descriptor, Low, Shr, Pow2, HistogramsOk;
    DescriptorFields(s, row);
    FieldsAreMasks(Descriptor(s, row));
  }

  lemma CleanDescriptor(s: Spec, row: nat)
    requires TqSegment.Valid(s) && row < s.rows
    ensures Clean(Descriptor(s, row))
  {
    hide WordOffset, TqSegment.RowBits, Low, Shr, Or, Shl, Pow2, HistogramsOk;
    RowBitsRange(s, row);
    WordPowers();
    OffsetFits(s, row);
    var bits := TqSegment.RowBits(s, row) - 1;
    StackedFields(WordOffset(s, row), 32, bits, 8, s.anchorBits, 16, 8);
    ReservedZero(Descriptor(s, row), bits, s.anchorBits);
  }

  lemma ReservedZero(d: nat, bits: nat, anchor: nat)
    requires Low(Shr(d, 32), 8) == bits < 8 && Low(Shr(d, 40), 16) == anchor && d < Pow2(56)
    requires NonnegativeHalf(anchor)
    ensures Clean(d)
  {
    hide Shr, Pow2;
    WordPowers();
    Pow2Add(32, 24);
    Pow2Add(16, 8);
    FieldsAreMasks(d);
    MaskIsRemainder(Upper(d), 8);
    EightBits(Upper(d), bits);
    AnchorIs(d, anchor);
  }

  lemma AnchorIs(d: nat, anchor: nat)
    requires Low(Shr(d, 40), 16) == anchor && d < Pow2(56)
    ensures Anchor(d) == anchor
  {
    hide Shr, Low, Pow2;
    WordPowers();
    Pow2Add(32, 8);
    Pow2Add(32, 24);
    Pow2Add(16, 8);
    MaskIsRemainder(d, 40);
    MaskIsRemainder(Shr(d, 40), 16);
  }

  lemma EightBits(u: nat, bits: nat)
    requires u % 256 == bits < 8
    ensures u / 8 % 32 == 0
  {
  }

  lemma {:induction false} SegmentOffsets(s: Spec, row: nat)
    requires TqSegment.Valid(s) && row < s.rows
    ensures WordsBefore(s.width, DescriptorsOf(s, s.rows), row) == WordOffset(s, row)
  {
    hide *;
    OffsetsTile(s, 0);
    NoWordsBefore(s.width, DescriptorsOf(s, s.rows));
    if row > 0 {
      SegmentOffsets(s, row - 1);
      OffsetsTile(s, row - 1);
      DescriptorSays(s, row - 1);
      NextWords(s.width, DescriptorsOf(s, s.rows), row - 1);
    }
  }

  lemma SegmentTiles(s: Spec)
    requires TqSegment.Valid(s)
    ensures Tiles(s.width, DescriptorsOf(s, s.rows), PackedBytes(s))
  {
    hide WordOffset, TqSegment.RowWords, WordsIn, Descriptor, PackedBytes, Offset, HistogramsOk, WordsBefore;
    var ds := DescriptorsOf(s, s.rows);
    forall r | 0 <= r < s.rows
      ensures Offset(ds[r]) == WordsBefore(s.width, ds, r)
    {
      DescriptorSays(s, r);
      SegmentOffsets(s, r);
    }
    SegmentEnd(s);
  }

  lemma SegmentEnd(s: Spec)
    requires TqSegment.Valid(s)
    ensures 4 * WordsBefore(s.width, DescriptorsOf(s, s.rows), s.rows) == PackedBytes(s)
  {
    hide WordOffset, TqSegment.RowWords, WordsIn, Descriptor, PackedBytes, Offset, HistogramsOk;
    var last := s.rows - 1;
    OffsetsTile(s, last);
    DescriptorSays(s, last);
    SegmentOffsets(s, last);
  }

  // A segment's own bytes satisfy every check a TQ tensor makes.
  lemma SegmentIsTensor(s: Spec, files: seq<seq<nat>>)
    requires TqSegment.Valid(s) && Backed(s, files)
    ensures TqTensor.Valid(SegmentTensor(s, files))
  {
    hide Descriptor, Tiles, Clean, Pow2, PackedBytes, HistogramsOk, PiecesBytes, AllInFile;
    SegmentTiles(s);
    forall r | 0 <= r < s.rows
      ensures Clean(Descriptor(s, r))
    {
      DescriptorSays(s, r);
    }
    PackedFits(s);
  }

  lemma PackedFits(s: Spec)
    requires TqSegment.Valid(s)
    ensures PackedBytes(s) <= 4 * LIMIT
  {
    hide HistogramsOk, GroupSize;
    AtMostEightfold(s.rows, s.width, s.bitSum, s.rows * s.width);
  }

  // ----- the header -----

  // Six little-endian words after the magic, as struct unpacks them.
  function HeaderWord(bytes: seq<nat>, k: nat): nat
    requires k < 6 && |bytes| == 64
  {
    FromLe(bytes[8 + 4 * k..12 + 4 * k])
  }

  // Words laid end to end behind a front.
  function Chain(front: seq<nat>, words: seq<seq<nat>>): seq<nat> {
    if |words| == 0 then front else Chain(front, words[..|words| - 1]) + words[|words| - 1]
  }

  predicate Fours(words: seq<seq<nat>>) { forall k :: 0 <= k < |words| ==> |words[k]| == 4 }

  lemma {:induction false} ChainAt(front: seq<nat>, words: seq<seq<nat>>, k: nat)
    requires Fours(words) && k < |words| && |front| == 8
    ensures |Chain(front, words)| == 8 + 4 * |words| && Chain(front, words)[8 + 4 * k..12 + 4 * k] == words[k]
  {
    var n := |words| - 1;
    ChainLength(front, words[..n]);
    if k == n {
      SliceOfTail(Chain(front, words[..n]), words[n], 0, 4);
    } else {
      ChainAt(front, words[..n], k);
      SliceOfHead(Chain(front, words[..n]), words[n], 8 + 4 * k, 12 + 4 * k);
    }
  }

  lemma {:induction false} ChainLength(front: seq<nat>, words: seq<seq<nat>>)
    requires Fours(words)
    ensures |Chain(front, words)| == |front| + 4 * |words| && Chain(front, words)[..|front|] == front
  {
    if |words| > 0 { ChainLength(front, words[..|words| - 1]); }
  }

  lemma ChainMore(front: seq<nat>, words: seq<seq<nat>>, w: seq<nat>)
    ensures Chain(front, words + [w]) == Chain(front, words) + w
  {
    assert (words + [w])[..|words|] == words;
  }

  function HeaderWords(s: Spec): (words: seq<seq<nat>>)
    ensures |words| == 6 && Fours(words)
  {
    [Le(5, 4), Le(s.rows, 4), Le(s.width, 4), Le(0, 4), Le(s.gs, 4), Le(PackedBytes(s), 4)]
  }

  lemma HeaderIsChain(s: Spec)
    ensures Header(s) == Chain(MAGIC, HeaderWords(s)) + seq(32, i => 0)
  {
    hide Le, Chain;
    var a, b, c, d, e, f := Le(5, 4), Le(s.rows, 4), Le(s.width, 4), Le(0, 4), Le(s.gs, 4), Le(PackedBytes(s), 4);
    NoChain(MAGIC);
    ChainMore(MAGIC, [], a);
    ChainMore(MAGIC, [a], b);
    ChainMore(MAGIC, [a, b], c);
    ChainMore(MAGIC, [a, b, c], d);
    ChainMore(MAGIC, [a, b, c, d], e);
    ChainMore(MAGIC, [a, b, c, d, e], f);
    assert [] + [a] == [a] && [a] + [b] == [a, b] && [a, b] + [c] == [a, b, c] && [a, b, c] + [d] == [a, b, c, d];
    assert [a, b, c, d] + [e] == [a, b, c, d, e] && [a, b, c, d, e] + [f] == [a, b, c, d, e, f];
  }

  lemma NoChain(front: seq<nat>)
    ensures Chain(front, []) == front
  {
  }

  lemma HeaderWordIs(s: Spec, k: nat, v: nat)
    requires k < 6 && HeaderWords(s)[k] == Le(v, 4) && v < 0x1_0000_0000
    ensures HeaderWord(Header(s), k) == v
  {
    hide Le, Chain, Header, FromLe, Pow2, HeaderWords;
    WordPowers();
    HeaderIsChain(s);
    ChainAt(MAGIC, HeaderWords(s), k);
    SliceOfHead(Chain(MAGIC, HeaderWords(s)), seq(32, i => 0), 8 + 4 * k, 12 + 4 * k);
    LeReadsBack(v, 4);
  }

  const COMPACT: seq<nat> := [82, 84, 82, 69, 76, 76, 48, 54]

  // The reader's constructor raises nothing over these 64 bytes and this total length.
  predicate Accepts(h: seq<nat>, nbytes: nat)
    requires |h| == 64
  {
    var compact := h[..8] == COMPACT && HeaderWord(h, 0) == 6;
    var rows, width, columns, gs, packed := HeaderWord(h, 1), HeaderWord(h, 2), HeaderWord(h, 3), HeaderWord(h, 4),
      HeaderWord(h, 5);
    && (compact || (h[..8] == MAGIC && HeaderWord(h, 0) == 5)) && (columns == 0 || columns == 1)
    && rows > 0 && width > 0 && width % 32 == 0 && (forall i :: 32 <= i < 64 ==> h[i] == 0)
    && (if compact then columns == 1 && width % 256 != 0 else width % 256 == 0)
    && (columns == 0 ==> GroupSize(gs))
    && 64 + rows * 8 + (if columns == 1 then width * 2 else (rows * ((width + gs - 1) / gs) + 1) / 2) + packed == nbytes
  }

  // The reader's constructor accepts a segment's header and finds the segment's own sizes in it.
  lemma HeaderReadsBack(s: Spec)
    requires TqSegment.Valid(s)
    ensures var h := Header(s);
      && Accepts(h, s.nbytes)
      && HeaderWord(h, 1) == s.rows && HeaderWord(h, 2) == s.width && HeaderWord(h, 3) == 0
      && HeaderWord(h, 4) == s.gs && HeaderWord(h, 5) == PackedBytes(s)
  {
    hide TqSegment.Valid, Le, FromLe, Header, HeaderWord, HeaderWords, Chain, PackedBytes, Accepts;
    HeaderFits(s);
    WordsListed(s);
    HeaderWordIs(s, 0, 5);
    HeaderWordIs(s, 1, s.rows);
    HeaderWordIs(s, 2, s.width);
    HeaderWordIs(s, 3, 0);
    HeaderWordIs(s, 4, s.gs);
    HeaderWordIs(s, 5, PackedBytes(s));
    HeaderIsChain(s);
    ChainLength(MAGIC, HeaderWords(s));
    HeaderEnds(Chain(MAGIC, HeaderWords(s)), Header(s));
    ThenAccepted(s, Header(s));
  }

  lemma WordsListed(s: Spec)
    ensures var w := HeaderWords(s);
      && w[0] == Le(5, 4) && w[1] == Le(s.rows, 4) && w[2] == Le(s.width, 4) && w[3] == Le(0, 4)
      && w[4] == Le(s.gs, 4) && w[5] == Le(PackedBytes(s), 4)
    ensures |MAGIC| == 8
  {
    hide Le;
  }

  lemma ThenAccepted(s: Spec, h: seq<nat>)
    requires TqSegment.Valid(s) && |h| == 64 && h[..8] == MAGIC && forall i :: 32 <= i < 64 ==> h[i] == 0
    requires HeaderWord(h, 0) == 5 && HeaderWord(h, 1) == s.rows && HeaderWord(h, 2) == s.width
    requires HeaderWord(h, 3) == 0 && HeaderWord(h, 4) == s.gs && HeaderWord(h, 5) == PackedBytes(s)
    ensures Accepts(h, s.nbytes)
  {
    hide HeaderWord, HistogramsOk, PackedBytes, And;
  }

  lemma HeaderEnds(front: seq<nat>, bytes: seq<nat>)
    requires |front| == 32 && front[..8] == MAGIC && bytes == front + seq(32, i => 0)
    ensures bytes[..8] == MAGIC && forall i :: 32 <= i < 64 ==> bytes[i] == 0
  {
    SliceOfHead(front, seq(32, i => 0), 0, 8);
  }

  lemma HeaderFits(s: Spec)
    requires TqSegment.Valid(s)
    ensures s.rows < LIMIT && s.width < LIMIT && s.gs < LIMIT && PackedBytes(s) < LIMIT
  {
    hide HistogramsOk;
    AtLeastOne(s.rows, s.width, s.rows * s.width);
    AtMostEightfold(s.rows, s.width, s.bitSum, s.rows * s.width);
  }

  lemma AtLeastOne(rows: nat, width: nat, product: nat)
    requires rows > 0 && width > 0 && product == rows * width
    ensures rows <= product && width <= product
  {
  }

  lemma AtMostEightfold(rows: nat, width: nat, bits: nat, product: nat)
    requires bits <= 8 * rows && product == rows * width
    ensures width * bits / 8 <= product
  {
    Slide(bits, 8 * rows, width);
    assert width * bits == bits * width && (8 * rows) * width == 8 * product;
  }

  // ----- where a segment's parts lie in its bytes -----

  lemma PartOfWhole(a: seq<nat>, b: seq<nat>, c: seq<nat>, d: seq<nat>, lo: nat, hi: nat)
    requires lo <= hi
    ensures hi <= |b| ==> (a + b + c + d)[|a| + lo..|a| + hi] == b[lo..hi]
    ensures hi <= |c| ==> (a + b + c + d)[|a| + |b| + lo..|a| + |b| + hi] == c[lo..hi]
    ensures hi <= |d| ==> (a + b + c + d)[|a| + |b| + |c| + lo..|a| + |b| + |c| + hi] == d[lo..hi]
  {
    if hi <= |b| {
      SliceOfTail(a, b, lo, hi);
      SliceOfHead(a + b, c, |a| + lo, |a| + hi);
      SliceOfHead(a + b + c, d, |a| + lo, |a| + hi);
    }
    if hi <= |c| {
      SliceOfTail(a + b, c, lo, hi);
      SliceOfHead(a + b + c, d, |a| + |b| + lo, |a| + |b| + hi);
    }
    if hi <= |d| {
      SliceOfTail(a + b + c, d, lo, hi);
    }
  }

  lemma DescriptorsInWhole(s: Spec, files: seq<seq<nat>>, b: nat, e: nat)
    requires TqSegment.Valid(s) && Backed(s, files) && b <= e <= s.rows
    ensures 64 + 8 * e <= s.nbytes && Whole(s, files)[64 + 8 * b..64 + 8 * e] == DescriptorBytes(s, b, e)
  {
    hide *;
    SegmentLayout(s, files);
    DescriptorSlice(s, b, e, s.rows);
    PartOfWhole(Header(s), DescriptorBytes(s, 0, s.rows), ScaleRange(s, 0, ScaleBytes(s)),
      PiecesBytes(files, s.packed), 8 * b, 8 * e);
  }

  lemma ScalesInWhole(s: Spec, files: seq<seq<nat>>, lo: nat, hi: nat)
    requires TqSegment.Valid(s) && Backed(s, files) && lo <= hi <= ScaleBytes(s)
    ensures ScaleOffset(s) + hi <= s.nbytes
    ensures Whole(s, files)[ScaleOffset(s) + lo..ScaleOffset(s) + hi] == ScaleRange(s, 0, ScaleBytes(s))[lo..hi]
  {
    hide *;
    SegmentLayout(s, files);
    PartOfWhole(Header(s), DescriptorBytes(s, 0, s.rows), ScaleRange(s, 0, ScaleBytes(s)),
      PiecesBytes(files, s.packed), lo, hi);
  }

  lemma PackedInWhole(s: Spec, files: seq<seq<nat>>, lo: nat, hi: nat)
    requires TqSegment.Valid(s) && Backed(s, files) && lo <= hi <= PackedBytes(s)
    ensures PackedOffset(s) + hi <= s.nbytes
    ensures Whole(s, files)[PackedOffset(s) + lo..PackedOffset(s) + hi] == PiecesBytes(files, s.packed)[lo..hi]
  {
    hide *;
    SegmentLayout(s, files);
    PartOfWhole(Header(s), DescriptorBytes(s, 0, s.rows), ScaleRange(s, 0, ScaleBytes(s)),
      PiecesBytes(files, s.packed), lo, hi);
  }

  // ----- reading rows begin..end -----

  // np.frombuffer(bytes, '<u8')
  method Words64(bytes: seq<nat>) returns (words: seq<nat>)
    requires |bytes| % 8 == 0
    ensures |words| == |bytes| / 8
    ensures forall k :: 0 <= k < |words| ==> words[k] == FromLe(bytes[8 * k..8 * k + 8])
  {
    words := [];
    for k := 0 to |bytes| / 8
      invariant |words| == k
      invariant forall j :: 0 <= j < k ==> words[j] == FromLe(bytes[8 * j..8 * j + 8])
    {
      words := words + [FromLe(bytes[8 * k..8 * k + 8])];
    }
  }

  lemma DescriptorWordReads(s: Spec, b: nat, e: nat, k: nat)
    requires TqSegment.Valid(s) && b <= e <= s.rows && k < e - b
    ensures FromLe(DescriptorBytes(s, b, e)[8 * k..8 * k + 8]) == Descriptor(s, b + k)
  {
    hide Descriptor, Le, FromLe, Pow2, DescriptorBytes, HistogramsOk;
    DescriptorSlice(s, b, e, s.rows);
    DescriptorSlice(s, b + k, b + k + 1, s.rows);
    SliceOfSlice(DescriptorBytes(s, 0, s.rows), 8 * b, 8 * e, 8 * (b + k), 8 * (b + k + 1));
    OneDescriptor(s, b + k);
    DescriptorSays(s, b + k);
    LeReadsBack(Descriptor(s, b + k), 8);
  }

  lemma OneDescriptor(s: Spec, row: nat)
    requires TqSegment.Valid(s) && row < s.rows
    ensures DescriptorBytes(s, row, row + 1) == Le(Descriptor(s, row), 8)
  {
    hide Descriptor, Le;
    assert DescriptorBytes(s, row, row) == [];
  }

  method ReadRowDescriptors(s: Spec, files: seq<seq<nat>>, begin: nat, end: nat) returns (ds: seq<nat>)
    requires TqSegment.Valid(s) && Backed(s, files) && begin <= end <= s.rows
    ensures ds == DescriptorsOf(s, s.rows)[begin..end]
  {
    hide *;
    DescriptorsInWhole(s, files, begin, end);
    var bytes := Read(s, files, 64 + begin * 8, (end - begin) * 8);
    ds := Words64(bytes.value);
    forall k | 0 <= k < end - begin
      ensures ds[k] == Descriptor(s, begin + k)
    {
      DescriptorWordReads(s, begin, end, k);
    }
  }

  // Offsets counted from the first row's; the rest of each descriptor kept.
  method Rebase(width: nat, all: seq<nat>, bytes: nat, begin: nat, end: nat, ds: seq<nat>) returns (result: seq<nat>)
    requires Tiles(width, all, bytes) && begin < end <= |all| && ds == all[begin..end]
    ensures result == Rebased(width, all, begin, end)
  {
    hide Offset, WithOffset, WordsBefore, Tiles;
    result := [];
    TileOffset(width, all, bytes, begin);
    for k := 0 to |ds|
      invariant result == Rebased(width, all, begin, begin + k)
    {
      TileOffset(width, all, bytes, begin + k);
      WordsMonotone(width, all, begin, begin + k);
      result := result + [WithOffset(ds[k], Offset(ds[k]) - Offset(ds[0]))];
    }
  }

  lemma TileOffset(width: nat, ds: seq<nat>, bytes: nat, r: nat)
    requires Tiles(width, ds, bytes) && r < |ds|
    ensures Offset(ds[r]) == WordsBefore(width, ds, r)
  {
    hide Offset, WordsBefore;
  }

  // All selectors of the segment, `groups` a row.
  function AllSelectors(s: Spec): (values: seq<nat>)
    requires TqSegment.Valid(s)
    ensures Sized(s.rows, TqSegment.Groups(s), |values|)
  {
    SelectorsFitBytes(s);
    Selectors(ScaleRange(s, 0, ScaleBytes(s)), s.rows * TqSegment.Groups(s))
  }

  lemma SelectorsFitBytes(s: Spec)
    requires TqSegment.Valid(s)
    ensures 0 <= s.rows * TqSegment.Groups(s) <= 2 * ScaleBytes(s)
  {
    hide HistogramsOk;
  }

  // Selectors of rows begin..end from the bytes that hold them; the first may be a high nibble.
  method ReadRowSelectors(s: Spec, files: seq<seq<nat>>, begin: nat, end: nat) returns (values: seq<nat>)
    requires TqSegment.Valid(s) && Backed(s, files) && begin <= end <= s.rows
    ensures values == SelectorRows(s.rows, TqSegment.Groups(s), AllSelectors(s), begin, end)
  {
    hide HistogramsOk, Whole, ScaleRange, Selector, ScaleOffset, PackedOffset, Sized, AllSelectors, ScaleBytes,
      TqSegment.Groups;
    SegmentGeometry(s);
    var first, count := begin * TqSegment.Groups(s), (end - begin) * TqSegment.Groups(s);
    SelectorSpan(s, begin, end);
    var startByte, endByte := first / 2, (first + count + 1) / 2;
    ScalesInWhole(s, files, startByte, endByte);
    var bytes := Read(s, files, ScaleOffset(s) + startByte, endByte - startByte);
    var source := bytes.value;
    values := [];
    for i := 0 to count
      invariant |values| == i
      invariant forall j :: 0 <= j < i ==> values[j] == Selector(ScaleRange(s, 0, ScaleBytes(s)), first + j)
    {
      ShiftedSelector(ScaleRange(s, 0, ScaleBytes(s)), startByte, endByte, i + first % 2);
      values := values + [Selector(source, i + first % 2)];
    }
    SelectorsRead(s, begin, end, values);
  }

  lemma SelectorsRead(s: Spec, begin: nat, end: nat, values: seq<nat>)
    requires TqSegment.Valid(s) && begin <= end <= s.rows
    requires 0 <= begin * TqSegment.Groups(s)
    requires begin * TqSegment.Groups(s) + |values| == end * TqSegment.Groups(s) <= 2 * ScaleBytes(s)
    requires forall j :: 0 <= j < |values| ==>
      values[j] == Selector(ScaleRange(s, 0, ScaleBytes(s)), begin * TqSegment.Groups(s) + j)
    ensures values == SelectorRows(s.rows, TqSegment.Groups(s), AllSelectors(s), begin, end)
  {
    hide HistogramsOk, ScaleRange, Selector, ScaleBytes, TqSegment.Groups;
    SelectorsFitBytes(s);
    SelectorsInside(s.rows, TqSegment.Groups(s), s.rows * TqSegment.Groups(s), begin, end);
  }

  lemma ShiftedSelector(scales: seq<nat>, lo: nat, hi: nat, i: nat)
    requires lo <= hi <= |scales| && i < 2 * (hi - lo)
    ensures Selector(scales[lo..hi], i) == Selector(scales, 2 * lo + i)
  {
  }

  lemma SelectorSpan(s: Spec, begin: nat, end: nat)
    requires TqSegment.Valid(s) && begin <= end <= s.rows
    ensures var g := TqSegment.Groups(s);
      0 <= begin * g <= end * g <= 2 * ScaleBytes(s) && end * g == begin * g + (end - begin) * g
  {
    hide HistogramsOk, TqSegment.Groups;
    SpanArithmetic(begin, end, s.rows, TqSegment.Groups(s), s.rows * TqSegment.Groups(s), ScaleBytes(s));
  }

  lemma SpanArithmetic(begin: nat, end: nat, rows: nat, g: nat, total: nat, bytes: nat)
    requires begin <= end <= rows && total == rows * g && bytes == (total + 1) / 2
    ensures 0 <= begin * g <= end * g <= 2 * bytes && end * g == begin * g + (end - begin) * g
  {
    SelectorsInside(rows, g, total, begin, end);
    ProductSum(begin, end - begin, g);
  }

  // The segment's tensor with its selectors unpacked.
  function SegmentParts(s: Spec, files: seq<seq<nat>>): Parts
    requires TqSegment.Valid(s) && Backed(s, files)
  {
    PartsOf(SegmentTensor(s, files))
  }

  function SegmentViews(s: Spec, files: seq<seq<nat>>): (views: seq<RowView>)
    requires TqSegment.Valid(s) && Backed(s, files)
    ensures |views| == s.rows
  {
    SegmentIsTensor(s, files);
    TensorViews(SegmentTensor(s, files))
  }

  lemma SegmentPartsOk(s: Spec, files: seq<seq<nat>>)
    requires TqSegment.Valid(s) && Backed(s, files)
    ensures TensorParts(SegmentParts(s, files), s.gs) && Views(SegmentParts(s, files)) == SegmentViews(s, files)
  {
    hide Tiles, AllClean, Pow2, PiecesBytes, AllInFile, HistogramsOk, Views;
    SegmentIsTensor(s, files);
  }

  lemma SegmentPartsAre(s: Spec, files: seq<seq<nat>>)
    requires TqSegment.Valid(s) && Backed(s, files)
    ensures var p := SegmentParts(s, files);
      && p.width == s.width && p.groups == TqSegment.Groups(s) && p.descriptors == DescriptorsOf(s, s.rows)
      && p.packed == PiecesBytes(files, s.packed) && |p.packed| == PackedBytes(s) && p.selectors == AllSelectors(s)
  {
    hide Selector, PiecesBytes, AllInFile, HistogramsOk, ScaleRange;
  }

  lemma ByteLength(width: nat, d: nat)
    requires width % 256 == 0
    ensures width * UpperPrecision(Upper(d)) / 8 == 4 * WordsIn(width, d)
  {
    hide Upper;
    WholeWords(width, UpperPrecision(Upper(d)), 0);
    assert UpperPrecision(Upper(d)) * width == width * UpperPrecision(Upper(d));
  }

  // Where a row's payload begins in the segment's packed bytes.
  function FirstByte(s: Spec, row: nat): nat
    requires TqSegment.Valid(s) && row <= s.rows
  {
    4 * WordsBefore(s.width, DescriptorsOf(s, s.rows), row)
  }

  lemma FirstByteIs(s: Spec, row: nat)
    requires TqSegment.Valid(s) && row <= s.rows
    ensures FirstByte(s, row) == 4 * WordsBefore(s.width, DescriptorsOf(s, s.rows), row)
  {
  }

  // Where the first and last rows' descriptors say their payload begins and ends.
  lemma PayloadRange(s: Spec, files: seq<seq<nat>>, begin: nat, end: nat, ds: seq<nat>)
    requires TqSegment.Valid(s) && Backed(s, files) && begin < end <= s.rows
    requires ds == DescriptorsOf(s, s.rows)[begin..end]
    ensures var first, last := Offset(ds[0]) * 4, ds[|ds| - 1];
      var finish := Offset(last) * 4 + s.width * UpperPrecision(Upper(last)) / 8;
      && first == FirstByte(s, begin) && finish == FirstByte(s, end)
      && first <= finish <= PackedBytes(s) && s.gs > 0
  {
    hide *;
    var all := DescriptorsOf(s, s.rows);
    FirstByteIs(s, begin);
    FirstByteIs(s, end);
    SegmentGeometry(s);
    SegmentTiles(s);
    TileOffset(s.width, all, PackedBytes(s), begin);
    TileOffset(s.width, all, PackedBytes(s), end - 1);
    ByteLength(s.width, all[end - 1]);
    NextWords(s.width, all, end - 1);
    PackedInside(s.width, all, PackedBytes(s), begin, end);
  }

  lemma SegmentGeometry(s: Spec)
    requires TqSegment.Valid(s)
    ensures s.gs > 0 && s.width % 256 == 0
  {
  }

  // Rows begin..end of a segment, read from its bytes: a valid tensor whose rows say exactly what
  // the segment's rows say.
  method SliceRows(s: Spec, files: seq<seq<nat>>, begin: int, end: int) returns (t: Option<Tensor>)
    requires TqSegment.Valid(s) && Backed(s, files)
    ensures t.None? <==> !(0 <= begin < end <= s.rows)
    ensures t.Some? ==> TqTensor.Valid(t.value) && TensorViews(t.value) == SegmentViews(s, files)[begin..end]
    ensures t.Some? ==> t.value.width == s.width && t.value.gs == s.gs
    ensures t.Some? ==> !t.value.columns && t.value.rows == end - begin
  {
    hide *;
    if !(0 <= begin < end <= s.rows) {
      return None;
    }
    var ds := ReadRowDescriptors(s, files, begin, end);
    PayloadRange(s, files, begin, end, ds);
    var first, last := Offset(ds[0]) * 4, ds[|ds| - 1];
    var finish := Offset(last) * 4 + s.width * UpperPrecision(Upper(last)) / 8;
    if finish > PackedBytes(s) || first > finish {
      return None;
    }
    PackedInWhole(s, files, first, finish);
    var packed := Read(s, files, PackedOffset(s) + first, finish - first);
    SegmentTiles(s);
    ds := Rebase(s.width, DescriptorsOf(s, s.rows), PackedBytes(s), begin, end, ds);
    var values := ReadRowSelectors(s, files, begin, end);
    t := Some(Tensor(end - begin, s.width, s.gs, false, ds, PackSelectors(values), packed.value));
    SlicedTensor(s, files, begin, end, ds, packed.value, values);
  }

  lemma SlicedTensor(s: Spec, files: seq<seq<nat>>, begin: nat, end: nat, ds: seq<nat>, packed: seq<nat>,
      values: seq<nat>)
    requires TqSegment.Valid(s) && Backed(s, files) && begin < end <= s.rows
    requires ds == Rebased(s.width, DescriptorsOf(s, s.rows), begin, end)
    requires var first, finish := FirstByte(s, begin), FirstByte(s, end);
      first <= finish <= PackedBytes(s) && packed == PiecesBytes(files, s.packed)[first..finish]
    requires values == SelectorRows(s.rows, TqSegment.Groups(s), AllSelectors(s), begin, end)
    ensures var t := Tensor(end - begin, s.width, s.gs, false, ds, PackSelectors(values), packed);
      TqTensor.Valid(t) && TensorViews(t) == SegmentViews(s, files)[begin..end]
  {
    hide Tiles, AllClean, PiecesBytes, AllInFile, HistogramsOk, Views, ScaleRange, Selectors, Rebased, WordsBefore,
      Descriptor, ScaleBytes, TqSegment.Groups, SegmentParts, PackedBytes, Pow2, TensorViews, TqTensor.Valid,
        PackSelectors;
    var p := SegmentParts(s, files);
    SegmentPartsAre(s, files);
    SegmentPartsOk(s, files);
    SliceTensorParts(p, s.gs, begin, end);
    TensorOfParts(SliceParts(p, begin, end), s.gs);
  }

  // ----- rows across segments -----

  predicate SegmentsOk(segments: seq<Spec>, files: seq<seq<nat>>) {
    forall i :: 0 <= i < |segments| ==>
      TqSegment.Valid(segments[i]) && Backed(segments[i], files)
      && segments[i].width == segments[0].width && segments[i].gs == segments[0].gs
  }

  function AllViews(segments: seq<Spec>, files: seq<seq<nat>>, n: nat): (views: seq<RowView>)
    requires SegmentsOk(segments, files) && n <= |segments|
    ensures |views| == RowsBefore(segments, n)
  {
    if n == 0 then [] else AllViews(segments, files, n - 1) + SegmentViews(segments[n - 1], files)
  }

  function RowsBefore(segments: seq<Spec>, n: nat): nat
    requires n <= |segments|
  {
    if n == 0 then 0 else RowsBefore(segments, n - 1) + segments[n - 1].rows
  }

  predicate ChunksOk(chunks: seq<Tensor>, width: nat, gs: nat) {
    forall i :: 0 <= i < |chunks| ==>
      TqTensor.Valid(chunks[i]) && chunks[i].width == width && chunks[i].gs == gs && !chunks[i].columns
  }

  predicate AllTensors(chunks: seq<Tensor>) { forall i :: 0 <= i < |chunks| ==> TqTensor.Valid(chunks[i]) }

  function FlatViews(chunks: seq<Tensor>, n: nat): seq<RowView>
    requires n <= |chunks| && AllTensors(chunks)
  {
    if n == 0 then [] else FlatViews(chunks, n - 1) + TensorViews(chunks[n - 1])
  }

  lemma {:induction false} FlatSnoc(chunks: seq<Tensor>, t: Tensor, n: nat)
    requires n <= |chunks| && TqTensor.Valid(t) && AllTensors(chunks)
    ensures FlatViews(chunks + [t], n) == FlatViews(chunks, n)
  {
    hide TqTensor.Valid, TensorViews;
    if n > 0 { FlatSnoc(chunks, t, n - 1); }
  }

  // What of begin..end the first |xs| elements hold.
  function Within<T>(xs: seq<T>, begin: nat, end: nat): seq<T>
    requires begin <= end
  {
    xs[Smaller(begin, |xs|)..Smaller(end, |xs|)]
  }

  lemma WithinStep<T>(xs: seq<T>, ys: seq<T>, begin: nat, end: nat)
    requires begin <= end
    ensures var first, last := Larger(begin, |xs|), Smaller(end, |xs| + |ys|);
      Within(xs + ys, begin, end) == Within(xs, begin, end) + if first < last then ys[first - |xs|..last - |xs|] else []
  {
    var last := Smaller(end, |xs| + |ys|);
    if end <= |xs| {
      SliceOfHead(xs, ys, begin, end);
    } else if begin < |xs| {
      SliceAcross(xs, ys, begin, last);
    } else if begin < last {
      SliceOfTail(xs, ys, begin - |xs|, last - |xs|);
      NoElements(xs, |xs|);
    } else {
      NoElements(xs + ys, Smaller(begin, |xs + ys|));
      NoElements(xs, |xs|);
    }
  }

  lemma NoElements<T>(xs: seq<T>, at: nat)
    requires at <= |xs|
    ensures xs[at..at] == []
  {
  }

  // One chunk from every segment that holds rows of begin..end.
  method Chunks(segments: seq<Spec>, files: seq<seq<nat>>, begin: nat, end: nat) returns (chunks: seq<Tensor>)
    requires SegmentsOk(segments, files) && begin < end <= RowsBefore(segments, |segments|)
    ensures |chunks| > 0 && |segments| > 0
    ensures ChunksOk(chunks, segments[0].width, segments[0].gs)
    ensures FlatViews(chunks, |chunks|) == AllViews(segments, files, |segments|)[begin..end]
  {
    hide *;
    chunks := [];
    var start: nat := 0;
    NothingChunked(segments, files, begin, end);
    for k := 0 to |segments|
      invariant start == RowsBefore(segments, k) && Chunked(chunks, segments, files, k, begin, end)
    {
      var s := segments[k];
      var first, last := Larger(begin, start), Smaller(end, start + s.rows);
      SegmentOk(segments, files, k);
      Bounds(begin, end, start, s.rows);
      if first < last {
        var t := SliceRows(s, files, first - start, last - start);
        ChunkAdded(chunks, segments, files, k, begin, end, t.value, SegmentViews(s, files), start, first, last);
        chunks := chunks + [t.value];
      } else {
        NoChunk(chunks, segments, files, k, begin, end);
      }
      start := start + s.rows;
    }
    AllChunked(chunks, segments, files, begin, end);
  }

  lemma SegmentOk(segments: seq<Spec>, files: seq<seq<nat>>, k: nat)
    requires SegmentsOk(segments, files) && k < |segments|
    ensures TqSegment.Valid(segments[k]) && Backed(segments[k], files)
    ensures segments[k].width == segments[0].width && segments[k].gs == segments[0].gs
    ensures RowsBefore(segments, k + 1) == RowsBefore(segments, k) + segments[k].rows
    ensures AllViews(segments, files, k + 1) == AllViews(segments, files, k) + SegmentViews(segments[k], files)
  {
    hide TqSegment.Valid, Backed, SegmentViews;
  }

  lemma Bounds(begin: nat, end: nat, start: nat, rows: nat)
    requires begin < end
    ensures Larger(begin, start) >= start && Smaller(end, start + rows) <= start + rows
  {
  }

  // What the chunks of the first k segments hold.
  ghost predicate Chunked(chunks: seq<Tensor>, segments: seq<Spec>, files: seq<seq<nat>>, k: nat, begin: nat, end: nat)
    requires SegmentsOk(segments, files) && k <= |segments| && begin <= end
  {
    && (|segments| == 0 ==> chunks == [])
    && (|segments| > 0 ==> ChunksOk(chunks, segments[0].width, segments[0].gs))
    && AllTensors(chunks)
    && FlatViews(chunks, |chunks|) == Within(AllViews(segments, files, k), begin, end)
  }

  lemma NothingChunked(segments: seq<Spec>, files: seq<seq<nat>>, begin: nat, end: nat)
    requires SegmentsOk(segments, files) && begin <= end
    ensures RowsBefore(segments, 0) == 0 && Chunked([], segments, files, 0, begin, end)
  {
    hide SegmentsOk;
  }

  lemma ChunkAdded(chunks: seq<Tensor>, segments: seq<Spec>, files: seq<seq<nat>>, k: nat, begin: nat, end: nat,
      t: Tensor, views: seq<RowView>, start: nat, first: nat, last: nat)
    requires SegmentsOk(segments, files) && k < |segments| && begin < end
    requires Chunked(chunks, segments, files, k, begin, end)
    requires TqTensor.Valid(t) && t.width == segments[k].width && t.gs == segments[k].gs && !t.columns
    requires TqSegment.Valid(segments[k]) && Backed(segments[k], files) && views == SegmentViews(segments[k], files)
    requires start == RowsBefore(segments, k) <= first < last <= start + |views|
    requires first == Larger(begin, start) && last == Smaller(end, start + |views|)
    requires TensorViews(t) == views[first - start..last - start]
    ensures Chunked(chunks + [t], segments, files, k + 1, begin, end)
  {
    hide TqTensor.Valid, TensorViews, SegmentViews, TqSegment.Valid, Backed, Within, SegmentsOk, RowsBefore, AllViews,
      Smaller, Larger;
    SegmentOk(segments, files, k);
    WithinStep(AllViews(segments, files, k), SegmentViews(segments[k], files), begin, end);
    FlatSnoc(chunks, t, |chunks|);
  }

  lemma NoChunk(chunks: seq<Tensor>, segments: seq<Spec>, files: seq<seq<nat>>, k: nat, begin: nat, end: nat)
    requires SegmentsOk(segments, files) && k < |segments| && begin < end
    requires Chunked(chunks, segments, files, k, begin, end)
    requires var start := RowsBefore(segments, k);
      Larger(begin, start) >= Smaller(end, start + segments[k].rows)
    ensures Chunked(chunks, segments, files, k + 1, begin, end)
  {
    hide TqTensor.Valid, TensorViews, SegmentViews, TqSegment.Valid, Backed, Within, SegmentsOk, RowsBefore, AllViews,
      Smaller, Larger, FlatViews;
    SegmentOk(segments, files, k);
    WithinStep(AllViews(segments, files, k), SegmentViews(segments[k], files), begin, end);
  }

  lemma AllChunked(chunks: seq<Tensor>, segments: seq<Spec>, files: seq<seq<nat>>, begin: nat, end: nat)
    requires SegmentsOk(segments, files) && begin < end <= RowsBefore(segments, |segments|)
    requires Chunked(chunks, segments, files, |segments|, begin, end)
    ensures |chunks| > 0 && |segments| > 0 && ChunksOk(chunks, segments[0].width, segments[0].gs)
    ensures FlatViews(chunks, |chunks|) == AllViews(segments, files, |segments|)[begin..end]
  {
    hide TqTensor.Valid, TensorViews, AllViews, SegmentsOk, Within;
    AllWithin(AllViews(segments, files, |segments|), begin, end);
  }

  lemma AllWithin<T>(xs: seq<T>, begin: nat, end: nat)
    requires begin <= end <= |xs|
    ensures Within(xs, begin, end) == xs[begin..end]
  {
  }

  function NoRows(width: nat, groups: nat): Parts { Parts(width, groups, [], [], []) }

  lemma NoRowsOk(width: nat, gs: nat)
    requires width > 0 && width % 256 == 0 && GroupSize(gs)
    ensures TensorParts(NoRows(width, (width + gs - 1) / gs), gs)
    ensures Views(NoRows(width, (width + gs - 1) / gs)) == []
  {
    hide Pow2;
  }

  lemma ChunkParts(t: Tensor)
    requires TqTensor.Valid(t) && !t.columns
    ensures TensorParts(PartsOf(t), t.gs) && Views(PartsOf(t)) == TensorViews(t)
    ensures PayloadBytes(TensorViews(t)) == |t.packed|
  {
    hide Tiles, AllClean, Pow2, Views, PayloadBytes;
    PayloadIsPacked(PartsOf(t));
  }

  // Chunks put together while their words stay addressable.
  method JoinChunks(chunks: seq<Tensor>, width: nat, gs: nat) returns (acc: Parts)
    requires ChunksOk(chunks, width, gs) && |chunks| > 0
    ensures |acc.packed| == PayloadBytes(FlatViews(chunks, |chunks|))
    ensures |acc.packed| <= 4 * LIMIT ==> TensorParts(acc, gs) && Views(acc) == FlatViews(chunks, |chunks|)
  {
    hide TensorParts, Views, TensorViews, PartsOf, Pow2, PayloadBytes, FlatViews, JoinParts, Joined, TqTensor.Valid;
    ChunkGeometry(chunks[0]);
    acc := NoRows(width, (width + gs - 1) / gs);
    NothingJoined(chunks, width, gs);
    for k := 0 to |chunks|
      invariant Joined(acc, chunks, k, width, gs)
    {
      ChunkGeometry(chunks[k]);
      NextJoined(acc, chunks, k, width, gs);
      acc := JoinParts(acc, PartsOf(chunks[k]));
    }
    AllJoined(acc, chunks, width, gs);
  }

  ghost predicate Joined(acc: Parts, chunks: seq<Tensor>, k: nat, width: nat, gs: nat)
    requires ChunksOk(chunks, width, gs) && k <= |chunks|
  {
    && acc.width == width
    && |acc.packed| == PayloadBytes(FlatViews(chunks, k))
    && (|acc.packed| <= 4 * LIMIT ==> TensorParts(acc, gs) && Views(acc) == FlatViews(chunks, k))
  }

  lemma NothingJoined(chunks: seq<Tensor>, width: nat, gs: nat)
    requires ChunksOk(chunks, width, gs) && width > 0 && width % 256 == 0 && GroupSize(gs)
    ensures Joined(NoRows(width, (width + gs - 1) / gs), chunks, 0, width, gs)
  {
    hide TensorParts, Views, Pow2;
    NoRowsOk(width, gs);
    NoPayload();
  }

  lemma NextJoined(acc: Parts, chunks: seq<Tensor>, k: nat, width: nat, gs: nat)
    requires ChunksOk(chunks, width, gs) && k < |chunks| && Joined(acc, chunks, k, width, gs)
    ensures Geometry(chunks[k]) && Joined(JoinParts(acc, PartsOf(chunks[k])), chunks, k + 1, width, gs)
  {
    hide TensorParts, Views, TensorViews, PartsOf, Pow2, PayloadBytes, JoinParts, TqTensor.Valid;
    JoinOne(acc, chunks[k], gs);
    PayloadConcat(FlatViews(chunks, k), TensorViews(chunks[k]));
  }

  lemma AllJoined(acc: Parts, chunks: seq<Tensor>, width: nat, gs: nat)
    requires ChunksOk(chunks, width, gs) && Joined(acc, chunks, |chunks|, width, gs)
    ensures |acc.packed| == PayloadBytes(FlatViews(chunks, |chunks|))
    ensures |acc.packed| <= 4 * LIMIT ==> TensorParts(acc, gs) && Views(acc) == FlatViews(chunks, |chunks|)
  {
    hide TensorParts, Views, TensorViews, PayloadBytes, TqTensor.Valid, Pow2;
  }

  lemma NoPayload()
    ensures PayloadBytes([]) == 0
  {
  }

  lemma ChunkGeometry(t: Tensor)
    requires TqTensor.Valid(t) && !t.columns
    ensures t.width > 0 && t.width % 256 == 0 && GroupSize(t.gs) && t.rows > 0 && Geometry(t)
  {
  }

  lemma JoinOne(acc: Parts, t: Tensor, gs: nat)
    requires TqTensor.Valid(t) && !t.columns && t.gs == gs && acc.width == t.width
    requires |acc.packed| <= 4 * LIMIT ==> TensorParts(acc, gs)
    ensures Geometry(t) && PartsOf(t).packed == t.packed
    ensures PayloadBytes(TensorViews(t)) == |t.packed|
    ensures var q := JoinParts(acc, PartsOf(t));
      && |q.packed| == |acc.packed| + |t.packed| && q.width == acc.width
      && (|q.packed| <= 4 * LIMIT ==>
        TensorParts(acc, gs) && TensorParts(q, gs) && Views(q) == Views(acc) + TensorViews(t))
  {
    hide Tiles, AllClean, Pow2, Views, PayloadBytes, TensorViews, TensorParts;
    ChunkParts(t);
    if |acc.packed| + |t.packed| <= 4 * LIMIT {
      JoinTensorParts(acc, PartsOf(t), gs);
    }
  }

  // Rows begin..end of the whole tensor, whatever segments they come from: refused when out of range
  // or too large for 32-bit word offsets, otherwise a valid tensor with exactly those rows.
  method Rows(segments: seq<Spec>, files: seq<seq<nat>>, begin: int, end: int) returns (t: Option<Tensor>)
    requires SegmentsOk(segments, files)
    ensures t.Some? <==>
      && 0 <= begin < end <= RowsBefore(segments, |segments|)
      && PayloadBytes(AllViews(segments, files, |segments|)[begin..end]) <= 4 * LIMIT
    ensures t.Some? ==> TqTensor.Valid(t.value)
    ensures t.Some? ==> TensorViews(t.value) == AllViews(segments, files, |segments|)[begin..end]
  {
    hide TqTensor.Valid, TensorViews, AllViews, TensorParts, Views, PayloadBytes, Pow2, SegmentsOk, RowsBefore,
      TensorOf;
    if !(0 <= begin < end <= RowsBefore(segments, |segments|)) {
      return None;
    }
    var chunks := Chunks(segments, files, begin, end);
    if |chunks| == 1 {
      t := Some(chunks[0]);
      OneChunk(chunks);
      return;
    }
    var acc := JoinChunks(chunks, segments[0].width, segments[0].gs);
    var joined := TensorOf(acc, segments[0].gs);
    JoinedTensor(acc, segments[0].gs);
    t := if TqTensor.Valid(joined) then Some(joined) else None;
  }

  lemma OneChunk(chunks: seq<Tensor>)
    requires |chunks| == 1 && TqTensor.Valid(chunks[0]) && !chunks[0].columns
    ensures FlatViews(chunks, 1) == TensorViews(chunks[0]) && PayloadBytes(TensorViews(chunks[0])) <= 4 * LIMIT
  {
    hide Tiles, AllClean, Pow2, TensorViews, PayloadBytes;
    ChunkParts(chunks[0]);
    assert FlatViews(chunks, 0) == [];
  }

  lemma JoinedTensor(acc: Parts, gs: nat)
    requires |acc.packed| <= 4 * LIMIT ==> TensorParts(acc, gs) && |Views(acc)| > 0
    ensures |acc.packed| <= 4 * LIMIT ==>
      TqTensor.Valid(TensorOf(acc, gs)) && TensorViews(TensorOf(acc, gs)) == Views(acc)
    ensures |acc.packed| > 4 * LIMIT ==> !TqTensor.Valid(TensorOf(acc, gs))
  {
    hide Tiles, AllClean, Pow2, TensorViews, TensorParts;
    if |acc.packed| <= 4 * LIMIT {
      TensorOfParts(acc, gs);
    }
  }
}
