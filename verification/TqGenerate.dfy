// Writing the segments of one tensor: rows split to 32-bit sized segments, their bit budgets, the
// histograms the reader will look up, and consecutive backing bytes.
module TqGenerate {
  import opened Numeric
  import opened Options
  import opened TqBudget
  import opened TqBacking
  import opened TqSegment
  import opened TqReader
  import opened TqRows

  // Expected counts for a histogram, whatever distribution they come from.
  type Expectation = (nat, int) -> seq<real>

  ghost predicate Expects(expected: Expectation) {
    forall rows: nat, bits: int {:trigger expected(rows, bits)} ::
      |expected(rows, bits)| == 8 && (forall i :: 0 <= i < 8 ==> expected(rows, bits)[i] >= 0.0)
      && SumReal(expected(rows, bits)) == rows as real
  }

  // A full block's share of the bits, also when rounded up, is one to eight bits a row.
  lemma ShareInRange(bits: nat, rows: nat)
    requires rows > 0 && rows <= bits <= 8 * rows
    ensures var share := bits * BLOCK;
      && BLOCK <= share / rows <= 8 * BLOCK
      && (share % rows != 0 ==> share / rows + 1 <= 8 * BLOCK)
  {
    var share := bits * BLOCK;
    DivMonotone(BLOCK * rows, share, rows);
    DivMonotone(share, 8 * BLOCK * rows, rows);
    QuotientIs(BLOCK * rows, rows, BLOCK);
    QuotientIs(8 * BLOCK * rows, rows, 8 * BLOCK);
    var q := share / rows;
    assert share == q * rows + share % rows;
    if share % rows != 0 && q >= 8 * BLOCK {
      Slide(8 * BLOCK, q, rows);
      assert false;
    }
  }

  lemma TailInRange(bits: nat, rows: nat)
    requires rows > 0 && rows <= bits <= 8 * rows && rows % BLOCK != 0
    ensures var tail := rows % BLOCK; tail <= bits - bits * (rows - tail) / rows <= 8 * tail
  {
    var tail := rows % BLOCK;
    BudgetBounds(bits, rows, rows - tail, tail);
    SpanEnds(bits, rows);
  }

  predicate RightHistogram(key: (nat, int), counts: seq<int>) {
    Counts(counts) && RowsOf(counts) == key.0 && LevelSum(counts) == key.1
  }

  predicate AllRight(histograms: map<(nat, int), seq<int>>) {
    forall key :: key in histograms ==> RightHistogram(key, histograms[key])
  }

  // The at most three histograms of a segment: exactly the keys the reader can ask for.
  method Histograms(rows: nat, bits: nat, expected: Expectation) returns (histograms: map<(nat, int), seq<int>>)
    requires rows > 0 && rows <= bits <= 8 * rows && Expects(expected)
    ensures histograms.Keys == StoredKeys(bits, rows) && AllRight(histograms)
  {
    hide RightHistogram;
    histograms := map[];
    ShareInRange(bits, rows);
    var base, remainder := bits * BLOCK / rows, bits * BLOCK % rows;
    if rows / BLOCK > 0 {
      var full := OneHistogram(BLOCK, base, expected);
      histograms := histograms[(BLOCK, base) := full];
      if remainder != 0 {
        var more := OneHistogram(BLOCK, base + 1, expected);
        histograms := histograms[(BLOCK, base + 1) := more];
      }
    }
    var tail := rows % BLOCK;
    if tail != 0 {
      TailInRange(bits, rows);
      var tailBits := bits - bits * (rows - tail) / rows;
      var last := OneHistogram(tail, tailBits, expected);
      histograms := histograms[(tail, tailBits) := last];
    }
  }

  method OneHistogram(rows: nat, bits: int, expected: Expectation) returns (counts: seq<int>)
    requires rows > 0 && rows <= bits <= 8 * rows && Expects(expected)
    ensures RightHistogram((rows, bits), counts)
  {
    counts := Histogram(rows, bits, expected(rows, bits));
  }

  // ----- one segment -----

  datatype Made = Made(spec: Spec) | NoBacking

  ghost predicate From(files: seq<seq<nat>>, s: Spec, position: nat)
  {
    && AllInFile(files, s.packed)
    && position + PackedBytes(s) <= |TqBacking.Joined(files, |files|)|
    && PiecesBytes(files, s.packed) == TqBacking.Joined(files, |files|)[position..position + PackedBytes(s)]
  }

  method MakeSegment(rows: nat, width: nat, gs: nat, bits: nat, seed: nat, anchorBits: nat, expected: Expectation,
      backing: Backing, ghost files: seq<seq<nat>>) returns (made: Made)
    requires rows > 0 && TqTensor.GroupSize(gs) && width > 0 && width % 256 == 0 && rows <= bits <= 8 * rows
    requires rows * width <= 0xffff_ffff && TqTensor.NonnegativeHalf(anchorBits) && Expects(expected)
    requires backing.Valid() && backing.sizes == Sizes(files)
    modifies backing
    ensures backing.Valid()
    ensures made.NoBacking? <==> old(backing.Position()) + width * bits / 8 > |TqBacking.Joined(files, |files|)|
    ensures made.Made? ==>
      && TqSegment.Valid(made.spec) && Backed(made.spec, files) && From(files, made.spec, old(backing.Position()))
      && made.spec.rows == rows && made.spec.width == width && made.spec.gs == gs && made.spec.bitSum == bits
      && backing.Position() == old(backing.Position()) + PackedBytes(made.spec)
  {
    hide *;
    var histograms := Histograms(rows, bits, expected);
    var packedBytes := width * bits / 8;
    TqTensor.GroupSizePositive(gs);
    var metadata := 64 + rows * 8 + (rows * ((width + gs - 1) / gs) + 1) / 2;
    ghost var position := backing.Position();
    var taken := backing.Take(packedBytes);
    if taken.Exhausted? {
      return NoBacking;
    }
    var s := Spec(rows, width, gs, bits, seed, anchorBits, histograms, taken.pieces, metadata + packedBytes);
    SegmentValid(s);
    SegmentBacked(s, files, position);
    made := Made(s);
  }

  lemma SegmentBacked(s: Spec, files: seq<seq<nat>>, position: nat)
    requires Covers(Sizes(files), s.packed, position, PackedBytes(s))
    requires position + PackedBytes(s) <= |TqBacking.Joined(files, |files|)|
    ensures Backed(s, files) && From(files, s, position)
  {
    hide TqBacking.Joined, Covers, PiecesBytes, AllInFile, PackedBytes;
    PiecesAreSlice(files, s.packed, position, PackedBytes(s));
  }

  lemma SegmentValid(s: Spec)
    requires s.rows > 0 && TqTensor.GroupSize(s.gs) && s.width > 0 && s.width % 256 == 0
    requires s.rows <= s.bitSum <= 8 * s.rows
    requires s.rows * s.width <= 0xffff_ffff && TqTensor.NonnegativeHalf(s.anchorBits)
    requires s.histograms.Keys == StoredKeys(s.bitSum, s.rows) && AllRight(s.histograms)
    requires s.nbytes == 64 + s.rows * 8 + (s.rows * ((s.width + s.gs - 1) / s.gs) + 1) / 2 + s.width * s.bitSum / 8
    ensures TqSegment.Valid(s) && PackedBytes(s) == s.width * s.bitSum / 8
  {
    hide StoredKeys, TqTensor.GroupSize;
    forall key | key in StoredKeys(s.bitSum, s.rows)
      ensures key in s.histograms && RightHistogram(key, s.histograms[key])
    {
      assert key in s.histograms.Keys;
    }
  }

  // ----- all segments of a tensor -----

  function BitsBefore(segments: seq<Spec>, n: nat): nat
    requires n <= |segments|
  {
    if n == 0 then 0 else BitsBefore(segments, n - 1) + segments[n - 1].bitSum
  }

  function PackedBefore(segments: seq<Spec>, n: nat): nat
    requires n <= |segments|
  {
    if n == 0 then 0 else PackedBefore(segments, n - 1) + PackedBytes(segments[n - 1])
  }

  // The segments' packed bytes lie one after another in the source files.
  ghost predicate Consecutive(segments: seq<Spec>, files: seq<seq<nat>>, position: nat) {
    forall k :: 0 <= k < |segments| ==> From(files, segments[k], position + PackedBefore(segments, k))
  }

  lemma {:induction false} Grown(segments: seq<Spec>, s: Spec, n: nat)
    requires n <= |segments|
    ensures BitsBefore(segments + [s], n) == BitsBefore(segments, n)
    ensures PackedBefore(segments + [s], n) == PackedBefore(segments, n)
    ensures RowsBefore(segments + [s], n) == RowsBefore(segments, n)
  {
    if n > 0 { Grown(segments, s, n - 1); }
  }

  lemma AddSegment(segments: seq<Spec>, s: Spec, files: seq<seq<nat>>, position: nat, width: nat, gs: nat)
    requires Alike(segments, files, width, gs) && Consecutive(segments, files, position)
    requires TqSegment.Valid(s) && Backed(s, files) && s.width == width && s.gs == gs
    requires From(files, s, position + PackedBefore(segments, |segments|))
    ensures Alike(segments + [s], files, width, gs) && Consecutive(segments + [s], files, position)
    ensures var n := |segments|;
      && BitsBefore(segments + [s], n + 1) == BitsBefore(segments, n) + s.bitSum
      && PackedBefore(segments + [s], n + 1) == PackedBefore(segments, n) + PackedBytes(s)
      && RowsBefore(segments + [s], n + 1) == RowsBefore(segments, n) + s.rows
  {
    hide From, TqSegment.Valid, Backed, PackedBytes, Consecutive;
    Grown(segments, s, |segments|);
    AddConsecutive(segments, s, files, position);
  }

  lemma AddConsecutive(segments: seq<Spec>, s: Spec, files: seq<seq<nat>>, position: nat)
    requires Consecutive(segments, files, position)
    requires From(files, s, position + PackedBefore(segments, |segments|))
    ensures Consecutive(segments + [s], files, position)
  {
    hide From, PackedBefore;
    var more := segments + [s];
    forall k | 0 <= k < |more|
      ensures From(files, more[k], position + PackedBefore(more, k))
    {
      Grown(segments, s, k);
    }
  }

  predicate Alike(segments: seq<Spec>, files: seq<seq<nat>>, width: nat, gs: nat) {
    forall k :: 0 <= k < |segments| ==>
      TqSegment.Valid(segments[k]) && Backed(segments[k], files) && segments[k].width == width && segments[k].gs == gs
  }

  // min(8 * rows, max(rows, wanted))
  function TotalBits(rows: nat, wanted: int): (bits: nat)
    ensures rows <= bits <= 8 * rows
  {
    var atLeast := if wanted < rows then rows else wanted;
    if atLeast < 8 * rows then atLeast else 8 * rows
  }

  // Rows that fit one segment.
  function MostRows(width: nat): (most: nat)
    requires 0 < width <= 0xffff_ffff
    ensures most > 0 && most == 0xffff_ffff / width
  {
    DivMonotone(width, 0xffff_ffff, width);
    QuotientIs(width, width, 1);
    0xffff_ffff / width
  }

  function SegmentCount(rows: nat, width: nat): nat
    requires 0 < width <= 0xffff_ffff
  {
    (rows + MostRows(width) - 1) / MostRows(width)
  }

  // n segments of `most` rows, the last one perhaps shorter, end at row `first`.
  predicate SplitTo(rows: nat, most: nat, n: nat, first: nat) {
    first == Smaller(n * most, rows) && (n > 0 ==> (n - 1) * most < rows)
  }

  lemma SplitNext(rows: nat, most: nat, n: nat, first: nat)
    requires SplitTo(rows, most, n, first) && first < rows && most > 0
    ensures SplitTo(rows, most, n + 1, first + Smaller(most, rows - first))
  {
    NextMultiple(n + 1, most);
  }

  lemma SplitEnds(rows: nat, most: nat, n: nat)
    requires SplitTo(rows, most, n, rows) && rows > 0 && most > 0
    ensures n == (rows + most - 1) / most
  {
    NextMultiple(n, most);
    QuotientIs(rows + most - 1, most, n);
  }

  // Every segment is one the reader can serve; together they hold the tensor's rows and bits exactly
  // and use up consecutive source bytes. None for an invalid group size or too small source files.
  method MakeSegments(rows: nat, width: nat, gs: nat, wanted: int, seeds: nat -> nat, anchorBits: nat,
      expected: Expectation,
      backing: Backing, ghost files: seq<seq<nat>>) returns (segments: Option<seq<Spec>>)
    requires rows > 0 && 0 < width <= 0xffff_ffff && width % 256 == 0
    requires TqTensor.NonnegativeHalf(anchorBits) && Expects(expected)
    requires backing.Valid() && backing.sizes == Sizes(files)
    modifies backing
    ensures backing.Valid()
    ensures segments.None? <==>
      || !TqTensor.GroupSize(gs)
      || old(backing.Position()) + width * TotalBits(rows, wanted) / 8 > |TqBacking.Joined(files, |files|)|
    ensures segments.Some? ==>
      && SegmentsOk(segments.value, files) && Consecutive(segments.value, files, old(backing.Position()))
      && Alike(segments.value, files, width, gs) && |segments.value| == SegmentCount(rows, width)
      && RowsBefore(segments.value, |segments.value|) == rows
      && BitsBefore(segments.value, |segments.value|) == TotalBits(rows, wanted)
      && backing.Position() == old(backing.Position()) + PackedBefore(segments.value, |segments.value|)
  {
    hide *;
    if !TqTensor.GroupSize(gs) {
      return None;
    }
    var totalBits := TotalBits(rows, wanted);
    var maxRows := MostRows(width);
    var made: seq<Spec> := [];
    ghost var position := backing.Position();
    NoSegments(files, position, width, gs);
    SpanEnds(totalBits, rows);
    var first: nat := 0;
    NothingSplit(rows, maxRows);
    while first < rows
      invariant backing.Valid() && first <= rows
      invariant Alike(made, files, width, gs) && Consecutive(made, files, position)
      invariant RowsBefore(made, |made|) == first && BitsBefore(made, |made|) == Span(totalBits, rows, first)
      invariant backing.Position() == position + PackedBefore(made, |made|)
      invariant SplitTo(rows, maxRows, |made|, first)
      decreases rows - first
    {
      var count := Smaller(maxRows, rows - first);
      SplitNext(rows, maxRows, |made|, first);
      var bits := totalBits * (first + count) / rows - totalBits * first / rows;
      SegmentFits(totalBits, rows, first, count, width, bits);
      var segment := MakeSegment(count, width, gs, bits, seeds(first), anchorBits, expected, backing, files);
      PackedIsWidth(made, files, width, gs);
      BytesLeft(width, totalBits, rows, first, count, bits);
      if segment.NoBacking? {
        return None;
      }
      AddSegment(made, segment.spec, files, position, width, gs);
      made := made + [segment.spec];
      first := first + count;
    }
    SplitEnds(rows, maxRows, |made|);
    CountIs(rows, width, |made|);
    AllAlike(made, files, width, gs);
    PackedIsWidth(made, files, width, gs);
    backing.PositionBounded();
    segments := Some(made);
  }

  lemma NothingSplit(rows: nat, most: nat)
    ensures SplitTo(rows, most, 0, 0)
  {
  }

  lemma CountIs(rows: nat, width: nat, n: nat)
    requires 0 < width <= 0xffff_ffff && n == (rows + MostRows(width) - 1) / MostRows(width)
    ensures n == SegmentCount(rows, width)
  {
  }

  // The segments' packed bytes follow from their bits alone.
  lemma {:induction false} PackedIsWidth(segments: seq<Spec>, files: seq<seq<nat>>, width: nat, gs: nat)
    requires Alike(segments, files, width, gs) && width % 256 == 0
    ensures PackedBefore(segments, |segments|) == width * BitsBefore(segments, |segments|) / 8
  {
    hide TqSegment.Valid, Backed, Alike;
    PackedUpTo(segments, files, width, gs, |segments|);
  }

  lemma {:induction false} PackedUpTo(segments: seq<Spec>, files: seq<seq<nat>>, width: nat, gs: nat, n: nat)
    requires Alike(segments, files, width, gs) && width % 256 == 0 && n <= |segments|
    ensures PackedBefore(segments, n) == width * BitsBefore(segments, n) / 8
  {
    hide TqSegment.Valid, Backed;
    if n > 0 {
      PackedUpTo(segments, files, width, gs, n - 1);
      EighthsAdd(width, BitsBefore(segments, n - 1), segments[n - 1].bitSum);
    }
  }

  lemma EighthsAdd(width: nat, a: nat, b: nat)
    requires width % 256 == 0
    ensures width * (a + b) / 8 == width * a / 8 + width * b / 8
  {
    hide Words;
    WholeWords(width, a, b);
    WholeWords(width, a + b, 0);
    WholeWords(width, b, 0);
  }

  // One more segment needs no more bytes than all of them.
  lemma BytesLeft(width: nat, totalBits: nat, rows: nat, first: nat, count: nat, bits: nat)
    requires width % 256 == 0 && rows > 0 && first + count <= rows
    requires Span(totalBits, rows, first + count) == Span(totalBits, rows, first) + bits
    ensures Span(totalBits, rows, first) >= 0
    ensures width * Span(totalBits, rows, first) / 8 + width * bits / 8 <= width * totalBits / 8
  {
    DivMonotone(0, totalBits * first, rows);
    QuotientIs(0, rows, 0);
    var rest := SpanLeft(totalBits, rows, first + count);
    hide Span;
    EighthsAdd(width, Span(totalBits, rows, first), bits);
    EighthsAdd(width, Span(totalBits, rows, first) + bits, rest);
  }

  lemma SpanLeft(totalBits: nat, rows: nat, end: nat) returns (rest: nat)
    requires rows > 0 && end <= rows
    ensures Span(totalBits, rows, end) >= 0 && Span(totalBits, rows, end) + rest == totalBits
  {
    DivMonotone(0, totalBits * end, rows);
    QuotientIs(0, rows, 0);
    Slide(end, rows, totalBits);
    assert totalBits * end == end * totalBits && totalBits * rows == rows * totalBits;
    DivMonotone(totalBits * end, totalBits * rows, rows);
    SpanEnds(totalBits, rows);
    rest := totalBits - Span(totalBits, rows, end);
  }

  lemma NoSegments(files: seq<seq<nat>>, position: nat, width: nat, gs: nat)
    ensures Consecutive([], files, position) && Alike([], files, width, gs)
    ensures RowsBefore([], 0) == 0 && BitsBefore([], 0) == 0 && PackedBefore([], 0) == 0
  {
  }

  lemma AllAlike(segments: seq<Spec>, files: seq<seq<nat>>, width: nat, gs: nat)
    requires Alike(segments, files, width, gs)
    ensures SegmentsOk(segments, files)
  {
    hide TqSegment.Valid, Backed;
  }

  lemma FitsOne(most: nat, width: nat)
    requires width > 0 && most == 0xffff_ffff / width
    ensures most * width <= 0xffff_ffff
  {
  }

  lemma SegmentFits(totalBits: nat, rows: nat, first: nat, count: int, width: nat, bits: int)
    requires rows > 0 && rows <= totalBits <= 8 * rows && first < rows && 0 < width <= 0xffff_ffff
    requires count == Smaller(MostRows(width), rows - first)
    requires bits == totalBits * (first + count) / rows - totalBits * first / rows
    ensures 0 < count <= rows - first && count * width <= 0xffff_ffff && count <= bits <= 8 * count
    ensures Span(totalBits, rows, first + count) == Span(totalBits, rows, first) + bits
  {
    hide MostRows;
    var most := MostRows(width);
    FitsOne(most, width);
    Slide(count, most, width);
    BudgetBounds(totalBits, rows, first, count);
  }
}
