// Random access to a segment: header, descriptors, scales and packed states are produced for any
// byte range, and every read equals that slice of the one byte string they make up.
module TqReader {
  import opened Numeric
  import opened Options
  import opened Bitwise
  import opened TqBudget
  import opened TqBacking
  import opened TqSegment
  import opened Slices

  // ----- bytes -----

  // Little-endian bytes of a word.
  function Le(v: nat, n: nat): (bytes: seq<nat>)
    ensures |bytes| == n
  {
    if n == 0 then [] else [v % 256] + Le(v / 256, n - 1)
  }

  const MAGIC: seq<nat> := [82, 84, 82, 69, 76, 76, 48, 53]

  function Header(s: Spec): (bytes: seq<nat>)
    ensures |bytes| == 64
  {
    MAGIC + Le(5, 4) + Le(s.rows, 4) + Le(s.width, 4) + Le(0, 4) + Le(s.gs, 4) + Le(s.width * s.bitSum / 8, 4)
      + seq(32, i => 0)
  }

  // Descriptors of rows lo..hi, eight bytes each.
  function DescriptorBytes(s: Spec, lo: nat, hi: nat): (bytes: seq<nat>)
    requires Valid(s) && lo <= hi <= s.rows
    ensures |bytes| == 8 * (hi - lo)
    decreases hi
  {
    if lo == hi then [] else DescriptorBytes(s, lo, hi - 1) + Le(Descriptor(s, hi - 1), 8)
  }

  lemma {:induction false} DescriptorSlice(s: Spec, lo: nat, hi: nat, all: nat)
    requires Valid(s) && lo <= hi <= all <= s.rows
    ensures DescriptorBytes(s, 0, all)[8 * lo..8 * hi] == DescriptorBytes(s, lo, hi)
    decreases all, hi
  {
    hide Descriptor, Le, Valid;
    if hi < all {
      DescriptorSlice(s, lo, hi, all - 1);
      SliceOfHead(DescriptorBytes(s, 0, all - 1), Le(Descriptor(s, all - 1), 8), 8 * lo, 8 * hi);
    } else if lo < hi {
      DescriptorSlice(s, lo, hi - 1, all - 1);
      var front, last := DescriptorBytes(s, 0, all - 1), Le(Descriptor(s, all - 1), 8);
      SliceAcross(front, last, 8 * lo, 8 * hi);
    }
  }

  // A counter-hashed scale byte; with an odd number of selectors the last byte keeps its low nibble.
  function ScaleByte(s: Spec, i: nat): nat
    requires s.gs > 0
  {
    var byte := Mix((s.seed + (i + 1) * GAMMA) % WORD) % 256;
    if (s.rows * Groups(s)) % 2 == 1 && i + 1 == ScaleBytes(s) then Low(byte, 4) else byte
  }

  function ScaleRange(s: Spec, lo: nat, hi: nat): (bytes: seq<nat>)
    requires s.gs > 0 && lo <= hi
    ensures |bytes| == hi - lo && forall k :: 0 <= k < |bytes| ==> bytes[k] == ScaleByte(s, lo + k)
    decreases hi
  {
    if lo == hi then [] else ScaleRange(s, lo, hi - 1) + [ScaleByte(s, hi - 1)]
  }

  // The files hold exactly the packed bytes the segment claims.
  predicate Backed(s: Spec, files: seq<seq<nat>>) {
    AllInFile(files, s.packed) && |PiecesBytes(files, s.packed)| == PackedBytes(s)
  }

  // The whole segment, as if it were stored.
  function Whole(s: Spec, files: seq<seq<nat>>): (bytes: seq<nat>)
    requires Valid(s) && Backed(s, files)
    ensures |bytes| == s.nbytes
  {
    Header(s) + DescriptorBytes(s, 0, s.rows) + ScaleRange(s, 0, ScaleBytes(s)) + PiecesBytes(files, s.packed)
  }

  // ----- the parts -----

  // Descriptors of one block from the running sum of its bits.
  method BlockDescriptors(s: Spec, block: nat) returns (values: seq<nat>)
    requires Valid(s) && InBlocks(s, block)
    ensures |values| == BlockRows(s, block)
    ensures forall i :: 0 <= i < |values| ==>
      block * BLOCK + i < s.rows && values[i] == Descriptor(s, block * BLOCK + i)
  {
    hide BlockBits, Descriptor, DescriptorWord, SumInt, Span, HistogramsOk, TqSegment.RowBits, Words;
    var bits := TqSegment.Bits(s, block);
    ghost var all: seq<nat> := bits[..];
    var prefix := s.bitSum * (block * BLOCK) / s.rows;
    values := [];
    BlockRowsAre(s, block);
    StartOfBlock(s, block);
    for i := 0 to bits.Length
      invariant bits[..] == all
      invariant |values| == i
      invariant forall k :: 0 <= k < i ==> block * BLOCK + k < s.rows && values[k] == Descriptor(s, block * BLOCK + k)
      invariant prefix == Span(s.bitSum, s.rows, block * BLOCK) + SumInt(all[..i])
    {
      RowAt(s, block, i, prefix, bits[i]);
      values := values + [DescriptorWord(Words(prefix, s.width), bits[i], s.anchorBits)];
      SumIntPrefix(all, i);
      prefix := prefix + bits[i];
    }
  }

  lemma StartOfBlock(s: Spec, block: nat)
    requires Valid(s) && InBlocks(s, block)
    ensures s.bitSum * (block * BLOCK) / s.rows
      == Span(s.bitSum, s.rows, block * BLOCK) + SumInt(BlockBits(s, block)[..0])
  {
    hide BlockBits;
  }

  lemma RowAt(s: Spec, block: nat, i: nat, prefix: int, bits: nat)
    requires Valid(s) && InBlocks(s, block) && i < BlockRows(s, block) && bits == BlockBits(s, block)[i]
    requires prefix == Span(s.bitSum, s.rows, block * BLOCK) + SumInt(BlockBits(s, block)[..i])
    ensures block * BLOCK + i < s.rows
    ensures prefix >= 0 && bits > 0
    ensures Descriptor(s, block * BLOCK + i) == DescriptorWord(Words(prefix, s.width), bits, s.anchorBits)
  {
    hide BlockBits, DescriptorWord, SumInt, Span, HistogramsOk, Words;
    BlockRowsAre(s, block);
    var row := block * BLOCK + i;
    assert row / BLOCK == block && row % BLOCK == i;
    RowBitsRange(s, row);
    assert prefix == Prefix(s, row);
  }

  // Rows begin..end, block by block, into one array.
  method Descriptors(s: Spec, begin: nat, end: nat) returns (bytes: seq<nat>)
    requires Valid(s) && begin < end <= s.rows
    ensures bytes == DescriptorBytes(s, begin, end)
  {
    hide Descriptor, HistogramsOk;
    var result := new nat[end - begin](i => 0);
    var block := begin / BLOCK;
    while block < (end + BLOCK - 1) / BLOCK
      invariant begin / BLOCK <= block <= (end + BLOCK - 1) / BLOCK
      invariant forall r :: begin <= r < end && r < block * BLOCK ==> result[r - begin] == Descriptor(s, r)
    {
      var start := block * BLOCK;
      assert start < end;
      var values := BlockDescriptors(s, block);
      BlockRowsAre(s, block);
      var first := if begin < start then start else begin;
      var last := if end < start + |values| then end else start + |values|;
      for r := first to last
        invariant forall q :: begin <= q < end && q < start ==> result[q - begin] == Descriptor(s, q)
        invariant forall q :: first <= q < r ==> result[q - begin] == Descriptor(s, q)
      {
        assert values[r - start] == Descriptor(s, start + (r - start));
        result[r - begin] := values[r - start];
      }
      block := block + 1;
    }
    assert end <= block * BLOCK;
    bytes := ToBytes(s, result[..], begin, end);
  }

  method ToBytes(s: Spec, words: seq<nat>, begin: nat, end: nat) returns (bytes: seq<nat>)
    requires Valid(s) && begin <= end <= s.rows && |words| == end - begin
    requires forall k :: 0 <= k < |words| ==> words[k] == Descriptor(s, begin + k)
    ensures bytes == DescriptorBytes(s, begin, end)
  {
    hide Descriptor, Le;
    bytes := [];
    for k := 0 to |words|
      invariant bytes == DescriptorBytes(s, begin, begin + k)
    {
      bytes := bytes + Le(words[k], 8);
    }
  }

  // The counter hash for begin..end, then the last selector byte masked when it is in range.
  method Scales(s: Spec, begin: nat, end: nat) returns (bytes: seq<nat>)
    requires Valid(s) && begin < end <= ScaleBytes(s)
    ensures bytes == ScaleRange(s, begin, end)
  {
    hide Mix, Low, ScaleBytes, Groups, HistogramsOk;
    var result := new nat[end - begin];
    for k := 0 to end - begin
      invariant forall j :: 0 <= j < k ==> result[j] == Mix((s.seed + (begin + j + 1) * GAMMA) % WORD) % 256
    {
      result[k] := Mix((s.seed + (begin + k + 1) * GAMMA) % WORD) % 256;
    }
    var scaleBytes := ScaleBytes(s);
    if (s.rows * Groups(s)) % 2 == 1 && begin < scaleBytes <= end {
      result[scaleBytes - 1 - begin] := Low(result[scaleBytes - 1 - begin], 4);
    }
    bytes := result[..];
  }

  // One bounds-checked read of a backing file.
  function ReadFile(files: seq<seq<nat>>, file: nat, offset: int, size: int): Option<seq<nat>>
    requires file < |files|
  {
    if offset < 0 || size < 0 || offset + size > |files[file]| then None
    else Some(files[file][offset..offset + size])
  }

  // Bytes begin..end of the packed stream, piece by piece.
  method Packed(s: Spec, files: seq<seq<nat>>, begin: nat, end: nat) returns (bytes: Option<seq<nat>>)
    requires Backed(s, files) && begin <= end <= PackedBytes(s)
    ensures bytes == Some(PiecesBytes(files, s.packed)[begin..end])
  {
    hide PiecesBytes, InFile, ReadFile, ReadUpTo, PieceBytes;
    var result: seq<nat> := [];
    var cursor: nat := 0;
    NoPieces(files, s.packed);
    ReadEnds(PiecesBytes(files, s.packed), begin, end);
    for k := 0 to |s.packed|
      invariant Passed(files, s.packed, k, cursor)
      invariant result == ReadUpTo(PiecesBytes(files, s.packed), begin, end, cursor)
    {
      var piece := s.packed[k];
      PiecesPrefix(files, s.packed, k);
      var finish := cursor + piece.nbytes;
      var first := if begin < cursor then cursor else begin;
      var last := if end < finish then end else finish;
      ReadStep(PiecesBytes(files, s.packed), begin, end, cursor, finish);
      if first < last {
        PieceRange(files, s.packed, k, cursor, first, last);
        var part := ReadFile(files, piece.file, piece.offset + first - cursor, last - first);
        if part.None? {
          return None;
        }
        result := result + part.value;
      }
      cursor := finish;
    }
    if |result| != end - begin {
      return None;
    }
    bytes := Some(result);
  }

  // The first k pieces have passed and are `cursor` bytes of the whole.
  ghost predicate Passed(files: seq<seq<nat>>, pieces: seq<Piece>, k: nat, cursor: nat)
    requires AllInFile(files, pieces) && k <= |pieces|
  {
    && cursor == |PiecesBytes(files, pieces[..k])| <= |PiecesBytes(files, pieces)|
    && (k == |pieces| ==> cursor == |PiecesBytes(files, pieces)|)
  }

  lemma NoPieces(files: seq<seq<nat>>, pieces: seq<Piece>)
    requires AllInFile(files, pieces)
    ensures Passed(files, pieces, 0, 0)
  {
    assert |pieces| == 0 ==> pieces[..0] == pieces;
  }

  function ReadUpTo(whole: seq<nat>, begin: nat, end: nat, cursor: nat): seq<nat>
    requires begin <= end <= |whole| && cursor <= |whole|
  {
    if cursor <= begin then [] else if cursor < end then whole[begin..cursor] else whole[begin..end]
  }

  lemma ReadEnds(whole: seq<nat>, begin: nat, end: nat)
    requires begin <= end <= |whole|
    ensures ReadUpTo(whole, begin, end, 0) == [] && ReadUpTo(whole, begin, end, |whole|) == whole[begin..end]
  {
  }

  lemma ReadStep(whole: seq<nat>, begin: nat, end: nat, cursor: nat, finish: nat)
    requires begin <= end <= |whole| && cursor <= finish <= |whole|
    ensures var first := if begin < cursor then cursor else begin;
            var last := if end < finish then end else finish;
      ReadUpTo(whole, begin, end, finish)
        == ReadUpTo(whole, begin, end, cursor) + (if first < last then whole[first..last] else [])
  {
    var last := if end < finish then end else finish;
    if begin < cursor < last {
      SliceSplit(whole, begin, cursor, last);
    }
  }

  lemma {:induction false} PiecesPrefix(files: seq<seq<nat>>, pieces: seq<Piece>, k: nat)
    requires AllInFile(files, pieces) && k < |pieces|
    ensures PiecesBytes(files, pieces[..k + 1]) == PiecesBytes(files, pieces[..k]) + PieceBytes(files, pieces[k])
    ensures PiecesBytes(files, pieces[..k + 1]) <= PiecesBytes(files, pieces)
    ensures |PieceBytes(files, pieces[k])| == pieces[k].nbytes
    ensures k + 1 == |pieces| ==> PiecesBytes(files, pieces[..k + 1]) == PiecesBytes(files, pieces)
    decreases |pieces|
  {
    hide PieceBytes, InFile;
    PieceInFile(files, pieces, k);
    assert pieces[..k + 1][..k] == pieces[..k];
    var n := |pieces| - 1;
    if k < n {
      PiecesPrefix(files, pieces[..n], k);
      assert pieces[..n][..k + 1] == pieces[..k + 1];
    } else {
      assert pieces[..k + 1] == pieces;
    }
  }

  lemma PieceInFile(files: seq<seq<nat>>, pieces: seq<Piece>, k: nat)
    requires AllInFile(files, pieces) && k < |pieces|
    ensures InFile(Sizes(files), pieces[k]) && |PieceBytes(files, pieces[k])| == pieces[k].nbytes
  {
  }

  lemma PieceRange(files: seq<seq<nat>>, pieces: seq<Piece>, k: nat, cursor: nat, first: nat, last: nat)
    requires AllInFile(files, pieces) && k < |pieces| && cursor == |PiecesBytes(files, pieces[..k])|
    requires cursor <= first <= last <= cursor + pieces[k].nbytes
    ensures var p := pieces[k];
      && p.file < |files| && last <= |PiecesBytes(files, pieces)|
      && ReadFile(files, p.file, p.offset + first - cursor, last - first)
        == Some(PiecesBytes(files, pieces)[first..last])
  {
    hide PiecesBytes;
    PiecesPrefix(files, pieces, k);
    var p := pieces[k];
    assert InFile(Sizes(files), p);
    PrefixSlice(PiecesBytes(files, pieces), PiecesBytes(files, pieces[..k]), PieceBytes(files, p), first, last);
    SliceOfSlice(files[p.file], p.offset, p.offset + p.nbytes, p.offset + first - cursor, p.offset + last - cursor);
  }

  lemma PrefixSlice(whole: seq<nat>, front: seq<nat>, piece: seq<nat>, first: nat, last: nat)
    requires front + piece <= whole && |front| <= first <= last <= |front| + |piece|
    ensures whole[first..last] == piece[first - |front|..last - |front|]
  {
    assert whole[..|front| + |piece|] == front + piece;
    assert whole[first..last] == (front + piece)[first..last];
    SliceOfTail(front, piece, first - |front|, last - |front|);
  }

  // ----- the reader -----

  // Any in-range read is that slice of the whole segment; anything else is refused.
  method Read(s: Spec, files: seq<seq<nat>>, offset: int, size: int) returns (bytes: Option<seq<nat>>)
    requires Valid(s) && Backed(s, files)
    ensures bytes.None? <==> offset < 0 || size < 0 || offset + size > s.nbytes
    ensures bytes.Some? ==> bytes.value == Whole(s, files)[offset..offset + size]
  {
    hide *;
    var end := offset + size;
    if offset < 0 || size < 0 || end > s.nbytes {
      return None;
    }
    SegmentLayout(s, files);
    var result := ReadHeader(s, offset, end);
    var part := ReadDescriptors(s, offset, end);
    result := result + part;
    part := ReadScales(s, offset, end);
    result := result + part;
    part := ReadPacked(s, files, offset, end);
    result := result + part;
    bytes := Some(result);
    FourParts(Header(s), DescriptorBytes(s, 0, s.rows), ScaleRange(s, 0, ScaleBytes(s)),
      PiecesBytes(files, s.packed), offset, end);
  }

  method ReadHeader(s: Spec, offset: nat, end: nat) returns (part: seq<nat>)
    ensures part == Overlap(Header(s), 0, offset, end)
  {
    hide Header;
    var first, last := Larger(offset, 0), Smaller(end, 64);
    part := if first < last then Header(s)[first..last] else [];
  }

  method ReadDescriptors(s: Spec, offset: nat, end: nat) returns (part: seq<nat>)
    requires Valid(s)
    ensures part == Overlap(DescriptorBytes(s, 0, s.rows), 64, offset, end)
  {
    hide DescriptorBytes, HistogramsOk, Descriptor;
    var first, last := Larger(offset, 64), Smaller(end, ScaleOffset(s));
    if first >= last {
      return [];
    }
    part := DescriptorRange(s, first - 64, last - 64);
  }

  // Whole descriptors covering the bytes, then the bytes.
  method DescriptorRange(s: Spec, lo: nat, hi: nat) returns (bytes: seq<nat>)
    requires Valid(s) && lo < hi <= 8 * s.rows
    ensures bytes == DescriptorBytes(s, 0, s.rows)[lo..hi]
  {
    hide *;
    EightsCover(lo, hi, s.rows);
    var rowBegin, rowEnd := lo / 8, (hi + 7) / 8;
    var value := Descriptors(s, rowBegin, rowEnd);
    bytes := value[lo % 8..lo % 8 + hi - lo];
    DescriptorSlice(s, rowBegin, rowEnd, s.rows);
    SliceOfSlice(DescriptorBytes(s, 0, s.rows), 8 * rowBegin, 8 * rowEnd, lo, hi);
  }

  lemma EightsCover(lo: nat, hi: nat, rows: nat)
    requires lo < hi <= 8 * rows
    ensures lo / 8 < (hi + 7) / 8 <= rows && 8 * (lo / 8) <= lo && hi <= 8 * ((hi + 7) / 8)
    ensures lo - 8 * (lo / 8) == lo % 8
  {
  }

  method ReadScales(s: Spec, offset: nat, end: nat) returns (part: seq<nat>)
    requires Valid(s)
    ensures part == Overlap(ScaleRange(s, 0, ScaleBytes(s)), ScaleOffset(s), offset, end)
  {
    hide ScaleRange, HistogramsOk, ScaleBytes, ScaleOffset, PackedBytes;
    var first, last := Larger(offset, ScaleOffset(s)), Smaller(end, PackedOffset(s));
    if first >= last {
      return [];
    }
    ScaleSlice(s, first - ScaleOffset(s), last - ScaleOffset(s));
    part := Scales(s, first - ScaleOffset(s), last - ScaleOffset(s));
  }

  method ReadPacked(s: Spec, files: seq<seq<nat>>, offset: nat, end: nat) returns (part: seq<nat>)
    requires Valid(s) && Backed(s, files)
    ensures part == Overlap(PiecesBytes(files, s.packed), PackedOffset(s), offset, end)
  {
    hide PiecesBytes, HistogramsOk, ScaleBytes, ScaleOffset, PackedOffset, PackedBytes, AllInFile;
    var first, last := Larger(offset, PackedOffset(s)), Smaller(end, s.nbytes);
    if first >= last {
      return [];
    }
    var bytes := Packed(s, files, first - PackedOffset(s), last - PackedOffset(s));
    part := bytes.value;
  }

  lemma SegmentLayout(s: Spec, files: seq<seq<nat>>)
    requires Valid(s) && Backed(s, files)
    ensures s.gs > 0
    ensures |Header(s)| == 64 && |DescriptorBytes(s, 0, s.rows)| == ScaleOffset(s) - 64
    ensures |ScaleRange(s, 0, ScaleBytes(s))| == PackedOffset(s) - ScaleOffset(s)
    ensures 64 <= ScaleOffset(s) == 64 + 8 * s.rows <= PackedOffset(s) <= s.nbytes
    ensures PackedOffset(s) == ScaleOffset(s) + ScaleBytes(s) && s.nbytes == PackedOffset(s) + PackedBytes(s)
    ensures AllInFile(files, s.packed) && |PiecesBytes(files, s.packed)| == PackedBytes(s)
    ensures Whole(s, files) == Header(s) + DescriptorBytes(s, 0, s.rows) + ScaleRange(s, 0, ScaleBytes(s))
      + PiecesBytes(files, s.packed)
  {
    hide DescriptorBytes, ScaleRange, PiecesBytes, ScaleBytes, PackedBytes, Header;
  }

  // The part of xs that lies in lo..hi when xs starts at `at`.
  function Overlap(xs: seq<nat>, at: nat, lo: nat, hi: nat): (r: seq<nat>)
  {
    var first, last := Larger(lo, at), Smaller(hi, at + |xs|);
    if first < last then xs[first - at..last - at] else []
  }

  lemma OverlapIs(xs: seq<nat>, at: nat, lo: nat, hi: nat, first: nat, last: nat)
    requires at <= first <= last <= at + |xs|
    requires first == Larger(lo, at) && last == Smaller(hi, at + |xs|)
    ensures Overlap(xs, at, lo, hi) == xs[first - at..last - at]
  {
  }

  lemma TwoParts(a: seq<nat>, b: seq<nat>, at: nat, lo: nat, hi: nat)
    ensures Overlap(a + b, at, lo, hi) == Overlap(a, at, lo, hi) + Overlap(b, at + |a|, lo, hi)
  {
    hide Overlap;
    var first, last := Larger(lo, at), Smaller(hi, at + |a| + |b|);
    var mid := at + |a|;
    if first >= last {
      NoOverlap(a + b, at, lo, hi);
      NoOverlap(a, at, lo, hi);
      NoOverlap(b, mid, lo, hi);
    } else {
      OverlapIs(a + b, at, lo, hi, first, last);
      if last <= mid {
        OverlapIs(a, at, lo, hi, first, last);
        NoOverlap(b, mid, lo, hi);
        SliceOfHead(a, b, first - at, last - at);
      } else if mid <= first {
        NoOverlap(a, at, lo, hi);
        OverlapIs(b, mid, lo, hi, first, last);
        SliceOfTail(a, b, first - mid, last - mid);
      } else {
        OverlapIs(a, at, lo, hi, first, mid);
        OverlapIs(b, mid, lo, hi, mid, last);
        SliceAcross(a, b, first - at, last - at);
      }
    }
  }

  lemma NoOverlap(xs: seq<nat>, at: nat, lo: nat, hi: nat)
    requires Larger(lo, at) >= Smaller(hi, at + |xs|)
    ensures Overlap(xs, at, lo, hi) == []
  {
  }

  // A slice of four parts laid end to end is the parts' overlaps, one after another.
  lemma FourParts(a: seq<nat>, b: seq<nat>, c: seq<nat>, d: seq<nat>, lo: nat, hi: nat)
    requires lo <= hi <= |a| + |b| + |c| + |d|
    ensures (a + b + c + d)[lo..hi] ==
      Overlap(a, 0, lo, hi) + Overlap(b, |a|, lo, hi) + Overlap(c, |a| + |b|, lo, hi)
        + Overlap(d, |a| + |b| + |c|, lo, hi)
  {
    hide Overlap;
    WholeOverlap(a + b + c + d, lo, hi);
    TwoParts(a, b, 0, lo, hi);
    TwoParts(a + b, c, 0, lo, hi);
    TwoParts(a + b + c, d, 0, lo, hi);
  }

  lemma WholeOverlap(xs: seq<nat>, lo: nat, hi: nat)
    requires lo <= hi <= |xs|
    ensures xs[lo..hi] == Overlap(xs, 0, lo, hi)
  {
  }

  lemma ScaleSlice(s: Spec, lo: nat, hi: nat)
    requires s.gs > 0 && lo <= hi <= ScaleBytes(s)
    ensures ScaleRange(s, lo, hi) == ScaleRange(s, 0, ScaleBytes(s))[lo..hi]
  {
  }
}
