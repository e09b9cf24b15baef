// Repacking a dense NVQ weight: three separate bit streams (states, indices, signs) become one
// stream of groups.  The packed buffer is proved to be exactly the concatenation of the fields.
module DensePack {
  import opened Bitwise
  import opened BitBuffer
  import opened Numeric

  datatype Weight = Weight(
    format: int, out: int, neuronLen: int, groups: int, gs: int, subBits: int,
    indices: seq<nat>, signs: seq<nat>, states: seq<nat>)

  datatype Error =
    | UnsupportedFormat | Geometry | Truncated
    | StateRoundTrip | IndexRoundTrip | SignRoundTrip | Expanded

  datatype Result = Packed(bytes: seq<nat>) | Failed(error: Error)

  function Parts(w: Weight): (p: nat)
    ensures p == 1 || p == 2
  {
    if w.format == 10 || w.format == 11 || w.format == 12 || w.format == 15 then 2 else 1
  }

  predicate Supported(format: int) {
    format in {5, 10, 11, 12, 13, 14, 15}
  }

  function IndexBits(w: Weight): (bits: nat)
    requires Supported(w.format)
    ensures bits in {8, 9, 10, 12}
  {
    if w.format == 12 then 9
    else if w.format == 13 || w.format == 15 then 10
    else if w.format == 14 then 12
    else 8
  }

  function Pairs(w: Weight): int { (w.neuronLen + 7) / 8 }

  function Vectors(w: Weight): int {
    if Parts(w) == 2 then (w.neuronLen + 3) / 4 else (w.neuronLen + 7) / 8
  }

  predicate GeometryOk(w: Weight) {
    && w.gs == 24 && w.subBits == 4 && w.out > 0 && w.neuronLen > 0
    && w.groups == (Pairs(w) + 2) / 3 && Vectors(w) == Pairs(w) * Parts(w)
  }

  function RowBits(w: Weight): int
    requires Supported(w.format)
  {
    Vectors(w) * IndexBits(w) + Pairs(w) * 7 + w.groups * 4
  }

  predicate Long(bytes: seq<nat>, bits: int) { |bytes| >= (bits + 7) / 8 }

  predicate LongEnough(w: Weight)
    requires Supported(w.format)
  {
    && Long(w.indices, w.out * Vectors(w) * IndexBits(w))
    && Long(w.signs, w.out * Pairs(w) * 7)
    && Long(w.states, w.out * w.groups * 4)
  }

  predicate Valid(w: Weight) {
    && Supported(w.format) && GeometryOk(w) && LongEnough(w)
  }

  // ----- the fields of one row, in packed order -----

  // Field k of a stream of fixed-width fields.
  function Field(stream: seq<bool>, k: int, width: nat): (f: seq<bool>)
    ensures |f| == width
  {
    if 0 <= k * width && k * width + width <= |stream| then stream[k * width..k * width + width] else ZeroStream(width)
  }

  function StateField(w: Weight, row: int, group: int): (f: seq<bool>)
    ensures |f| == 4
  {
    Field(Stream(w.states), row * w.groups + group, 4)
  }

  function IndexField(w: Weight, pair: int, part: nat): (f: seq<bool>)
    requires Supported(w.format)
    ensures |f| == IndexBits(w)
  {
    Field(Stream(w.indices), pair * Parts(w) + part, IndexBits(w))
  }

  function SignField(w: Weight, pair: int): (f: seq<bool>)
    ensures |f| == 7
  {
    Field(Stream(w.signs), pair, 7)
  }

  function PartsBits(w: Weight, pair: int, parts: nat): (s: seq<bool>)
    requires Supported(w.format)
    ensures |s| == parts * IndexBits(w)
  {
    if parts == 0 then [] else PartsBits(w, pair, parts - 1) + IndexField(w, pair, parts - 1)
  }

  function SegmentWidth(w: Weight): nat
    requires Supported(w.format)
  {
    Parts(w) * IndexBits(w) + 7
  }

  function SegmentBits(w: Weight, pair: int): (s: seq<bool>)
    requires Supported(w.format)
    ensures |s| == SegmentWidth(w)
  {
    PartsBits(w, pair, Parts(w)) + SignField(w, pair)
  }

  function PairOf(w: Weight, row: int, group: int, segment: int): int {
    row * Pairs(w) + group * 3 + segment
  }

  function SegmentsBits(w: Weight, row: int, group: int, segments: nat): (s: seq<bool>)
    requires Supported(w.format)
    ensures |s| == segments * SegmentWidth(w)
  {
    if segments == 0 then []
    else SegmentsBits(w, row, group, segments - 1) + SegmentBits(w, PairOf(w, row, group, segments - 1))
  }

  // Segments of a group: three, fewer in a partial last group.
  function SegmentCount(w: Weight, group: int): nat {
    if group * 3 + 3 <= Pairs(w) then 3 else if group * 3 < Pairs(w) then Pairs(w) - group * 3 else 0
  }

  function GroupBits(w: Weight, row: int, group: int): seq<bool>
    requires Supported(w.format)
  {
    StateField(w, row, group) + SegmentsBits(w, row, group, SegmentCount(w, group))
  }

  function GroupsBits(w: Weight, row: int, groups: nat): seq<bool>
    requires Supported(w.format)
  {
    if groups == 0 then [] else GroupsBits(w, row, groups - 1) + GroupBits(w, row, groups - 1)
  }

  function RowStream(w: Weight, row: int): seq<bool>
    requires Supported(w.format)
  {
    GroupsBits(w, row, if w.groups < 0 then 0 else w.groups)
  }

  function RowsStream(w: Weight, rows: nat): seq<bool>
    requires Supported(w.format)
  {
    if rows == 0 then [] else RowsStream(w, rows - 1) + RowStream(w, rows - 1)
  }

  // ----- lengths: the fields fill the row exactly -----

  function Stride(w: Weight): nat
    requires Supported(w.format)
  {
    4 + 3 * SegmentWidth(w)
  }

  lemma {:induction false} GroupsLength(w: Weight, row: int, groups: nat)
    requires Supported(w.format) && GeometryOk(w) && groups <= w.groups
    ensures |GroupsBits(w, row, groups)| ==
            if groups * 3 <= Pairs(w) then groups * Stride(w) else groups * 4 + Pairs(w) * SegmentWidth(w)
  {
    hide GroupBits, Stride, SegmentWidth, Vectors;
    if groups > 0 {
      GroupsLength(w, row, groups - 1);
      GroupLength(w, row, groups - 1);
      EnoughPairs(w, groups);
      var left := Pairs(w) - (groups - 1) * 3;
      if left >= 3 {
        NextMultiple(groups, Stride(w));
      } else {
        StrideIs(w, groups - 1);
        Distribute(groups - 1, left, SegmentWidth(w));
        assert 3 * (groups - 1) + left == Pairs(w);
      }
    }
  }

  lemma GroupLength(w: Weight, row: int, group: nat)
    requires Supported(w.format)
    ensures var left := Pairs(w) - group * 3;
      |GroupBits(w, row, group)| == if left >= 3 then Stride(w) else if left > 0 then 4 + left * SegmentWidth(w) else 4
  {
    hide SegmentWidth;
  }

  lemma EnoughPairs(w: Weight, groups: nat)
    requires GeometryOk(w) && 0 < groups <= w.groups
    ensures (groups - 1) * 3 < Pairs(w)
  {
  }

  lemma StrideIs(w: Weight, groups: nat)
    requires Supported(w.format)
    ensures groups * Stride(w) == groups * (4 + 3 * SegmentWidth(w))
  {
  }

  lemma Distribute(g: nat, left: nat, sw: nat)
    ensures g * (4 + 3 * sw) + 4 + left * sw == (g + 1) * 4 + (3 * g + left) * sw
  {
  }

  lemma RowLength(w: Weight, row: int)
    requires Supported(w.format) && GeometryOk(w)
    ensures |RowStream(w, row)| == RowBits(w)
  {
    hide GroupsBits, SegmentWidth, IndexBits, Parts;
    GroupsLength(w, row, w.groups);
    RowBitsSplit(w);
    if w.groups * 3 <= Pairs(w) {
      assert w.groups * 3 == Pairs(w);
      Distribute(w.groups, 0, SegmentWidth(w));
    }
  }

  lemma RowBitsSplit(w: Weight)
    requires Supported(w.format) && GeometryOk(w)
    ensures RowBits(w) == w.groups * 4 + Pairs(w) * SegmentWidth(w)
  {
    hide IndexBits;
    PairSplit(Pairs(w), Parts(w), IndexBits(w), Vectors(w));
  }

  lemma PairSplit(p: int, k: int, b: int, v: int)
    requires (k == 1 && v == p) || (k == 2 && v == 2 * p)
    ensures v * b + p * 7 == p * (k * b + 7)
  {
    if k == 2 {
      assert (2 * p) * b == p * (2 * b);
    }
  }

  lemma {:induction false} RowsLength(w: Weight, rows: nat)
    requires Supported(w.format) && GeometryOk(w)
    ensures |RowsStream(w, rows)| == rows * RowBits(w)
  {
    hide RowBits, GroupsBits;
    if rows > 0 {
      RowsLength(w, rows - 1);
      RowLength(w, rows - 1);
      NextMultiple(rows, RowBits(w));
    }
  }

  // Where the packer puts group `group` of `row`.
  function Target(w: Weight, row: nat, group: nat): int
    requires Supported(w.format)
  {
    row * RowBits(w) + group * Stride(w)
  }

  // Everything before group `group` of `row`.
  function Before(w: Weight, row: nat, group: nat): seq<bool>
    requires Supported(w.format)
  {
    RowsStream(w, row) + GroupsBits(w, row, group)
  }

  lemma BeforeLength(w: Weight, row: nat, group: nat)
    requires Supported(w.format) && GeometryOk(w) && group < w.groups
    ensures |Before(w, row, group)| == Target(w, row, group)
  {
    RowsLength(w, row);
    GroupsLength(w, row, group);
    assert group * 3 <= Pairs(w);
  }

  // ----- prefixes: where a field sits in the whole -----

  lemma {:induction false} PartsPrefix(w: Weight, pair: int, i: nat, j: nat)
    requires Supported(w.format) && i <= j
    ensures PartsBits(w, pair, i) <= PartsBits(w, pair, j)
  {
    hide IndexField;
    if i < j { PartsPrefix(w, pair, i, j - 1); }
  }

  lemma {:induction false} SegmentsPrefix(w: Weight, row: int, group: int, i: nat, j: nat)
    requires Supported(w.format) && i <= j
    ensures SegmentsBits(w, row, group, i) <= SegmentsBits(w, row, group, j)
  {
    hide SegmentBits;
    if i < j { SegmentsPrefix(w, row, group, i, j - 1); }
  }

  lemma {:induction false} GroupsPrefix(w: Weight, row: int, i: nat, j: nat)
    requires Supported(w.format) && i <= j
    ensures GroupsBits(w, row, i) <= GroupsBits(w, row, j)
  {
    hide GroupBits;
    if i < j { GroupsPrefix(w, row, i, j - 1); }
  }

  lemma {:induction false} RowsPrefix(w: Weight, i: nat, j: nat)
    requires Supported(w.format) && i <= j
    ensures RowsStream(w, i) <= RowsStream(w, j)
  {
    if i < j { RowsPrefix(w, i, j - 1); }
  }

  lemma PrefixStep(a: seq<bool>, b: seq<bool>, c: seq<bool>)
    requires b <= c
    ensures a + b <= a + c
  {
  }

  lemma PrefixTrans(a: seq<bool>, b: seq<bool>, c: seq<bool>)
    requires a <= b && b <= c
    ensures a <= c
  {
  }

  lemma GroupInWhole(w: Weight, row: nat, group: nat)
    requires Supported(w.format) && GeometryOk(w) && row < w.out && group < w.groups
    ensures Before(w, row, group) + GroupBits(w, row, group) == Before(w, row, group + 1)
    ensures Before(w, row, group + 1) <= RowsStream(w, w.out)
    ensures Before(w, row, w.groups) == RowsStream(w, row + 1)
  {
    hide GroupBits;
    var rows := RowsStream(w, row);
    GroupsPrefix(w, row, group + 1, w.groups);
    RowsPrefix(w, row + 1, w.out);
    assert rows + GroupsBits(w, row, group) + GroupBits(w, row, group) == rows + GroupsBits(w, row, group + 1);
    PrefixStep(rows, GroupsBits(w, row, group + 1), RowStream(w, row));
    PrefixTrans(Before(w, row, group + 1), RowsStream(w, row + 1), RowsStream(w, w.out));
  }

  // ----- every source field is inside its source stream -----

  lemma FieldInside(bytes: seq<nat>, count: int, width: nat, k: int)
    requires 0 <= k < count && Long(bytes, count * width)
    ensures 0 <= k * width && k * width + width <= 8 * |bytes|
    ensures Field(Stream(bytes), k, width) == Stream(bytes)[k * width..k * width + width]
  {
    hide Stream;
    Slot(k, count, width);
  }

  lemma IndexCount(w: Weight)
    requires Valid(w)
    ensures w.out * Vectors(w) == (w.out * Pairs(w)) * Parts(w)
  {
    hide Vectors, Pairs, Parts, LongEnough;
    assert Vectors(w) == Pairs(w) * Parts(w);
  }

  lemma IndexInside(w: Weight, pair: nat, part: nat)
    requires Valid(w) && pair < w.out * Pairs(w) && part < Parts(w)
    ensures var at := (pair * Parts(w) + part) * IndexBits(w);
      && 0 <= at && at + IndexBits(w) <= 8 * |w.indices|
      && IndexField(w, pair, part) == Stream(w.indices)[at..at + IndexBits(w)]
  {
    hide Stream, IndexBits, Field, Vectors, Pairs, Parts;
    IndexCount(w);
    Slot(pair, w.out * Pairs(w), Parts(w));
    FieldInside(w.indices, w.out * Vectors(w), IndexBits(w), pair * Parts(w) + part);
  }

  lemma PairInside(w: Weight, row: nat, group: nat, segment: nat)
    requires Valid(w) && row < w.out && group < w.groups && segment < SegmentCount(w, group)
    ensures 0 <= PairOf(w, row, group, segment) < w.out * Pairs(w)
  {
    hide LongEnough;
    assert group * 3 + segment < Pairs(w);
    Slot(row, w.out, Pairs(w));
  }

  lemma StateInside(w: Weight, row: nat, group: nat)
    requires Valid(w) && row < w.out && group < w.groups
    ensures var at := (row * w.groups + group) * 4;
      0 <= at && at + 4 <= 8 * |w.states| && StateField(w, row, group) == Stream(w.states)[at..at + 4]
  {
    hide Stream, Field;
    Slot(row, w.out, w.groups);
    FieldInside(w.states, w.out * w.groups, 4, row * w.groups + group);
  }

  // ----- packing -----

  method PackSegment(w: Weight, data: array<nat>, pair: nat, start: nat, ghost prefix: seq<bool>)
    requires Valid(w) && pair < w.out * Pairs(w)
    requires Holds(data[..], prefix) && |prefix| == start && start + SegmentWidth(w) <= 8 * data.Length
    modifies data
    ensures Holds(data[..], prefix + SegmentBits(w, pair))
  {
    hide Holds, Field, Stream, IndexBits, Parts;
    var bits, target := IndexBits(w), start;
    assert prefix + PartsBits(w, pair, 0) == prefix;
    for part := 0 to Parts(w)
      invariant target == start + part * bits
      invariant Holds(data[..], prefix + PartsBits(w, pair, part))
    {
      IndexInside(w, pair, part);
      assert (part + 1) * bits <= Parts(w) * bits;
      assert part * bits + bits == (part + 1) * bits;
      CopyField(data, target, bits, w.indices, (pair * Parts(w) + part) * bits, prefix + PartsBits(w, pair, part));
      assert prefix + PartsBits(w, pair, part) + IndexField(w, pair, part) == prefix + PartsBits(w, pair, part + 1);
      target := target + bits;
    }
    FieldInside(w.signs, w.out * Pairs(w), 7, pair);
    CopyField(data, target, 7, w.signs, pair * 7, prefix + PartsBits(w, pair, Parts(w)));
    assert prefix + PartsBits(w, pair, Parts(w)) + SignField(w, pair) == prefix + SegmentBits(w, pair);
  }

  method PackGroup(w: Weight, data: array<nat>, row: nat, group: nat, start: nat, ghost prefix: seq<bool>)
    requires Valid(w) && row < w.out && group < w.groups
    requires Holds(data[..], prefix) && |prefix| == start && start + |GroupBits(w, row, group)| <= 8 * data.Length
    modifies data
    ensures Holds(data[..], prefix + GroupBits(w, row, group))
  {
    hide Holds, Field, Stream, IndexBits, Parts, SegmentWidth, SegmentsBits, SegmentBits;
    var target := start;
    StateInside(w, row, group);
    CopyField(data, target, 4, w.states, (row * w.groups + group) * 4, prefix);
    target := target + 4;
    ghost var head := prefix + StateField(w, row, group);
    NoSegments(w, row, group, head);
    var segment := 0;
    while segment < 3 && group * 3 + segment < Pairs(w)
      invariant segment <= SegmentCount(w, group)
      invariant target == start + 4 + segment * SegmentWidth(w)
      invariant Holds(data[..], head + SegmentsBits(w, row, group, segment))
    {
      var pair := row * Pairs(w) + group * 3 + segment;
      PairInside(w, row, group, segment);
      Slot(segment, SegmentCount(w, group), SegmentWidth(w));
      PackSegment(w, data, pair, target, head + SegmentsBits(w, row, group, segment));
      NextSegment(w, row, group, segment, head);
      target := target + SegmentWidth(w);
      segment := segment + 1;
    }
    assert head + SegmentsBits(w, row, group, segment) == prefix + GroupBits(w, row, group);
  }

  lemma NoSegments(w: Weight, row: int, group: int, head: seq<bool>)
    requires Supported(w.format)
    ensures head + SegmentsBits(w, row, group, 0) == head
  {
  }

  lemma NextSegment(w: Weight, row: int, group: int, segment: nat, head: seq<bool>)
    requires Supported(w.format)
    ensures head + SegmentsBits(w, row, group, segment) + SegmentBits(w, PairOf(w, row, group, segment))
         == head + SegmentsBits(w, row, group, segment + 1)
  {
    hide SegmentBits;
  }

  // The first pass: the buffer is the concatenation of every row's fields and zero padding.
  method PackRows(w: Weight) returns (packed: array<nat>)
    requires Valid(w)
    ensures fresh(packed) && packed.Length == (w.out * RowBits(w) + 7) / 8
    ensures Holds(packed[..], RowsStream(w, w.out))
  {
    hide Holds, RowBits, GroupBits, Stride;
    RowsLength(w, w.out);
    packed := new nat[(w.out * RowBits(w) + 7) / 8](i => 0);
    EmptyHolds(packed[..]);
    for row := 0 to w.out
      invariant Holds(packed[..], RowsStream(w, row))
    {
      assert RowsStream(w, row) == Before(w, row, 0);
      for group := 0 to w.groups
        invariant Holds(packed[..], Before(w, row, group))
      {
        GroupInWhole(w, row, group);
        BeforeLength(w, row, group);
        PackGroup(w, packed, row, group, row * RowBits(w) + group * Stride(w), Before(w, row, group));
      }
      GroupInWhole(w, row, 0);
    }
  }

  // ----- the packer's own read-back pass -----

  method SegmentReadsBack(w: Weight, packed: seq<nat>, pair: nat, start: nat, ghost prefix: seq<bool>)
      returns (error: Result)
    requires Valid(w) && pair < w.out * Pairs(w)
    requires |prefix| == start && prefix + SegmentBits(w, pair) <= Stream(packed)
    ensures error.Packed?
  {
    hide Field, Stream, IndexBits, Parts, SegmentBits;
    var bits, target := IndexBits(w), start;
    for part := 0 to Parts(w)
      invariant target == start + part * bits
    {
      IndexInside(w, pair, part);
      PartInStream(w, packed, pair, part, prefix);
      assert part * bits + bits == (part + 1) * bits;
      var same := SameField(packed, target, w.indices, (pair * Parts(w) + part) * bits, bits);
      if !same {
        return Failed(IndexRoundTrip);
      }
      target := target + bits;
    }
    FieldInside(w.signs, w.out * Pairs(w), 7, pair);
    SignInStream(w, packed, pair, prefix);
    var same := SameField(packed, target, w.signs, pair * 7, 7);
    if !same {
      return Failed(SignRoundTrip);
    }
    return Packed(packed);
  }

  lemma PartInSegment(w: Weight, pair: int, part: nat)
    requires Supported(w.format) && part < Parts(w)
    ensures PartsBits(w, pair, part + 1) <= SegmentBits(w, pair)
  {
    hide IndexField, Parts, IndexBits, SignField;
    PartsPrefix(w, pair, part + 1, Parts(w));
    assert PartsBits(w, pair, Parts(w)) <= SegmentBits(w, pair);
  }

  lemma PartInStream(w: Weight, packed: seq<nat>, pair: int, part: nat, prefix: seq<bool>)
    requires Supported(w.format) && part < Parts(w) && prefix + SegmentBits(w, pair) <= Stream(packed)
    ensures Reads(Stream(packed), |prefix| + part * IndexBits(w), IndexField(w, pair, part))
  {
    hide Stream, IndexField, Parts, IndexBits, SegmentBits, Reads;
    PartInSegment(w, pair, part);
    var before := prefix + PartsBits(w, pair, part);
    assert PartsBits(w, pair, part + 1) == PartsBits(w, pair, part) + IndexField(w, pair, part);
    assert before + IndexField(w, pair, part) == prefix + PartsBits(w, pair, part + 1);
    PrefixStep(prefix, PartsBits(w, pair, part + 1), SegmentBits(w, pair));
    FieldInStream(before, IndexField(w, pair, part), prefix + SegmentBits(w, pair), Stream(packed));
  }

  lemma SignInStream(w: Weight, packed: seq<nat>, pair: int, prefix: seq<bool>)
    requires Supported(w.format) && prefix + SegmentBits(w, pair) <= Stream(packed)
    ensures Reads(Stream(packed), |prefix| + Parts(w) * IndexBits(w), SignField(w, pair))
  {
    hide Stream, SignField, Parts, IndexBits;
    var before := prefix + PartsBits(w, pair, Parts(w));
    assert before + SignField(w, pair) == prefix + SegmentBits(w, pair);
    FieldInStream(before, SignField(w, pair), prefix + SegmentBits(w, pair), Stream(packed));
  }

  // The field stands in the stream at bit `at`.
  predicate Reads(s: seq<bool>, at: int, field: seq<bool>) {
    0 <= at && at + |field| <= |s| && s[at..at + |field|] == field
  }

  lemma FieldInStream(before: seq<bool>, field: seq<bool>, within: seq<bool>, whole: seq<bool>)
    requires before + field <= within <= whole
    ensures Reads(whole, |before|, field)
  {
    var n, m := |before|, |before| + |field|;
    assert (before + field)[n..m] == field;
    assert whole[..m] == before + field;
    assert whole[n..m] == whole[..m][n..m];
  }

  method GroupReadsBack(w: Weight, packed: seq<nat>, row: nat, group: nat, start: nat, ghost prefix: seq<bool>)
      returns (error: Result)
    requires Valid(w) && row < w.out && group < w.groups
    requires |prefix| == start && prefix + GroupBits(w, row, group) <= Stream(packed)
    ensures error.Packed?
  {
    hide Field, Stream, IndexBits, Parts, SegmentWidth, SegmentBits, SegmentCount;
    StateInside(w, row, group);
    ghost var head := prefix + StateField(w, row, group);
    FieldInStream(prefix, StateField(w, row, group), prefix + GroupBits(w, row, group), Stream(packed));
    var same := SameField(packed, start, w.states, (row * w.groups + group) * 4, 4);
    if !same {
      return Failed(StateRoundTrip);
    }
    var target := start + 4;
    var segment := 0;
    while segment < 3 && group * 3 + segment < Pairs(w)
      invariant segment <= SegmentCount(w, group)
      invariant target == start + 4 + segment * SegmentWidth(w)
    {
      MoreSegments(w, group, segment);
      var pair := row * Pairs(w) + group * 3 + segment;
      PairInside(w, row, group, segment);
      SegmentInGroup(w, row, group, segment);
      assert segment * SegmentWidth(w) + SegmentWidth(w) == (segment + 1) * SegmentWidth(w);
      PrefixStep(prefix, StateField(w, row, group) + SegmentsBits(w, row, group, segment) + SegmentBits(w, pair),
        GroupBits(w, row, group));
      assert head + SegmentsBits(w, row, group, segment) + SegmentBits(w, pair)
          == prefix + (StateField(w, row, group) + SegmentsBits(w, row, group, segment) + SegmentBits(w, pair));
      var r := SegmentReadsBack(w, packed, pair, target, head + SegmentsBits(w, row, group, segment));
      if r.Failed? {
        return r;
      }
      target := target + SegmentWidth(w);
      segment := segment + 1;
    }
    return Packed(packed);
  }

  lemma SegmentInGroup(w: Weight, row: int, group: int, segment: nat)
    requires Supported(w.format) && segment < SegmentCount(w, group)
    ensures StateField(w, row, group) + SegmentsBits(w, row, group, segment)
      + SegmentBits(w, PairOf(w, row, group, segment))
         <= GroupBits(w, row, group)
  {
    hide StateField, SegmentBits, SegmentCount;
    var state := StateField(w, row, group);
    SegmentsPrefix(w, row, group, segment + 1, SegmentCount(w, group));
    assert state + SegmentsBits(w, row, group, segment) + SegmentBits(w, PairOf(w, row, group, segment))
        == state + SegmentsBits(w, row, group, segment + 1);
    PrefixStep(state, SegmentsBits(w, row, group, segment + 1), SegmentsBits(w, row, group, SegmentCount(w, group)));
  }

  lemma MoreSegments(w: Weight, group: nat, segment: nat)
    requires segment < 3 && group * 3 + segment < Pairs(w)
    ensures segment < SegmentCount(w, group)
  {
  }

  lemma Expand(n: int, a: int, b: int, c: int)
    ensures n * (a + b * 7 + c * 4) == n * a + (n * b) * 7 + (n * c) * 4
  {
  }

  lemma Regroup(n: int, v: int, b: int)
    ensures n * (v * b) == n * v * b
  {
  }

  lemma PackedNotLarger(w: Weight)
    requires Valid(w)
    ensures (w.out * RowBits(w) + 7) / 8 <= |w.indices| + |w.signs| + |w.states|
  {
    hide Vectors, Pairs, Parts, IndexBits;
    Regroup(w.out, Vectors(w), IndexBits(w));
    Expand(w.out, Vectors(w) * IndexBits(w), Pairs(w), w.groups);
  }

  // The whole packer.  It fails exactly on a format, geometry or length error; the read-back and
  // size errors cannot happen, and the buffer's bits are the rows' fields, each once and in order.
  method PackDense(w: Weight) returns (result: Result)
    ensures !Supported(w.format) ==> result == Failed(UnsupportedFormat)
    ensures Supported(w.format) && !GeometryOk(w) ==> result == Failed(Geometry)
    ensures Supported(w.format) && GeometryOk(w) && !LongEnough(w) ==> result == Failed(Truncated)
    ensures Valid(w) ==>
      && result.Packed?
      && |result.bytes| == (w.out * RowBits(w) + 7) / 8 <= |w.indices| + |w.signs| + |w.states|
      && Holds(result.bytes, RowsStream(w, w.out))
  {
    if !Supported(w.format) {
      return Failed(UnsupportedFormat);
    }
    if !GeometryOk(w) {
      return Failed(Geometry);
    }
    if !LongEnough(w) {
      return Failed(Truncated);
    }
    PackedNotLarger(w);
    var packed := PackRows(w);
    var readBack := RowsReadBack(w, packed[..]);
    if readBack.Failed? {
      return readBack;
    }
    if packed.Length > |w.indices| + |w.signs| + |w.states| {
      return Failed(Expanded);
    }
    return Packed(packed[..]);
  }

  method RowsReadBack(w: Weight, packed: seq<nat>) returns (error: Result)
    requires Valid(w) && Holds(packed, RowsStream(w, w.out))
    ensures error.Packed?
  {
    hide RowBits, GroupBits, Stride, Stream;
    for row := 0 to w.out {
      for group := 0 to w.groups {
        GroupInWhole(w, row, group);
        BeforeLength(w, row, group);
        PrefixTrans(Before(w, row, group + 1), RowsStream(w, w.out), Stream(packed));
        var r := GroupReadsBack(w, packed, row, group, row * RowBits(w) + group * Stride(w), Before(w, row, group));
        if r.Failed? {
          return r;
        }
      }
    }
    return Packed(packed);
  }

  lemma Reassociate(a: seq<bool>, b: seq<bool>, c: seq<bool>, d: seq<bool>)
    ensures ((a + b) + c) + d == a + ((b + c) + d)
  {
  }

  lemma StateInGroup(w: Weight, row: int, group: int)
    requires Supported(w.format)
    ensures StateField(w, row, group) <= GroupBits(w, row, group)
  {
  }

  // Any buffer holding the rows' fields gives every state, index and sign back at the position a
  // reader computes for it, partial last groups and mid-byte rows included.
  lemma FieldPositions(w: Weight, bytes: seq<nat>, row: nat, group: nat, segment: nat, part: nat)
    requires Valid(w) && row < w.out && group < w.groups && segment < SegmentCount(w, group) && part < Parts(w)
    requires Holds(bytes, RowsStream(w, w.out))
    ensures var state := Target(w, row, group);
            var index := state + 4 + segment * SegmentWidth(w) + part * IndexBits(w);
            var sign := state + 4 + segment * SegmentWidth(w) + Parts(w) * IndexBits(w);
            var pair := PairOf(w, row, group, segment);
      && Reads(Stream(bytes), state, StateField(w, row, group))
      && Reads(Stream(bytes), index, IndexField(w, pair, part))
      && Reads(Stream(bytes), sign, SignField(w, pair))
  {
    hide Reads, GroupBits, SegmentsBits, Before, Target, Stream, StateField, IndexField, SignField, Parts, IndexBits,
      SegmentWidth, SegmentBits, SegmentCount, RowBits, Stride, Pairs;
    var before, pair := Before(w, row, group), PairOf(w, row, group, segment);
    var groupBits := GroupBits(w, row, group);
    GroupInWhole(w, row, group);
    BeforeLength(w, row, group);
    PrefixTrans(before + groupBits, RowsStream(w, w.out), Stream(bytes));
    StateInGroup(w, row, group);
    PrefixStep(before, StateField(w, row, group), groupBits);
    FieldInStream(before, StateField(w, row, group), before + groupBits, Stream(bytes));
    SegmentInGroup(w, row, group, segment);
    var head := before + StateField(w, row, group) + SegmentsBits(w, row, group, segment);
    var tail := StateField(w, row, group) + SegmentsBits(w, row, group, segment) + SegmentBits(w, pair);
    PrefixStep(before, tail, groupBits);
    Reassociate(before, StateField(w, row, group), SegmentsBits(w, row, group, segment), SegmentBits(w, pair));
    PrefixTrans(head + SegmentBits(w, pair), before + groupBits, Stream(bytes));
    PartInStream(w, bytes, pair, part, head);
    SignInStream(w, bytes, pair, head);
  }
}
