// The whole synthetic model: reference bytes are shared out over the tensors, every share becomes a
// number of bits, and the segments written take up the reference's bytes again, up to rounding.
module TqPlan {
  import opened Numeric
  import opened TqBudget
  import opened TqBacking
  import opened TqSegment
  import opened TqReader
  import opened TqRows
  import opened TqGenerate

  // ----- geometry -----

  // A tensor's rows, its padded width, its reference bytes and its anchor.
  datatype Shape = Shape(rows: nat, width: nat, original: nat, anchor: nat)

  predicate ShapeOk(s: Shape) {
    s.rows > 0 && 0 < s.width <= 0xffff_ffff && s.width % 256 == 0 && TqTensor.NonnegativeHalf(s.anchor)
  }

  predicate ShapesOk(shapes: seq<Shape>) { forall i :: 0 <= i < |shapes| ==> ShapeOk(shapes[i]) }

  function Metadata(s: Shape, gs: nat): nat
    requires ShapeOk(s) && gs > 0
  {
    s.rows * 8 + (s.rows * ((s.width + gs - 1) / gs) + 1) / 2 + SegmentCount(s.rows, s.width) * 64
  }

  // One bit for every weight at least, eight at most.
  function ItemOf(s: Shape, gs: nat): (item: Item)
    requires ShapeOk(s) && gs > 0
    ensures item.minimum <= item.maximum
  {
    TimesNat(s.rows, s.width);
    Weights(s.rows, s.width, s.rows * s.width);
    Item(s.original, Metadata(s, gs) + s.rows * s.width / 8, Metadata(s, gs) + s.rows * s.width)
  }

  lemma Weights(rows: nat, width: nat, weights: nat)
    requires weights == rows * width && width % 256 == 0
    ensures weights / 8 <= weights && weights / 8 * 8 == weights
  {
    var w := width / 8;
    assert width == 8 * w;
    TimesNat(rows, w);
    Eightfold(rows, w, width, weights);
    WholeEighths(rows * w, weights);
  }

  lemma Eightfold(rows: nat, w: nat, width: nat, weights: nat)
    requires width == 8 * w && weights == rows * width
    ensures weights == 8 * (rows * w)
  {
  }

  lemma WholeEighths(p: nat, weights: nat)
    requires weights == 8 * p
    ensures weights / 8 <= weights && weights / 8 * 8 == weights
  {
  }

  function ItemsOf(shapes: seq<Shape>, gs: nat): (items: seq<Item>)
    requires ShapesOk(shapes) && gs > 0
    ensures |items| == |shapes| && Items(items)
    ensures forall i :: 0 <= i < |items| ==> items[i] == ItemOf(shapes[i], gs)
  {
    seq(|shapes|, i requires 0 <= i < |shapes| => ItemOf(shapes[i], gs))
  }

  function RowBytes(s: Shape, gs: nat, target: int): int
    requires ShapeOk(s) && gs > 0
  {
    (target - Metadata(s, gs)) * 8
  }

  // round((target - metadata) * 8 / width)
  function WantedBits(s: Shape, gs: nat, target: int): int
    requires ShapeOk(s) && gs > 0
  {
    Round(RowBytes(s, gs, target), s.width)
  }

  predicate InBounds(s: Shape, gs: nat, target: int)
    requires ShapeOk(s) && gs > 0
  {
    ItemOf(s, gs).minimum <= target <= ItemOf(s, gs).maximum
  }

  // A target within its bounds asks for one to eight bits a row, so the clip never acts on it.
  lemma ClipIsIdle(s: Shape, gs: nat, target: int)
    requires ShapeOk(s) && gs > 0 && InBounds(s, gs, target)
    ensures s.rows <= WantedBits(s, gs, target) <= 8 * s.rows
    ensures TotalBits(s.rows, WantedBits(s, gs, target)) == WantedBits(s, gs, target)
  {
    hide Round, Metadata;
    var weights := s.rows * s.width;
    Weights(s.rows, s.width, weights);
    Reordered(s.rows, s.width);
    RoundWithin(RowBytes(s, gs, target), s.width, s.rows, 8 * s.rows);
  }

  // A rounded quotient is at most half a divisor off.
  lemma RoundNear(num: int, den: int)
    requires den > 0
    ensures var off := num - Round(num, den) * den; -den <= 2 * off <= den
  {
    var q, r := num / den, num % den;
    assert num == q * den + r && 0 <= r < den;
    assert (q + 1) * den == q * den + den;
  }

  // ----- bytes of a tensor's segments -----

  function Nbytes(segments: seq<Spec>, n: nat): nat
    requires n <= |segments|
  {
    if n == 0 then 0 else Nbytes(segments, n - 1) + segments[n - 1].nbytes
  }

  // Header, descriptors and packed states of each segment, and half a byte a scale selector; only
  // segments with an odd number of selectors waste half a byte.
  lemma {:induction false} NbytesAre(segments: seq<Spec>, files: seq<seq<nat>>, width: nat, gs: nat, n: nat)
      returns (odd: nat)
    requires Alike(segments, files, width, gs) && gs > 0 && n <= |segments|
    ensures odd <= n
    ensures 2 * Nbytes(segments, n) == 2 * (64 * n + 8 * RowsBefore(segments, n) + PackedBefore(segments, n))
      + RowsBefore(segments, n) * ((width + gs - 1) / gs) + odd
  {
    hide TqSegment.Valid, Backed, PackedBytes;
    if n == 0 {
      odd := 0;
    } else {
      var before := NbytesAre(segments, files, width, gs, n - 1);
      var s := segments[n - 1];
      var wasted := SegmentBytes(s);
      odd := before + wasted;
      MoreSelectors(RowsBefore(segments, n - 1), s.rows, (width + gs - 1) / gs);
    }
  }

  lemma SegmentBytes(s: Spec) returns (wasted: nat)
    requires TqSegment.Valid(s)
    ensures wasted <= 1 && s.gs > 0
    ensures 2 * s.nbytes == 2 * (64 + 8 * s.rows + PackedBytes(s)) + s.rows * TqSegment.Groups(s) + wasted
    ensures TqSegment.Groups(s) == (s.width + s.gs - 1) / s.gs
  {
    hide HistogramsOk, PackedBytes, Bitwise.And;
    TqTensor.GroupSizePositive(s.gs);
    var selectors := s.rows * TqSegment.Groups(s);
    wasted := selectors % 2;
  }

  lemma MoreSelectors(rows: nat, more: nat, groups: nat)
    ensures (rows + more) * groups == rows * groups + more * groups
  {
  }

  // The bytes of a tensor are its target but for rounding the bits and odd selector counts.
  predicate NearTarget(s: Shape, target: int, bytes: int, segments: nat) {
    0 - s.width <= 16 * (bytes - target) <= s.width + 8 * segments
  }

  ghost predicate Rendered(s: Shape, gs: nat, target: int, segments: seq<Spec>, files: seq<seq<nat>>, position: nat)
    requires ShapeOk(s) && gs > 0
  {
    && SegmentsOk(segments, files) && Consecutive(segments, files, position)
    && |segments| == SegmentCount(s.rows, s.width) && RowsBefore(segments, |segments|) == s.rows
    && BitsBefore(segments, |segments|) == WantedBits(s, gs, target)
    && NearTarget(s, target, Nbytes(segments, |segments|), |segments|)
  }

  lemma BytesNearTarget(s: Shape, gs: nat, target: int, segments: seq<Spec>, files: seq<seq<nat>>)
    requires ShapeOk(s) && gs > 0 && InBounds(s, gs, target) && Alike(segments, files, s.width, gs)
    requires |segments| == SegmentCount(s.rows, s.width) && RowsBefore(segments, |segments|) == s.rows
    requires BitsBefore(segments, |segments|) == WantedBits(s, gs, target)
    ensures NearTarget(s, target, Nbytes(segments, |segments|), |segments|)
  {
    hide TqSegment.Valid, Backed, Alike, SegmentCount, Nbytes, RowsBefore, BitsBefore, PackedBefore, Round,
      Metadata, RowBytes, WantedBits, InBounds, ItemOf, TotalBits, Consecutive;
    var n, bits := |segments|, WantedBits(s, gs, target);
    ClipIsIdle(s, gs, target);
    var odd := NbytesAre(segments, files, s.width, gs, n);
    PackedIsWidth(segments, files, s.width, gs);
    Commuted(bits, s.width);
    TimesNat(bits, s.width);
    Weights(bits, s.width, bits * s.width);
    BitsNear(s, gs, target);
    MetadataIs(s, gs);
    TimesNat(s.rows, (s.width + gs - 1) / gs);
    NearArithmetic(s.width, s.rows, n, s.rows * ((s.width + gs - 1) / gs), odd, bits * s.width,
      Nbytes(segments, n), target, Metadata(s, gs));
  }

  lemma Commuted(a: int, b: int)
    ensures a * b == b * a
  {
  }

  lemma BitsNear(s: Shape, gs: nat, target: int)
    requires ShapeOk(s) && gs > 0
    ensures 0 - s.width <= 2 * ((target - Metadata(s, gs)) * 8 - WantedBits(s, gs, target) * s.width) <= s.width
  {
    hide Round, Metadata;
    RoundNear(RowBytes(s, gs, target), s.width);
  }

  lemma MetadataIs(s: Shape, gs: nat)
    requires ShapeOk(s) && gs > 0
    ensures Metadata(s, gs)
      == s.rows * 8 + (s.rows * ((s.width + gs - 1) / gs) + 1) / 2 + SegmentCount(s.rows, s.width) * 64
  {
  }

  lemma NearArithmetic(width: nat, rows: nat, n: nat, selectors: nat, odd: nat, bitBytes: nat, bytes: nat,
      target: int, metadata: nat)
    requires 2 * bytes == 2 * (64 * n + 8 * rows + bitBytes / 8) + selectors + odd && odd <= n
    requires bitBytes / 8 * 8 == bitBytes
    requires metadata == rows * 8 + (selectors + 1) / 2 + n * 64
    requires 0 - width <= 2 * ((target - metadata) * 8 - bitBytes) <= width
    ensures 0 - width <= 16 * (bytes - target) <= width + 8 * n
  {
  }

  // ----- the whole model -----

  datatype Outcome = BadGroup | OutOfReach | TooSmall | Generated(tensors: seq<seq<Spec>>)

  function BitBytes(shapes: seq<Shape>, gs: nat, targets: seq<int>, n: nat): int
    requires ShapesOk(shapes) && gs > 0 && |targets| == |shapes| && n <= |shapes|
  {
    if n == 0 then 0
    else BitBytes(shapes, gs, targets, n - 1) + shapes[n - 1].width * WantedBits(shapes[n - 1], gs, targets[n - 1]) / 8
  }

  ghost predicate AllMade(shapes: seq<Shape>, gs: nat, targets: seq<int>, tensors: seq<seq<Spec>>,
      files: seq<seq<nat>>)
    requires ShapesOk(shapes) && gs > 0 && |targets| == |shapes| && |tensors| <= |shapes|
  {
    forall i :: 0 <= i < |tensors| ==>
      && 0 <= BitBytes(shapes, gs, targets, i)
      && Rendered(shapes[i], gs, targets[i], tensors[i], files, BitBytes(shapes, gs, targets, i))
  }

  ghost predicate AllInBounds(shapes: seq<Shape>, gs: nat, targets: seq<int>)
    requires ShapesOk(shapes) && gs > 0
  {
    |targets| == |shapes| && forall i :: 0 <= i < |shapes| ==> InBounds(shapes[i], gs, targets[i])
  }

  lemma {:induction false} BitBytesGrow(shapes: seq<Shape>, gs: nat, targets: seq<int>, m: nat, n: nat)
    requires ShapesOk(shapes) && gs > 0 && AllInBounds(shapes, gs, targets) && m <= n <= |shapes|
    ensures 0 <= BitBytes(shapes, gs, targets, m) <= BitBytes(shapes, gs, targets, n)
    decreases n
  {
    hide ShapeOk, WantedBits, InBounds;
    if n > 0 {
      BitBytesGrow(shapes, gs, targets, if m < n then m else n - 1, n - 1);
      ClipIsIdle(shapes[n - 1], gs, targets[n - 1]);
      NoFewer(shapes[n - 1].width, WantedBits(shapes[n - 1], gs, targets[n - 1]));
    }
  }

  lemma NoFewer(width: nat, bits: int)
    requires bits >= 0
    ensures width * bits / 8 >= 0
  {
  }

  // The targets are within bounds and sum to the reference bytes; each tensor's segments follow the
  // ones before in the source files and take up its target but for rounding. What is refused is an
  // invalid group size, a reference out of reach, or source files too small for the packed states.
  method Generate(shapes: seq<Shape>, gs: nat, seeds: (nat, nat) -> nat, expected: Expectation, backing: Backing,
      ghost files: seq<seq<nat>>) returns (o: Outcome, targets: seq<int>)
    requires ShapesOk(shapes) && Expects(expected)
    requires backing.Valid() && backing.sizes == Sizes(files) && backing.Position() == 0
    modifies backing
    ensures o.BadGroup? <==> !TqTensor.GroupSize(gs)
    ensures !o.BadGroup? ==> gs > 0
    ensures o.OutOfReach? <==>
      && TqTensor.GroupSize(gs) && gs > 0
      && var items := ItemsOf(shapes, gs);
        !(SumInt(Minima(items)) <= SumInt(Originals(items)) <= SumInt(Maxima(items)))
    ensures o.TooSmall? || o.Generated? ==>
      AllInBounds(shapes, gs, targets) && SumInt(targets) == SumInt(Originals(ItemsOf(shapes, gs)))
    ensures o.TooSmall? ==> BitBytes(shapes, gs, targets, |shapes|) > |TqBacking.Joined(files, |files|)|
    ensures o.Generated? ==>
      && BitBytes(shapes, gs, targets, |shapes|) <= |TqBacking.Joined(files, |files|)|
      && |o.tensors| == |shapes| && AllMade(shapes, gs, targets, o.tensors, files)
  {
    hide *;
    targets := [];
    if !TqTensor.GroupSize(gs) {
      return BadGroup, targets;
    }
    TqTensor.GroupSizePositive(gs);
    var items := ItemsOf(shapes, gs);
    var shared := Apportion(items);
    if shared.Unrepresentable? {
      return OutOfReach, targets;
    }
    targets := shared.targets;
    TargetsInBounds(shapes, gs, targets);
    var tensors: seq<seq<Spec>> := [];
    NothingMade(shapes, gs, targets, files);
    for i := 0 to |shapes|
      invariant backing.Valid() && |tensors| == i && AllMade(shapes, gs, targets, tensors, files)
      invariant backing.Position() == BitBytes(shapes, gs, targets, i) <= |TqBacking.Joined(files, |files|)|
    {
      var s := shapes[i];
      OneShape(shapes, gs, targets, i);
      var wanted := WantedBits(s, gs, targets[i]);
      ClipIsIdle(s, gs, targets[i]);
      BitBytesGrow(shapes, gs, targets, i + 1, |shapes|);
      var segments := MakeSegments(s.rows, s.width, gs, wanted, (first: nat) => seeds(i, first), s.anchor, expected,
        backing, files);
      if segments.None? {
        return TooSmall, targets;
      }
      OneMade(s, gs, targets[i], segments.value, files, BitBytes(shapes, gs, targets, i));
      MoreMade(shapes, gs, targets, tensors, files, segments.value);
      tensors := tensors + [segments.value];
    }
    o := Generated(tensors);
  }

  lemma TargetsInBounds(shapes: seq<Shape>, gs: nat, targets: seq<int>)
    requires ShapesOk(shapes) && gs > 0 && |targets| == |shapes|
    requires var items := ItemsOf(shapes, gs);
      forall i :: 0 <= i < |items| ==> items[i].minimum <= targets[i] <= items[i].maximum
    ensures AllInBounds(shapes, gs, targets)
  {
    hide ItemOf, ShapeOk;
  }

  lemma NothingMade(shapes: seq<Shape>, gs: nat, targets: seq<int>, files: seq<seq<nat>>)
    requires ShapesOk(shapes) && gs > 0 && |targets| == |shapes|
    ensures AllMade(shapes, gs, targets, [], files) && BitBytes(shapes, gs, targets, 0) == 0
  {
  }

  lemma OneShape(shapes: seq<Shape>, gs: nat, targets: seq<int>, i: nat)
    requires ShapesOk(shapes) && gs > 0 && AllInBounds(shapes, gs, targets) && i < |shapes|
    ensures var s := shapes[i];
      && ShapeOk(s) && InBounds(s, gs, targets[i])
      && s.rows > 0 && 0 < s.width <= 0xffff_ffff && s.width % 256 == 0 && TqTensor.NonnegativeHalf(s.anchor)
    ensures BitBytes(shapes, gs, targets, i + 1)
      == BitBytes(shapes, gs, targets, i) + shapes[i].width * WantedBits(shapes[i], gs, targets[i]) / 8
  {
    hide InBounds, WantedBits;
  }

  lemma OneMade(s: Shape, gs: nat, target: int, segments: seq<Spec>, files: seq<seq<nat>>, position: nat)
    requires ShapeOk(s) && gs > 0 && InBounds(s, gs, target) && Alike(segments, files, s.width, gs)
    requires SegmentsOk(segments, files) && Consecutive(segments, files, position)
    requires |segments| == SegmentCount(s.rows, s.width) && RowsBefore(segments, |segments|) == s.rows
    requires BitsBefore(segments, |segments|) == WantedBits(s, gs, target)
    ensures Rendered(s, gs, target, segments, files, position)
    ensures PackedBefore(segments, |segments|) == s.width * WantedBits(s, gs, target) / 8
  {
    hide Alike, SegmentsOk, Consecutive, SegmentCount, RowsBefore, BitsBefore, PackedBefore, WantedBits, NearTarget;
    BytesNearTarget(s, gs, target, segments, files);
    PackedIsWidth(segments, files, s.width, gs);
  }

  lemma MoreMade(shapes: seq<Shape>, gs: nat, targets: seq<int>, tensors: seq<seq<Spec>>, files: seq<seq<nat>>,
      segments: seq<Spec>)
    requires ShapesOk(shapes) && gs > 0 && |targets| == |shapes| && |tensors| < |shapes|
    requires AllMade(shapes, gs, targets, tensors, files) && 0 <= BitBytes(shapes, gs, targets, |tensors|)
    requires Rendered(shapes[|tensors|], gs, targets[|tensors|], segments, files,
      BitBytes(shapes, gs, targets, |tensors|))
    ensures AllMade(shapes, gs, targets, tensors + [segments], files)
  {
    hide Rendered, BitBytes, ShapeOk;
  }

  // ----- the size of the model against the reference -----

  function ModelBytes(tensors: seq<seq<Spec>>, n: nat): nat
    requires n <= |tensors|
  {
    if n == 0 then 0 else ModelBytes(tensors, n - 1) + Nbytes(tensors[n - 1], |tensors[n - 1]|)
  }

  // Sixteenths of a byte that rounding may cost: the widths, and half a byte for each segment.
  function Widths(shapes: seq<Shape>, n: nat): nat
    requires n <= |shapes|
  {
    if n == 0 then 0 else Widths(shapes, n - 1) + shapes[n - 1].width
  }

  function Segments(tensors: seq<seq<Spec>>, n: nat): nat
    requires n <= |tensors|
  {
    if n == 0 then 0 else Segments(tensors, n - 1) + |tensors[n - 1]|
  }

  lemma {:induction false} SumNearTargets(shapes: seq<Shape>, gs: nat, targets: seq<int>, tensors: seq<seq<Spec>>,
      files: seq<seq<nat>>, n: nat)
    requires ShapesOk(shapes) && gs > 0 && |targets| == |shapes| == |tensors| && n <= |shapes|
    requires AllMade(shapes, gs, targets, tensors, files)
    ensures 0 - Widths(shapes, n) <= 16 * (ModelBytes(tensors, n) - SumInt(targets[..n]))
      <= Widths(shapes, n) + 8 * Segments(tensors, n)
  {
    hide SumInt, Nbytes, BitBytes, ShapeOk, SegmentsOk, Consecutive, WantedBits, RowsBefore, BitsBefore, SegmentCount;
    if n == 0 {
      NoTargets(targets);
    } else {
      SumNearTargets(shapes, gs, targets, tensors, files, n - 1);
      SumIntPrefix(targets, n - 1);
      assert NearTarget(shapes[n - 1], targets[n - 1], Nbytes(tensors[n - 1], |tensors[n - 1]|), |tensors[n - 1]|);
    }
  }

  lemma NoTargets(targets: seq<int>)
    ensures SumInt(targets[..0]) == 0
  {
  }

  // Whatever the shapes and the source files, the generated model is as large as its reference but for
  // a sixteenth of each tensor's width and half a byte a segment.
  lemma ModelNearReference(shapes: seq<Shape>, gs: nat, targets: seq<int>, tensors: seq<seq<Spec>>,
      files: seq<seq<nat>>)
    requires ShapesOk(shapes) && gs > 0 && |targets| == |shapes| == |tensors|
    requires AllMade(shapes, gs, targets, tensors, files)
    requires SumInt(targets) == SumInt(Originals(ItemsOf(shapes, gs)))
    ensures var n := |shapes|;
      0 - Widths(shapes, n) <= 16 * (ModelBytes(tensors, n) - SumInt(Originals(ItemsOf(shapes, gs))))
        <= Widths(shapes, n) + 8 * Segments(tensors, n)
  {
    hide *;
    SumNearTargets(shapes, gs, targets, tensors, files, |shapes|);
    assert targets[..|shapes|] == targets;
  }
}
