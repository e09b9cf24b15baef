// Bits for every row with an exact total, and rows of eight fixed-precision tensors gathered into
// one tensor at those bits.
module TqSelect {
  import opened Options
  import opened Numeric
  import opened TqTensor
  import opened Slices

  // ----- row bits -----

  predicate Levels(bits: seq<nat>) { forall i :: 0 <= i < |bits| ==> 1 <= bits[i] <= 8 }

  // bits[chosen] += step
  function Moved(bits: seq<nat>, chosen: set<nat>, step: int): (r: seq<int>)
    ensures |r| == |bits| && forall i :: 0 <= i < |r| ==> r[i] == if i in chosen then bits[i] + step else bits[i]
  {
    seq(|bits|, i requires 0 <= i < |bits| => if i in chosen then bits[i] + step else bits[i])
  }

  lemma {:induction false} MovedSum(bits: seq<nat>, chosen: set<nat>, step: int)
    requires forall i :: i in chosen ==> i < |bits|
    ensures SumInt(Moved(bits, chosen, step)) == SumInt(bits) + step * |chosen|
    decreases |bits|
  {
    hide Moved;
    if |bits| == 0 {
      NoneChosen(chosen);
    } else {
      var n: nat := |bits| - 1;
      MovedSum(bits[..n], chosen - {n}, step);
      MovedFront(bits, chosen, step);
      if n in chosen {
        OneMoreTime(step, |chosen - {n}| + 1);
      } else {
        assert chosen - {n} == chosen;
      }
    }
  }

  lemma MovedFront(bits: seq<nat>, chosen: set<nat>, step: int)
    requires |bits| > 0
    ensures Moved(bits, chosen, step)[..|bits| - 1] == Moved(bits[..|bits| - 1], chosen - {|bits| - 1}, step)
  {
  }

  lemma NoneChosen(chosen: set<nat>)
    requires forall i :: i in chosen ==> i < 0
    ensures chosen == {}
  {
    if c :| c in chosen {
      assert c < 0;
    }
  }

  lemma {:induction false} SubsetOfSize(s: set<nat>, k: nat) returns (t: set<nat>)
    requires k <= |s|
    ensures t <= s && |t| == k
  {
    if k == 0 {
      t := {};
    } else {
      var x :| x in s;
      t := SubsetOfSize(s - {x}, k - 1);
      t := t + {x};
    }
  }

  // Some row can still move towards the target.
  lemma {:induction false} CanMove(bits: seq<nat>, target: int)
    requires Levels(bits) && |bits| <= target <= 8 * |bits| && SumInt(bits) != target
    ensures SumInt(bits) < target ==> exists i :: 0 <= i < |bits| && bits[i] < 8
    ensures SumInt(bits) > target ==> exists i :: 0 <= i < |bits| && bits[i] > 1
  {
    if SumInt(bits) < target && forall i :: 0 <= i < |bits| ==> bits[i] == 8 {
      SumIntBounds(bits, 8, 8);
    }
    if SumInt(bits) > target && forall i :: 0 <= i < |bits| ==> bits[i] == 1 {
      SumIntBounds(bits, 1, 1);
    }
  }

  // No row moved away from the target.
  predicate Towards(sample: seq<nat>, bits: seq<nat>, target: int) {
    && |bits| == |sample|
    && (SumInt(sample) <= target ==> forall i :: 0 <= i < |bits| ==> sample[i] <= bits[i])
    && (SumInt(sample) >= target ==> forall i :: 0 <= i < |bits| ==> bits[i] <= sample[i])
  }

  // Whichever sample is drawn and whichever rows are chosen, the repair ends on the exact sum.
  method RepairRowBits(sample: seq<nat>, target: nat) returns (bits: seq<nat>)
    requires Levels(sample) && |sample| <= target <= 8 * |sample|
    ensures |bits| == |sample| && Levels(bits) && SumInt(bits) == target
    ensures Towards(sample, bits, target)
  {
    hide SumInt;
    bits := sample;
    var delta := target - SumInt(bits);
    while delta != 0
      invariant Levels(bits) && Towards(sample, bits, target)
      invariant delta == target - SumInt(bits)
      invariant delta > 0 ==> SumInt(sample) < target
      invariant delta < 0 ==> SumInt(sample) > target
      decreases if delta < 0 then -delta else delta
    {
      var available := set i: nat | i < |bits| && (if delta > 0 then bits[i] < 8 else bits[i] > 1);
      var size := if delta < 0 then -delta else delta;
      CanMove(bits, target);
      SomeAvailable(bits, delta, available);
      var count := if size < |available| then size else |available|;
      ghost var some := SubsetOfSize(available, count);
      var chosen: set<nat> :| chosen <= available && |chosen| == count;
      var step := if delta > 0 then 1 else -1;
      MovedSum(bits, chosen, step);
      assert step * |chosen| == if delta > 0 then count else -count;
      bits := Moved(bits, chosen, step);
      delta := delta - (if delta > 0 then count else -count);
    }
  }

  lemma SomeAvailable(bits: seq<nat>, delta: int, available: set<nat>)
    requires delta != 0
    requires available == set i: nat | i < |bits| && (if delta > 0 then bits[i] < 8 else bits[i] > 1)
    requires delta > 0 ==> exists i :: 0 <= i < |bits| && bits[i] < 8
    requires delta < 0 ==> exists i :: 0 <= i < |bits| && bits[i] > 1
    ensures |available| > 0
  {
    var i :| 0 <= i < |bits| && (if delta > 0 then bits[i] < 8 else bits[i] > 1);
    assert i in available;
  }

  // The checked sampler: refuses impossible sums, short-cuts the two extreme ones.
  method RowBits(rows: int, bitSum: int, sample: seq<nat>) returns (bits: Option<seq<nat>>)
    requires Levels(sample) && (rows > 0 ==> |sample| == rows)
    ensures bits.Some? <==> rows >= 1 && rows <= bitSum <= 8 * rows
    ensures bits.Some? ==> |bits.value| == rows && Levels(bits.value) && SumInt(bits.value) == bitSum
  {
    if rows < 1 || !(rows <= bitSum <= 8 * rows) {
      return None;
    }
    if bitSum == rows || bitSum == 8 * rows {
      var level: nat := bitSum / rows;
      var full: seq<nat> := seq(rows, i => level);
      SumIntBounds(full, level, level);
      WholeLevel(rows, bitSum, level);
      return Some(full);
    }
    var repaired := RepairRowBits(sample, bitSum);
    bits := Some(repaired);
  }

  lemma WholeLevel(rows: nat, bitSum: nat, level: nat)
    requires rows > 0 && (bitSum == rows || bitSum == 8 * rows) && level == bitSum / rows
    ensures 1 <= level <= 8 && level * rows == bitSum
  {
    if bitSum == rows {
      assert rows / rows == 1;
    } else {
      assert (8 * rows) / rows == 8;
    }
  }

  // ----- gathering rows -----

  // The asserts on the loaded profiles.
  predicate Alike(profiles: seq<Tensor>)
    requires |profiles| == 8
  {
    && profiles[0].columns
    && forall k :: 0 <= k < 8 ==>
      && profiles[k].rows == profiles[0].rows && profiles[k].width == profiles[0].width
      && profiles[k].gs == profiles[0].gs && profiles[k].columns == profiles[0].columns
      && profiles[k].scales == profiles[0].scales
  }

  predicate AllValid(profiles: seq<Tensor>) { forall k :: 0 <= k < |profiles| ==> Valid(profiles[k]) }

  // Eight loaded profiles of one matrix, and a bit width for every row.
  predicate Loaded(profiles: seq<Tensor>, bits: seq<nat>) {
    && |profiles| == 8 && AllValid(profiles) && Alike(profiles)
    && Levels(bits) && |bits| == profiles[0].rows
  }

  // np.clip(round(...), rows, 8 * rows)
  function Clip(x: int, lo: int, hi: int): (r: int)
    requires lo <= hi
    ensures lo <= r <= hi && (lo <= x <= hi ==> r == x)
  {
    if x < lo then lo else if x > hi then hi else x
  }

  lemma ValidGeometry(t: Tensor)
    requires Valid(t)
    ensures Geometry(t) && Tiles(t.width, t.descriptors, |t.packed|) && AllClean(t.descriptors)
    ensures |t.packed| <= 4 * LIMIT
    ensures |t.descriptors| == t.rows > 0 && t.width >= 256 && t.width % 256 == 0
  {
    hide Tiles, AllClean, GroupSize, Groups, PositiveScales;
  }

  // The profile a row is copied from.
  function Source(profiles: seq<Tensor>, bits: seq<nat>, r: nat): (t: Tensor)
    requires Loaded(profiles, bits) && r < |bits|
    ensures Valid(t) && t.columns && t.rows == |t.descriptors| == |bits| && t.width == profiles[0].width
  {
    ValidGeometry(profiles[bits[r] - 1]);
    profiles[bits[r] - 1]
  }

  function Row(profiles: seq<Tensor>, bits: seq<nat>, r: nat): nat
    requires Loaded(profiles, bits) && r < |bits|
  {
    Source(profiles, bits, r).descriptors[r]
  }

  function Count(width: nat, bits: nat): nat { width * bits / 8 }

  // packed[begin:begin + count], cut short where the profile ends
  function Piece(profiles: seq<Tensor>, bits: seq<nat>, r: nat): seq<nat>
    requires Loaded(profiles, bits) && r < |bits|
  {
    var t := Source(profiles, bits, r);
    var begin := Offset(t.descriptors[r]) * 4;
    t.packed[Smaller(begin, |t.packed|)..Smaller(begin + Count(t.width, bits[r]), |t.packed|)]
  }

  // Words of all rows before this one.
  function Place(width: nat, bits: seq<nat>, r: nat): nat
    requires r <= |bits|
  {
    SumNat(bits[..r]);
    TimesNat(width / 32, SumInt(bits[..r]));
    width / 32 * SumInt(bits[..r])
  }

  lemma FirstPlace(width: nat, bits: seq<nat>)
    ensures Place(width, bits, 0) == 0
  {
  }

  lemma NextPlace(width: nat, bits: seq<nat>, r: nat)
    requires r < |bits|
    ensures Place(width, bits, r + 1) == Place(width, bits, r) + width / 32 * bits[r]
  {
    hide SumInt;
    SumIntPrefix(bits, r);
    Distribute(width / 32, SumInt(bits[..r]), bits[r]);
  }

  lemma Distribute(w: int, a: int, b: int)
    ensures w * (a + b) == w * a + w * b
  {
  }

  lemma {:induction false} PlaceMonotone(width: nat, bits: seq<nat>, m: nat, n: nat)
    requires m <= n <= |bits| && Levels(bits) && width >= 256
    ensures Place(width, bits, m) <= Place(width, bits, n) && (m < n ==> Place(width, bits, m) < Place(width, bits, n))
  {
    hide Place;
    if m < n {
      PlaceMonotone(width, bits, m, n - 1);
      NextPlace(width, bits, n - 1);
      SomeOf(width / 32, bits[n - 1]);
    }
  }

  lemma SomeOf(w: nat, bits: nat)
    requires w > 0 && bits > 0
    ensures w * bits > 0
  {
  }

  lemma RowBytes(width: nat, bits: nat)
    requires width % 256 == 0
    ensures Count(width, bits) == 4 * (width / 32 * bits)
    ensures width * bits / 32 == width / 32 * bits
  {
    ThirtyTwoTimes(width / 32, bits, width);
  }

  lemma ThirtyTwoTimes(w: nat, bits: nat, width: nat)
    requires width == 32 * w
    ensures width * bits == 32 * (w * bits)
  {
  }

  // The descriptor's own precision is the width the row was given.
  predicate PreciseRow(profiles: seq<Tensor>, bits: seq<nat>, r: nat)
    requires Loaded(profiles, bits) && r < |bits|
  {
    UpperPrecision(Upper(Row(profiles, bits, r))) == bits[r]
  }

  predicate Precise(profiles: seq<Tensor>, bits: seq<nat>)
    requires Loaded(profiles, bits)
  {
    forall r :: 0 <= r < |bits| ==> PreciseRow(profiles, bits, r)
  }

  // Where the profile's descriptor places a row of the right precision.
  lemma SourcePlace(profiles: seq<Tensor>, bits: seq<nat>, r: nat)
    requires Loaded(profiles, bits) && r < |bits| && PreciseRow(profiles, bits, r)
    ensures var t := Source(profiles, bits, r);
      && Offset(Row(profiles, bits, r)) == WordsBefore(t.width, t.descriptors, r)
      && 4 * WordsBefore(t.width, t.descriptors, r + 1)
        == 4 * Offset(Row(profiles, bits, r)) + Count(t.width, bits[r]) <= |t.packed|
  {
    hide Offset, Upper, UpperPrecision, Loaded, WordsBefore, Count;
    var t := Source(profiles, bits, r);
    ValidGeometry(t);
    PackedInside(t.width, t.descriptors, |t.packed|, r, r + 1);
    NextWords(t.width, t.descriptors, r);
    RowBytes(t.width, bits[r]);
  }

  // A row of the right precision is there whole, and is its profile's payload.
  lemma PieceSlice(profiles: seq<Tensor>, bits: seq<nat>, r: nat)
    requires Loaded(profiles, bits) && r < |bits| && PreciseRow(profiles, bits, r)
    ensures var t := Source(profiles, bits, r);
      && |Piece(profiles, bits, r)| == Count(t.width, bits[r])
      && Tiles(t.width, t.descriptors, |t.packed|)
      && Piece(profiles, bits, r) == PackedRows(t.width, t.descriptors, t.packed, r, r + 1)
  {
    hide Offset, Upper, UpperPrecision, Loaded, WordsBefore, Count, PreciseRow, Valid;
    SourcePlace(profiles, bits, r);
    ValidGeometry(Source(profiles, bits, r));
  }

  // The payload's rows lie one after another.
  predicate Laid(profiles: seq<Tensor>, bits: seq<nat>, n: nat, done: seq<nat>)
    requires Loaded(profiles, bits) && n <= |bits|
  {
    && |done| == 4 * Place(profiles[0].width, bits, n)
    && forall r :: 0 <= r < n ==> LaidRow(profiles, bits, r, done)
  }

  predicate LaidRow(profiles: seq<Tensor>, bits: seq<nat>, r: nat, done: seq<nat>)
    requires Loaded(profiles, bits) && r < |bits|
  {
    var width := profiles[0].width;
    && 4 * Place(width, bits, r) <= 4 * Place(width, bits, r + 1) <= |done|
    && done[4 * Place(width, bits, r)..4 * Place(width, bits, r + 1)] == Piece(profiles, bits, r)
  }

  predicate Placed(profiles: seq<Tensor>, bits: seq<nat>, ds: seq<nat>)
    requires Loaded(profiles, bits) && |ds| <= |bits|
  {
    forall r :: 0 <= r < |ds| ==> ds[r] == WithOffset(Row(profiles, bits, r), Place(profiles[0].width, bits, r))
  }

  lemma NothingLaid(profiles: seq<Tensor>, bits: seq<nat>)
    requires Loaded(profiles, bits)
    ensures Laid(profiles, bits, 0, []) && Placed(profiles, bits, [])
  {
    hide Place, Loaded;
    LoadedFacts(profiles, bits);
    FirstPlace(profiles[0].width, bits);
  }

  // One more row keeps all earlier ones in place.
  lemma GatherStep(profiles: seq<Tensor>, bits: seq<nat>, n: nat, done: seq<nat>, ds: seq<nat>)
    requires Loaded(profiles, bits) && n < |bits| && |ds| == n
    requires Laid(profiles, bits, n, done) && Placed(profiles, bits, ds)
    requires |Piece(profiles, bits, n)| == Count(profiles[0].width, bits[n])
    ensures Laid(profiles, bits, n + 1, done + Piece(profiles, bits, n))
    ensures Placed(profiles, bits, ds + [WithOffset(Row(profiles, bits, n), |done| / 4)])
  {
    hide Place, Loaded, Piece, Count, Placed, LaidRow;
    LoadedFacts(profiles, bits);
    var piece := Piece(profiles, bits, n);
    PieceLaid(profiles, bits, n, done);
    OneMorePlaced(profiles, bits, n, |done| / 4, ds);
    forall r | 0 <= r < n
      ensures LaidRow(profiles, bits, r, done + piece)
    {
      StaysLaid(profiles, bits, r, done, piece);
    }
  }

  lemma OneMorePlaced(profiles: seq<Tensor>, bits: seq<nat>, n: nat, place: nat, ds: seq<nat>)
    requires Loaded(profiles, bits) && n < |bits| && |ds| == n && Placed(profiles, bits, ds)
    requires place == Place(profiles[0].width, bits, n)
    ensures Placed(profiles, bits, ds + [WithOffset(Row(profiles, bits, n), place)])
  {
    hide Place, Loaded, Row, WithOffset;
  }

  lemma PieceLaid(profiles: seq<Tensor>, bits: seq<nat>, n: nat, done: seq<nat>)
    requires Loaded(profiles, bits) && n < |bits| && |done| == 4 * Place(profiles[0].width, bits, n)
    requires |Piece(profiles, bits, n)| == Count(profiles[0].width, bits[n])
    ensures LaidRow(profiles, bits, n, done + Piece(profiles, bits, n))
    ensures |done + Piece(profiles, bits, n)| == 4 * Place(profiles[0].width, bits, n + 1)
  {
    hide Place, Loaded, Piece, Count;
    LoadedFacts(profiles, bits);
    var piece := Piece(profiles, bits, n);
    PlaceGrows(profiles[0].width, bits, n);
    SliceOfTail(done, piece, 0, |piece|);
    assert piece[0..|piece|] == piece;
  }

  lemma PlaceGrows(width: nat, bits: seq<nat>, n: nat)
    requires n < |bits| && width % 256 == 0
    ensures 4 * Place(width, bits, n + 1) == 4 * Place(width, bits, n) + Count(width, bits[n])
  {
    hide Place, Count;
    NextPlace(width, bits, n);
    RowBytes(width, bits[n]);
  }

  lemma StaysLaid(profiles: seq<Tensor>, bits: seq<nat>, r: nat, done: seq<nat>, more: seq<nat>)
    requires Loaded(profiles, bits) && r < |bits| && LaidRow(profiles, bits, r, done)
    ensures LaidRow(profiles, bits, r, done + more)
  {
    hide Place, Loaded, Piece;
    LoadedFacts(profiles, bits);
    SliceOfHead(done, more, 4 * Place(profiles[0].width, bits, r), 4 * Place(profiles[0].width, bits, r + 1));
  }

  lemma LoadedFacts(profiles: seq<Tensor>, bits: seq<nat>)
    requires Loaded(profiles, bits)
    ensures |profiles| == 8 && Valid(profiles[0]) && Levels(bits) && |bits| == profiles[0].rows > 0
    ensures profiles[0].columns
    ensures profiles[0].width >= 256 && profiles[0].width % 256 == 0
  {
    hide Valid, Levels;
    ValidGeometry(profiles[0]);
  }

  function Selected(profiles: seq<Tensor>, ds: seq<nat>, payload: seq<nat>): Tensor
    requires |profiles| == 8
  {
    var first := profiles[0];
    Tensor(first.rows, first.width, first.gs, true, ds, first.scales, payload)
  }

  ghost predicate Whole(profiles: seq<Tensor>, bits: seq<nat>, ds: seq<nat>, payload: seq<nat>) {
    && Loaded(profiles, bits) && |ds| == |bits|
    && Laid(profiles, bits, |bits|, payload) && Placed(profiles, bits, ds)
  }

  function Total(profiles: seq<Tensor>, bits: seq<nat>): nat
    requires |profiles| == 8
  {
    Place(profiles[0].width, bits, |bits|)
  }

  // While the total is addressable, every descriptor holds its row's place and keeps its upper bits.
  lemma FieldsKept(profiles: seq<Tensor>, bits: seq<nat>, ds: seq<nat>, r: nat)
    requires Loaded(profiles, bits) && |ds| == |bits| && Placed(profiles, bits, ds) && r < |bits|
    requires Total(profiles, bits) <= LIMIT
    ensures Offset(ds[r]) == Place(profiles[0].width, bits, r) && Upper(ds[r]) == Upper(Row(profiles, bits, r))
  {
    hide Place, Loaded, Row, WithOffset, Offset, Upper;
    LoadedFacts(profiles, bits);
    PlaceMonotone(profiles[0].width, bits, r, |bits|);
    WithOffsetFields(Row(profiles, bits, r), Place(profiles[0].width, bits, r));
  }

  lemma RowWords(profiles: seq<Tensor>, bits: seq<nat>, r: nat, d: nat)
    requires Loaded(profiles, bits) && r < |bits| && Upper(d) == Upper(Row(profiles, bits, r))
    ensures var width := profiles[0].width;
      PreciseRow(profiles, bits, r) <==> WordsIn(width, d) == width / 32 * bits[r]
  {
    hide Loaded, Row, Upper, UpperPrecision;
    LoadedFacts(profiles, bits);
    var width, p := profiles[0].width, UpperPrecision(Upper(d));
    RowBytes(width, p);
    SameTimes(width / 32, p, bits[r]);
  }

  lemma SameTimes(w: nat, a: nat, b: nat)
    requires w > 0
    ensures w * a == w * b <==> a == b
  {
  }

  lemma {:induction false} PreciseWords(profiles: seq<Tensor>, bits: seq<nat>, ds: seq<nat>, n: nat)
    requires Loaded(profiles, bits) && |ds| == |bits| && Placed(profiles, bits, ds) && n <= |bits|
    requires Total(profiles, bits) <= LIMIT && Precise(profiles, bits)
    ensures WordsBefore(profiles[0].width, ds, n) == Place(profiles[0].width, bits, n)
  {
    hide Place, Loaded, Row, PreciseRow, Placed, Upper, WordsIn, Total;
    LoadedFacts(profiles, bits);
    FirstPlace(profiles[0].width, bits);
    if n > 0 {
      PreciseWords(profiles, bits, ds, n - 1);
      FieldsKept(profiles, bits, ds, n - 1);
      RowWords(profiles, bits, n - 1, ds[n - 1]);
      NextPlace(profiles[0].width, bits, n - 1);
    }
  }

  lemma PreciseTiles(profiles: seq<Tensor>, bits: seq<nat>, ds: seq<nat>)
    requires Loaded(profiles, bits) && |ds| == |bits| && Placed(profiles, bits, ds)
    requires Total(profiles, bits) <= LIMIT && Precise(profiles, bits)
    ensures Tiles(profiles[0].width, ds, 4 * Total(profiles, bits))
  {
    hide Place, Loaded, Precise, Placed, WordsBefore, Offset;
    LoadedFacts(profiles, bits);
    forall r | 0 <= r < |ds|
      ensures Offset(ds[r]) == WordsBefore(profiles[0].width, ds, r)
    {
      FieldsKept(profiles, bits, ds, r);
      PreciseWords(profiles, bits, ds, r);
    }
    PreciseWords(profiles, bits, ds, |ds|);
  }

  lemma SelectedIsValid(profiles: seq<Tensor>, bits: seq<nat>, ds: seq<nat>, payload: seq<nat>)
    requires Whole(profiles, bits, ds, payload) && Total(profiles, bits) <= LIMIT && Precise(profiles, bits)
    ensures Valid(Selected(profiles, ds, payload))
  {
    hide Place, Loaded, Precise, Placed, Tiles, LaidRow, Clean;
    LoadedFacts(profiles, bits);
    PreciseTiles(profiles, bits, ds);
    forall r | 0 <= r < |ds|
      ensures Clean(ds[r])
    {
      FieldsKept(profiles, bits, ds, r);
      RowIsClean(profiles, bits, r, ds[r]);
    }
  }

  lemma RowIsClean(profiles: seq<Tensor>, bits: seq<nat>, r: nat, d: nat)
    requires Loaded(profiles, bits) && r < |bits| && Upper(d) == Upper(Row(profiles, bits, r))
    ensures Clean(d)
  {
    hide Loaded, Upper, Valid;
    ValidGeometry(Source(profiles, bits, r));
    assert Clean(Row(profiles, bits, r));
  }

  // The finished tensor passes its checks only if every row had the precision it was copied at.
  lemma ValidIsPrecise(profiles: seq<Tensor>, bits: seq<nat>, ds: seq<nat>, payload: seq<nat>)
    requires Whole(profiles, bits, ds, payload) && Valid(Selected(profiles, ds, payload))
    ensures Total(profiles, bits) <= LIMIT && Precise(profiles, bits)
  {
    hide Place, Loaded, Placed, Tiles, LaidRow, PreciseRow, Valid;
    LoadedFacts(profiles, bits);
    ValidGeometry(Selected(profiles, ds, payload));
    forall r | 0 <= r < |bits|
      ensures PreciseRow(profiles, bits, r)
    {
      TilesArePrecise(profiles, bits, ds, r);
    }
  }

  lemma TilesArePrecise(profiles: seq<Tensor>, bits: seq<nat>, ds: seq<nat>, r: nat)
    requires Loaded(profiles, bits) && |ds| == |bits| && Placed(profiles, bits, ds) && r < |bits|
    requires Total(profiles, bits) <= LIMIT && Tiles(profiles[0].width, ds, 4 * Total(profiles, bits))
    ensures PreciseRow(profiles, bits, r)
  {
    hide Place, Loaded, Placed, PreciseRow, WordsIn, WordsBefore, Offset, Upper, Row;
    LoadedFacts(profiles, bits);
    var width := profiles[0].width;
    FieldsKept(profiles, bits, ds, r);
    RowWords(profiles, bits, r, ds[r]);
    NextWords(width, ds, r);
    NextPlace(width, bits, r);
    if r + 1 < |bits| {
      FieldsKept(profiles, bits, ds, r + 1);
    }
  }

  // Every selected row says exactly what its profile's row says.
  lemma SelectedRow(profiles: seq<Tensor>, bits: seq<nat>, ds: seq<nat>, payload: seq<nat>, r: nat)
    requires Whole(profiles, bits, ds, payload) && r < |bits|
    requires Total(profiles, bits) <= LIMIT && Precise(profiles, bits)
    requires Valid(Selected(profiles, ds, payload))
    ensures var t := Source(profiles, bits, r);
      TensorViews(Selected(profiles, ds, payload))[r] == TensorViews(t)[r]
  {
    hide Upper, Place, Loaded, Placed, Precise, Piece, Tiles, Valid, Selectors, WordsBefore, Total;
    LoadedFacts(profiles, bits);
    var t, s := Source(profiles, bits, r), Selected(profiles, ds, payload);
    assert PreciseRow(profiles, bits, r) by { OneOf(profiles, bits, r); }
    ValidGeometry(t);
    ValidGeometry(s);
    PieceSlice(profiles, bits, r);
    PreciseWords(profiles, bits, ds, r);
    PreciseWords(profiles, bits, ds, r + 1);
    FieldsKept(profiles, bits, ds, r);
    assert LaidRow(profiles, bits, r, payload);
    NoSelectors(t, r);
    NoSelectors(s, r);
  }

  lemma OneOf(profiles: seq<Tensor>, bits: seq<nat>, r: nat)
    requires Loaded(profiles, bits) && Precise(profiles, bits) && r < |bits|
    ensures PreciseRow(profiles, bits, r)
  {
    hide Loaded, PreciseRow;
  }

  lemma NoSelectors(t: Tensor, r: nat)
    requires Geometry(t) && t.columns && r < t.rows
    ensures var p := PartsOf(t); SelectorRows(|p.descriptors|, p.groups, p.selectors, r, r + 1) == []
  {
  }

  // payload[offset:offset + len(piece)] = piece
  method CopyInto(payload: array<nat>, offset: nat, piece: seq<nat>)
    requires offset + |piece| <= payload.Length
    modifies payload
    ensures payload[..] == old(payload[..offset]) + piece + old(payload[offset + |piece|..])
  {
    for k := 0 to |piece|
      invariant forall j :: 0 <= j < k ==> payload[offset + j] == piece[j]
      invariant payload[..offset] == old(payload[..offset])
      invariant payload[offset + k..] == old(payload[offset + k..])
    {
      payload[offset + k] := piece[k];
    }
  }

  datatype Gathering = Gathered(descriptors: seq<nat>, packed: seq<nat>) | Short(row: nat)

  // The running offset gives each row its place and in the end fills the payload; a piece that is too
  // short for its place stops the copying.
  method Gather(profiles: seq<Tensor>, bits: seq<nat>, total: nat) returns (g: Gathering)
    requires Loaded(profiles, bits) && SumInt(bits) == total
    ensures g.Gathered? ==> Whole(profiles, bits, g.descriptors, g.packed)
    ensures g.Short? ==> g.row < |bits| && !PreciseRow(profiles, bits, g.row)
  {
    hide *;
    LoadedFacts(profiles, bits);
    var descriptors: seq<nat> := [];
    FullSize(profiles, bits, total);
    var payload := new nat[Count(profiles[0].width, total)];
    var offset: nat := 0;
    NothingLaid(profiles, bits);
    for row := 0 to |bits|
      invariant offset <= payload.Length && Laid(profiles, bits, row, payload[..offset])
      invariant |descriptors| == row && Placed(profiles, bits, descriptors)
    {
      var tensor := Source(profiles, bits, row);
      var count := Count(tensor.width, bits[row]);
      var piece := Piece(profiles, bits, row);
      if |piece| != count {
        ShortPiece(profiles, bits, row);
        return Short(row);
      }
      PieceFits(profiles, bits, row, payload[..offset]);
      GatherStep(profiles, bits, row, payload[..offset], descriptors);
      RowIs(profiles, bits, row);
      descriptors := descriptors + [WithOffset(tensor.descriptors[row], offset / 4)];
      CopyInto(payload, offset, piece);
      offset := offset + count;
    }
    g := Gathered(descriptors, payload[..]);
    assert payload[..][..offset] == payload[..offset];
    AllLaid(profiles, bits, descriptors, payload[..], offset);
  }

  lemma RowIs(profiles: seq<Tensor>, bits: seq<nat>, r: nat)
    requires Loaded(profiles, bits) && r < |bits|
    ensures Row(profiles, bits, r) == Source(profiles, bits, r).descriptors[r]
  {
  }

  lemma FullSize(profiles: seq<Tensor>, bits: seq<nat>, total: nat)
    requires Loaded(profiles, bits) && SumInt(bits) == total
    ensures Count(profiles[0].width, total) == 4 * Total(profiles, bits)
  {
    hide Loaded, Count, SumInt;
    LoadedFacts(profiles, bits);
    assert bits[..|bits|] == bits;
    RowBytes(profiles[0].width, total);
  }

  lemma ShortPiece(profiles: seq<Tensor>, bits: seq<nat>, r: nat)
    requires Loaded(profiles, bits) && r < |bits|
    requires |Piece(profiles, bits, r)| != Count(Source(profiles, bits, r).width, bits[r])
    ensures !PreciseRow(profiles, bits, r)
  {
    hide Loaded, Piece, Count, PreciseRow;
    if PreciseRow(profiles, bits, r) {
      PieceSlice(profiles, bits, r);
    }
  }

  lemma PieceFits(profiles: seq<Tensor>, bits: seq<nat>, r: nat, done: seq<nat>)
    requires Loaded(profiles, bits) && r < |bits| && Laid(profiles, bits, r, done)
    ensures |done| + Count(profiles[0].width, bits[r]) <= 4 * Total(profiles, bits)
  {
    hide Loaded, Place, Count, LaidRow;
    LoadedFacts(profiles, bits);
    NextPlace(profiles[0].width, bits, r);
    RowBytes(profiles[0].width, bits[r]);
    PlaceMonotone(profiles[0].width, bits, r + 1, |bits|);
  }

  lemma AllLaid(profiles: seq<Tensor>, bits: seq<nat>, ds: seq<nat>, payload: seq<nat>, offset: nat)
    requires Loaded(profiles, bits) && |ds| == |bits| && Placed(profiles, bits, ds)
    requires offset <= |payload| == 4 * Total(profiles, bits) && Laid(profiles, bits, |bits|, payload[..offset])
    ensures Whole(profiles, bits, ds, payload)
  {
    hide Loaded, Place, Placed, LaidRow;
    assert payload[..offset] == payload;
  }

  // The rows of the profiles at the wanted number of bits. The sum of the row bits is always met; what
  // comes out is refused exactly when a profile row does not have its profile's precision or the whole
  // is too large for 32-bit word offsets.
  method SelectRows(profiles: seq<Tensor>, wanted: int, sample: seq<nat>) returns (t: Option<Tensor>, bits: seq<nat>)
    requires |profiles| == 8 && AllValid(profiles) && Levels(sample) && |sample| == profiles[0].rows
    ensures Alike(profiles) ==>
      Loaded(profiles, bits) && SumInt(bits) == Clip(wanted, profiles[0].rows, 8 * profiles[0].rows)
    ensures t.Some? <==>
      Alike(profiles) && Precise(profiles, bits) && Total(profiles, bits) <= LIMIT
    ensures t.Some? ==>
      && Valid(t.value) && t.value.columns && t.value.rows == profiles[0].rows && t.value.width == profiles[0].width
      && t.value.scales == profiles[0].scales && |t.value.packed| == profiles[0].width * SumInt(bits) / 8
    ensures t.Some? ==> forall r :: 0 <= r < |bits| ==> SameRow(t.value, profiles[bits[r] - 1], r)
  {
    hide *;
    bits := [];
    if !Alike(profiles) {
      return None, bits;
    }
    var first := profiles[0];
    var total := Clip(wanted, first.rows, 8 * first.rows);
    bits := RepairRowBits(sample, total);
    NowLoaded(profiles, bits);
    var gathering := Gather(profiles, bits, total);
    match gathering
    case Short(row) =>
      NotPrecise(profiles, bits, row);
      t := None;
    case Gathered(descriptors, packed) =>
      var selected := Tensor(first.rows, first.width, first.gs, true, descriptors, first.scales, packed);
      SelectionVerdict(profiles, bits, total, descriptors, packed);
      t := if Valid(selected) then Some(selected) else None;
  }

  predicate SameRow(t: Tensor, profile: Tensor, r: nat) {
    Valid(t) && Valid(profile) && r < t.rows && r < profile.rows && TensorViews(t)[r] == TensorViews(profile)[r]
  }

  lemma NowLoaded(profiles: seq<Tensor>, bits: seq<nat>)
    requires |profiles| == 8 && AllValid(profiles) && Alike(profiles) && Levels(bits) && |bits| == profiles[0].rows
    ensures Loaded(profiles, bits)
  {
    hide Valid;
  }

  lemma NotPrecise(profiles: seq<Tensor>, bits: seq<nat>, r: nat)
    requires Loaded(profiles, bits) && r < |bits| && !PreciseRow(profiles, bits, r)
    ensures !Precise(profiles, bits)
  {
    hide PreciseRow, Loaded;
  }

  lemma SelectionVerdict(profiles: seq<Tensor>, bits: seq<nat>, total: nat, ds: seq<nat>, payload: seq<nat>)
    requires Whole(profiles, bits, ds, payload) && SumInt(bits) == total
    ensures var s := Selected(profiles, ds, payload);
      && s == Tensor(profiles[0].rows, profiles[0].width, profiles[0].gs, true, ds, profiles[0].scales, payload)
      && (Valid(s) <==> Precise(profiles, bits) && Total(profiles, bits) <= LIMIT)
      && (Valid(s) ==> |payload| == profiles[0].width * total / 8)
      && (Valid(s) ==> forall r :: 0 <= r < |bits| ==> SameRow(s, profiles[bits[r] - 1], r))
  {
    hide Loaded, Placed, Laid, Precise, Valid, TensorViews, SumInt, Total;
    LoadedFacts(profiles, bits);
    var s := Selected(profiles, ds, payload);
    FullSize(profiles, bits, total);
    WholeSize(profiles, bits, ds, payload);
    if Valid(s) {
      ValidIsPrecise(profiles, bits, ds, payload);
      forall r | 0 <= r < |bits|
        ensures SameRow(s, profiles[bits[r] - 1], r)
      {
        SelectedRow(profiles, bits, ds, payload, r);
      }
    } else if Precise(profiles, bits) && Total(profiles, bits) <= LIMIT {
      SelectedIsValid(profiles, bits, ds, payload);
    }
  }

  lemma WholeSize(profiles: seq<Tensor>, bits: seq<nat>, ds: seq<nat>, payload: seq<nat>)
    requires Whole(profiles, bits, ds, payload)
    ensures |payload| == 4 * Total(profiles, bits)
  {
    hide Loaded, Placed, Place, LaidRow;
  }

  // ----- the bank as it is written: profile k has k + 1 bits in every row -----

  predicate Uniform(t: Tensor, bits: nat) {
    forall r :: 0 <= r < |t.descriptors| ==> UpperPrecision(Upper(t.descriptors[r])) == bits
  }

  lemma {:induction false} UniformWords(width: nat, ds: seq<nat>, n: nat, bits: nat)
    requires n <= |ds| && width % 256 == 0
    requires forall r :: 0 <= r < |ds| ==> UpperPrecision(Upper(ds[r])) == bits
    ensures WordsBefore(width, ds, n) == width / 32 * (bits * n)
  {
    hide Upper, UpperPrecision;
    if n > 0 {
      UniformWords(width, ds, n - 1, bits);
      RowBytes(width, bits);
      OneMoreTime(bits, n);
      Distribute(width / 32, bits * (n - 1), bits);
    }
  }

  // Such a bank never fails a selection.
  lemma UniformBankServes(profiles: seq<Tensor>, bits: seq<nat>)
    requires Loaded(profiles, bits) && forall k :: 0 <= k < 8 ==> Uniform(profiles[k], k + 1)
    ensures Precise(profiles, bits) && Total(profiles, bits) <= LIMIT
  {
    hide Valid, Upper, UpperPrecision, SumInt, WordsBefore, Alike;
    forall r | 0 <= r < |bits|
      ensures PreciseRow(profiles, bits, r)
    {
      assert Uniform(Source(profiles, bits, r), bits[r]);
    }
    var t := profiles[7];
    SameShape(profiles, bits);
    ValidGeometry(t);
    UniformWords(t.width, t.descriptors, |bits|, 8);
    PackedInside(t.width, t.descriptors, |t.packed|, |bits|, |bits|);
    assert bits[..|bits|] == bits;
    SumIntBounds(bits, 1, 8);
    MoreTimes(t.width / 32, SumInt(bits), 8 * |bits|);
  }

  lemma SameShape(profiles: seq<Tensor>, bits: seq<nat>)
    requires Loaded(profiles, bits)
    ensures profiles[7].width == profiles[0].width && Valid(profiles[7]) && profiles[7].rows == |bits|
  {
    hide Valid;
  }

  lemma MoreTimes(w: nat, a: int, b: int)
    requires a <= b
    ensures w * a <= w * b
  {
  }
}
