// The adaptive encoder: two states per row and one selector bit per block, searched on block
// histograms instead of on weights.
module TwoState {
  import opened Bitwise
  import opened Numeric
  import opened Options
  import opened Mxfp4

  // ----- levels and histograms -----

  const LEVELS := 15

  // Level 7 is zero; the others mirror around it.
  function LevelValue(level: nat): real
    requires level < LEVELS
  {
    if level < 7 then -Magnitude(7 - level) else Magnitude(level - 7)
  }

  // Both signed zeros share level 7.
  function NibbleLevel(nibble: nat): (level: nat)
    requires nibble < 16
    ensures level < LEVELS && LevelValue(level) == NibbleValue(nibble)
  {
    if nibble < 8 then 7 + nibble else 15 - nibble
  }

  function Count(nibbles: seq<nat>, level: nat): nat
    requires Nibbles(nibbles)
  {
    if |nibbles| == 0 then 0
    else
      var n := |nibbles| - 1;
      Count(nibbles[..n], level) + (if NibbleLevel(nibbles[n]) == level then 1 else 0)
  }

  function Histogram(nibbles: seq<nat>): (h: seq<nat>)
    requires Nibbles(nibbles)
    ensures |h| == LEVELS && forall l :: 0 <= l < LEVELS ==> h[l] == Count(nibbles, l)
  {
    seq(LEVELS, l requires 0 <= l < LEVELS => Count(nibbles, l))
  }

  // A reconstruction state: a scale byte and a palette of four nibbles.
  datatype State = State(raw: nat, palette: nat)

  datatype Source = Source(nibbles: seq<seq<nat>>, scales: seq<nat>, palettes: seq<seq<nat>>)

  predicate SourceOk(s: Source) {
    && |s.nibbles| == |s.scales|
    && (forall b :: 0 <= b < |s.nibbles| ==> Nibbles(s.nibbles[b]))
    && (forall p :: 0 <= p < |s.palettes| ==> |s.palettes[p]| > 0 && Nibbles(s.palettes[p]))
  }

  // Squared error of one weight value at its best palette entry.
  function NearestError(weight: real, levels: seq<real>): real
    requires |levels| > 0
  {
    Least(seq(|levels|, k requires 0 <= k < |levels| => Square(weight - levels[k])))
  }

  function Levels(s: Source, state: State): (l: seq<real>)
    requires SourceOk(s) && state.palette < |s.palettes|
    ensures |l| == |s.palettes[state.palette]|
  {
    Weights(s.palettes[state.palette], state.raw)
  }

  // The table column: the error of every level under a source scale and a state.
  function Distortions(s: Source, scale: nat, state: State): (d: seq<real>)
    requires SourceOk(s) && state.palette < |s.palettes|
    ensures |d| == LEVELS
    ensures forall l :: 0 <= l < LEVELS ==> d[l] == LevelError(s, scale, state, l)
  {
    seq(LEVELS, l requires 0 <= l < LEVELS => LevelError(s, scale, state, l))
  }

  function LevelError(s: Source, scale: nat, state: State, l: nat): real
    requires SourceOk(s) && state.palette < |s.palettes| && l < LEVELS
  {
    NearestError(LevelValue(l) * Exp2(scale - 127), Levels(s, state))
  }

  function Products(counts: seq<nat>, d: seq<real>): (xs: seq<real>)
    requires |counts| == |d|
    ensures |xs| == |d| && forall l :: 0 <= l < |xs| ==> xs[l] == (counts[l] as real) * d[l]
  {
    seq(|d|, l requires 0 <= l < |d| => (counts[l] as real) * d[l])
  }

  // histogram @ distortion
  function Dot(counts: seq<nat>, d: seq<real>): real
    requires |counts| == |d|
  {
    Sum(Products(counts, d))
  }

  // ----- the histogram form is faithful -----

  function PerWeight(nibbles: seq<nat>, d: seq<real>): (xs: seq<real>)
    requires Nibbles(nibbles) && |d| == LEVELS
    ensures |xs| == |nibbles| && forall i :: 0 <= i < |xs| ==> xs[i] == d[NibbleLevel(nibbles[i])]
  {
    seq(|nibbles|, i requires 0 <= i < |nibbles| => d[NibbleLevel(nibbles[i])])
  }

  lemma CountSnoc(nibbles: seq<nat>, nibble: nat, level: nat)
    requires Nibbles(nibbles) && nibble < 16
    ensures Count(nibbles + [nibble], level) == Count(nibbles, level) + (if NibbleLevel(nibble) == level then 1 else 0)
  {
    assert (nibbles + [nibble])[..|nibbles|] == nibbles;
  }

  lemma HistogramStep(nibbles: seq<nat>, nibble: nat, d: seq<real>)
    requires Nibbles(nibbles) && nibble < 16 && |d| == LEVELS && Nibbles(nibbles + [nibble])
    ensures Dot(Histogram(nibbles + [nibble]), d) == Dot(Histogram(nibbles), d) + d[NibbleLevel(nibble)]
  {
    hide Sum, Count;
    var k := NibbleLevel(nibble);
    var before, after := Products(Histogram(nibbles), d), Products(Histogram(nibbles + [nibble]), d);
    forall l | 0 <= l < LEVELS
      ensures after[l] == before[k := before[k] + d[k]][l]
    {
      CountSnoc(nibbles, nibble, l);
      OneMore(Count(nibbles, l), d[l]);
    }
    assert after == before[k := before[k] + d[k]];
    SumUpdate(before, k, before[k] + d[k]);
  }

  lemma OneMore(n: nat, x: real)
    ensures ((n + 1) as real) * x == (n as real) * x + x
  {
  }

  lemma {:induction false} HistogramDot(nibbles: seq<nat>, d: seq<real>)
    requires Nibbles(nibbles) && |d| == LEVELS
    ensures Dot(Histogram(nibbles), d) == Sum(PerWeight(nibbles, d))
  {
    if |nibbles| == 0 {
      SumZeros(Products(Histogram(nibbles), d));
    } else {
      hide Histogram, Dot;
      var n := |nibbles| - 1;
      var front := nibbles[..n];
      HistogramDot(front, d);
      HistogramStep(front, nibbles[n], d);
      assert nibbles == front + [nibbles[n]];
      assert PerWeight(nibbles, d)[..n] == PerWeight(front, d);
    }
  }

  // Squared error of every weight of a block at its nearest level under a state.
  function NearestErrors(s: Source, b: nat, state: State): (xs: seq<real>)
    requires SourceOk(s) && b < |s.nibbles| && state.palette < |s.palettes|
    ensures |xs| == |s.nibbles[b]|
    ensures forall i :: 0 <= i < |xs| ==> xs[i] == NearestError(Weights(s.nibbles[b], s.scales[b])[i], Levels(s, state))
  {
    seq(|s.nibbles[b]|, i requires 0 <= i < |s.nibbles[b]| =>
      NearestError(Weights(s.nibbles[b], s.scales[b])[i], Levels(s, state)))
  }

  function BlockError(s: Source, b: nat, state: State): real
    requires SourceOk(s) && b < |s.nibbles| && state.palette < |s.palettes|
  {
    Dot(Histogram(s.nibbles[b]), Distortions(s, s.scales[b], state))
  }

  lemma BlockErrorIsSse(s: Source, b: nat, state: State)
    requires SourceOk(s) && b < |s.nibbles| && state.palette < |s.palettes|
    ensures BlockError(s, b, state) == Sum(NearestErrors(s, b, state))
  {
    hide NearestError, Exp2, Sum, Levels;
    HistogramDot(s.nibbles[b], Distortions(s, s.scales[b], state));
    assert PerWeight(s.nibbles[b], Distortions(s, s.scales[b], state)) == NearestErrors(s, b, state);
  }

  // ----- what a row costs -----

  // Block errors when selector bits choose between two states.
  function Chosen(s: Source, state0: State, state1: State, selectors: seq<bool>): (xs: seq<real>)
    requires SourceOk(s) && state0.palette < |s.palettes| && state1.palette < |s.palettes| && |selectors| == |s.nibbles|
    ensures |xs| == |s.nibbles|
    ensures forall b :: 0 <= b < |xs| ==> xs[b] == BlockError(s, b, if selectors[b] then state1 else state0)
  {
    seq(|s.nibbles|, b requires 0 <= b < |s.nibbles| => BlockError(s, b, if selectors[b] then state1 else state0))
  }

  function RowCost(s: Source, state0: State, state1: State, selectors: seq<bool>): real
    requires SourceOk(s) && state0.palette < |s.palettes| && state1.palette < |s.palettes| && |selectors| == |s.nibbles|
  {
    Sum(Chosen(s, state0, state1, selectors))
  }

  function StateErrors(s: Source, state: State): (xs: seq<real>)
    requires SourceOk(s) && state.palette < |s.palettes|
    ensures |xs| == |s.nibbles| && forall b :: 0 <= b < |xs| ==> xs[b] == BlockError(s, b, state)
  {
    seq(|s.nibbles|, b requires 0 <= b < |s.nibbles| => BlockError(s, b, state))
  }

  // np.minimum and the elementwise comparison that becomes the selector bits
  function Lower(xs: seq<real>, ys: seq<real>): (zs: seq<real>)
    requires |xs| == |ys|
    ensures |zs| == |xs| && forall b :: 0 <= b < |zs| ==> zs[b] == Min(xs[b], ys[b])
  {
    seq(|xs|, b requires 0 <= b < |xs| => Min(xs[b], ys[b]))
  }

  function Below(ys: seq<real>, xs: seq<real>): (s: seq<bool>)
    requires |xs| == |ys|
    ensures |s| == |xs| && forall b :: 0 <= b < |s| ==> s[b] == (ys[b] < xs[b])
  {
    seq(|xs|, b requires 0 <= b < |xs| => ys[b] < xs[b])
  }

  // The pair's error: every block at the better of the two states.
  function PairError(s: Source, state0: State, state1: State): real
    requires SourceOk(s) && state0.palette < |s.palettes| && state1.palette < |s.palettes|
  {
    Sum(Lower(StateErrors(s, state0), StateErrors(s, state1)))
  }

  // Comparing errors gives the best selectors for a pair of states.
  lemma BestSelectors(s: Source, state0: State, state1: State, selectors: seq<bool>)
    requires SourceOk(s) && state0.palette < |s.palettes| && state1.palette < |s.palettes| && |selectors| == |s.nibbles|
    ensures RowCost(s, state0, state1, Below(StateErrors(s, state1), StateErrors(s, state0)))
      == PairError(s, state0, state1)
    ensures PairError(s, state0, state1) <= RowCost(s, state0, state1, selectors)
  {
    hide BlockError;
    var best := Below(StateErrors(s, state1), StateErrors(s, state0));
    assert Chosen(s, state0, state1, best) == Lower(StateErrors(s, state0), StateErrors(s, state1));
    SumMonotone(Lower(StateErrors(s, state0), StateErrors(s, state1)), Chosen(s, state0, state1, selectors));
  }

  datatype RowSolution = RowSolution(error: real, state0: State, state1: State, selectors: seq<bool>)

  // The reported error is the cost of the reported states and selectors, which no other selectors beat.
  predicate Consistent(s: Source, r: RowSolution)
    requires SourceOk(s)
  {
    && r.state0.palette < |s.palettes| && r.state1.palette < |s.palettes| && |r.selectors| == |s.nibbles|
    && r.error == RowCost(s, r.state0, r.state1, r.selectors) == PairError(s, r.state0, r.state1)
  }

  // ----- the exact search over all pairs of states -----

  predicate StatesOk(s: Source, states: seq<State>) {
    forall k :: 0 <= k < |states| ==> states[k].palette < |s.palettes|
  }

  // np.minimum(errors[:, left], errors[:, left + 1:]).sum(axis=0)
  method PairErrors(s: Source, states: seq<State>, left: nat) returns (xs: seq<real>)
    requires SourceOk(s) && StatesOk(s, states) && left + 1 < |states|
    ensures |xs| == |states| - left - 1
    ensures forall q :: left < q < |states| ==> xs[q - left - 1] == PairError(s, states[left], states[q])
  {
    hide PairError;
    xs := [];
    for k := left + 1 to |states|
      invariant |xs| == k - left - 1
      invariant forall q :: left < q < k ==> xs[q - left - 1] == PairError(s, states[left], states[q])
    {
      xs := xs + [PairError(s, states[left], states[k])];
    }
  }

  method ExactTwoStateRow(s: Source, states: seq<State>) returns (r: RowSolution, ghost left: nat, ghost right: nat)
    requires SourceOk(s) && StatesOk(s, states) && |states| >= 2
    ensures left < right < |states| && r.state0 == states[left] && r.state1 == states[right]
    ensures Consistent(s, r)
    ensures forall i, j, selectors: seq<bool>  ::
      0 <= i < |states| && 0 <= j < |states| && i != j && |selectors| == |s.nibbles| ==>
      r.error <= RowCost(s, states[i], states[j], selectors)
  {
    hide PairError, RowCost;
    var best: Option<real> := None;
    var l, h := 0, 1;
    for i := 0 to |states| - 1
      invariant l < h < |states|
      invariant best.None? <==> i == 0
      invariant best.Some? ==> best.value == PairError(s, states[l], states[h])
      invariant best.Some? ==> forall p, q :: 0 <= p < i && p < q < |states| ==>
        best.value <= PairError(s, states[p], states[q])
    {
      var pairErrors := PairErrors(s, states, i);
      var offset := ArgMin(pairErrors);
      assert pairErrors[offset] == pairErrors[i + 1 + offset - i - 1];
      if best.None? || pairErrors[offset] < best.value {
        best, l, h := Some(pairErrors[offset]), i, i + 1 + offset;
      }
    }
    left, right := l, h;
    var errors0, errors1 := StateErrors(s, states[l]), StateErrors(s, states[h]);
    r := RowSolution(best.value, states[l], states[h], Below(errors1, errors0));
    BestSelectors(s, states[l], states[h], r.selectors);
    forall i, j, selectors: seq<bool> | 0 <= i < |states| && 0 <= j < |states| && i != j && |selectors| == |s.nibbles|
      ensures r.error <= RowCost(s, states[i], states[j], selectors)
    {
      BestSelectors(s, states[i], states[j], selectors);
      PairSymmetric(s, states[i], states[j]);
    }
  }

  lemma PairSymmetric(s: Source, a: State, b: State)
    requires SourceOk(s) && a.palette < |s.palettes| && b.palette < |s.palettes|
    ensures PairError(s, a, b) == PairError(s, b, a)
  {
    hide BlockError;
    assert Lower(StateErrors(s, a), StateErrors(s, b)) == Lower(StateErrors(s, b), StateErrors(s, a));
  }

  // ----- the best state for a set of blocks -----

  // Errors of the selected blocks under a state; the others contribute nothing.
  function SelectedErrors(s: Source, selected: seq<bool>, state: State): (xs: seq<real>)
    requires SourceOk(s) && state.palette < |s.palettes| && |selected| == |s.nibbles|
    ensures |xs| == |s.nibbles|
    ensures forall b :: 0 <= b < |xs| ==> xs[b] == if selected[b] then BlockError(s, b, state) else 0.0
  {
    seq(|s.nibbles|, b requires 0 <= b < |s.nibbles| => if selected[b] then BlockError(s, b, state) else 0.0)
  }

  function AddCounts(xs: seq<nat>, ys: seq<nat>): (zs: seq<nat>)
    requires |xs| == |ys|
    ensures |zs| == |xs| && forall l :: 0 <= l < |zs| ==> zs[l] == xs[l] + ys[l]
  {
    seq(|xs|, l requires 0 <= l < |xs| => xs[l] + ys[l])
  }

  function ZeroCounts(): (zs: seq<nat>)
    ensures |zs| == LEVELS && forall l :: 0 <= l < LEVELS ==> zs[l] == 0
  {
    seq(LEVELS, l => 0)
  }

  // histogram[mask].sum(axis=0) over the first n blocks
  function MaskedCounts(s: Source, mask: seq<bool>, n: nat): (counts: seq<nat>)
    requires SourceOk(s) && n <= |mask| == |s.nibbles|
    ensures |counts| == LEVELS
  {
    if n == 0 then ZeroCounts()
    else
      var front := MaskedCounts(s, mask, n - 1);
      if mask[n - 1] then AddCounts(front, Histogram(s.nibbles[n - 1])) else front
  }

  lemma DotAdds(xs: seq<nat>, ys: seq<nat>, d: seq<real>)
    requires |xs| == |ys| == |d|
    ensures Dot(AddCounts(xs, ys), d) == Dot(xs, d) + Dot(ys, d)
  {
    SumPointwise(Products(xs, d), Products(ys, d), Products(AddCounts(xs, ys), d));
  }

  lemma NoCounts(d: seq<real>)
    requires |d| == LEVELS
    ensures Dot(ZeroCounts(), d) == 0.0
  {
    SumZeros(Products(ZeroCounts(), d));
  }

  lemma NoSum()
    ensures Sum([]) == 0.0
  {
  }

  function Mask(s: Source, selected: seq<bool>, raw: nat): (m: seq<bool>)
    requires |selected| == |s.nibbles| == |s.scales|
    ensures |m| == |selected| && forall b :: 0 <= b < |m| ==> m[b] == (selected[b] && s.scales[b] == raw)
  {
    seq(|selected|, b requires 0 <= b < |selected| => selected[b] && s.scales[b] == raw)
  }

  // One source scale at a time: summed counts against the scale's table is the summed block errors.
  lemma {:induction false} MaskedDot(s: Source, selected: seq<bool>, raw: nat, state: State, n: nat)
    requires SourceOk(s) && state.palette < |s.palettes| && n <= |selected| == |s.nibbles|
    ensures Dot(MaskedCounts(s, Mask(s, selected, raw), n), Distortions(s, raw, state))
         == Sum(SelectedErrors(s, Mask(s, selected, raw), state)[..n])
  {
    hide Dot, Distortions, Histogram, Sum;
    var mask, d := Mask(s, selected, raw), Distortions(s, raw, state);
    if n == 0 {
      NoSum();
      NoCounts(d);
    } else {
      MaskedDot(s, selected, raw, state, n - 1);
      SumPrefix(SelectedErrors(s, mask, state), n - 1);
      if mask[n - 1] {
        DotAdds(MaskedCounts(s, mask, n - 1), Histogram(s.nibbles[n - 1]), d);
      }
    }
  }

  // The distinct source scales of a row.
  function Unique(xs: seq<nat>): (u: seq<nat>)
    ensures forall k :: 0 <= k < |u| ==> u[k] in xs
    ensures forall x :: x in xs ==> x in u
    ensures forall j, k :: 0 <= j < k < |u| ==> u[j] != u[k]
  {
    if |xs| == 0 then []
    else
      var n := |xs| - 1;
      var front := Unique(xs[..n]);
      assert xs == xs[..n] + [xs[n]];
      if xs[n] in front then front else front + [xs[n]]
  }

  function Among(s: Source, selected: seq<bool>, raws: seq<nat>): (m: seq<bool>)
    requires |selected| == |s.nibbles| == |s.scales|
    ensures |m| == |selected| && forall b :: 0 <= b < |m| ==> m[b] == (selected[b] && s.scales[b] in raws)
  {
    seq(|selected|, b requires 0 <= b < |selected| => selected[b] && s.scales[b] in raws)
  }

  // palette_error of one state: counts of every source scale against that scale's table.
  function PartitionError(s: Source, selected: seq<bool>, state: State, raws: seq<nat>): real
    requires SourceOk(s) && state.palette < |s.palettes| && |selected| == |s.nibbles|
  {
    if |raws| == 0 then 0.0
    else
      var n := |raws| - 1;
      PartitionError(s, selected, state, raws[..n])
        + Dot(MaskedCounts(s, Mask(s, selected, raws[n]), |selected|), Distortions(s, raws[n], state))
  }

  lemma {:induction false} PartitionErrorIsSum(s: Source, selected: seq<bool>, state: State, raws: seq<nat>)
    requires SourceOk(s) && state.palette < |s.palettes| && |selected| == |s.nibbles|
    requires forall j, k :: 0 <= j < k < |raws| ==> raws[j] != raws[k]
    ensures PartitionError(s, selected, state, raws) == Sum(SelectedErrors(s, Among(s, selected, raws), state))
  {
    hide BlockError, Dot, MaskedCounts, Distortions;
    if |raws| == 0 {
      SumZeros(SelectedErrors(s, Among(s, selected, raws), state));
    } else {
      var n := |raws| - 1;
      var front, raw := raws[..n], raws[n];
      PartitionErrorIsSum(s, selected, state, front);
      MaskedDot(s, selected, raw, state, |selected|);
      var one := SelectedErrors(s, Mask(s, selected, raw), state);
      assert one[..|selected|] == one;
      assert raws == front + [raw];
      SumPointwise(SelectedErrors(s, Among(s, selected, front), state), one,
        SelectedErrors(s, Among(s, selected, raws), state));
    }
  }

  // Aggregating histograms per source scale changes nothing.
  lemma AggregationIsFaithful(s: Source, selected: seq<bool>, state: State)
    requires SourceOk(s) && state.palette < |s.palettes| && |selected| == |s.nibbles|
    ensures PartitionError(s, selected, state, Unique(s.scales)) == Sum(SelectedErrors(s, selected, state))
  {
    PartitionErrorIsSum(s, selected, state, Unique(s.scales));
    assert Among(s, selected, Unique(s.scales)) == selected;
  }

  // What the selected blocks cost under one state.
  function SelectedCost(s: Source, selected: seq<bool>, state: State): real
    requires SourceOk(s) && state.palette < |s.palettes| && |selected| == |s.nibbles|
  {
    Sum(SelectedErrors(s, selected, state))
  }

  method PaletteErrors(s: Source, selected: seq<bool>, raw: nat, palettes: seq<nat>) returns (xs: seq<real>)
    requires SourceOk(s) && |selected| == |s.nibbles| && PalettesOk(s, palettes)
    ensures |xs| == |palettes|
    ensures forall k :: 0 <= k < |xs| ==> xs[k] == SelectedCost(s, selected, State(raw, palettes[k]))
  {
    hide PartitionError, Sum, SelectedErrors;
    xs := [];
    for k := 0 to |palettes|
      invariant |xs| == k
      invariant forall j :: 0 <= j < k ==> xs[j] == SelectedCost(s, selected, State(raw, palettes[j]))
    {
      var state := State(raw, palettes[k]);
      AggregationIsFaithful(s, selected, state);
      xs := xs + [PartitionError(s, selected, state, Unique(s.scales))];
    }
  }

  function Costs(s: Source, selected: seq<bool>, raw: nat, palettes: seq<nat>): (xs: seq<real>)
    requires SourceOk(s) && |selected| == |s.nibbles| && PalettesOk(s, palettes)
    ensures |xs| == |palettes|
    ensures forall k :: 0 <= k < |xs| ==> xs[k] == SelectedCost(s, selected, State(raw, palettes[k]))
  {
    seq(|palettes|, k requires 0 <= k < |palettes| => SelectedCost(s, selected, State(raw, palettes[k])))
  }

  predicate PalettesOk(s: Source, palettes: seq<nat>) { forall k :: 0 <= k < |palettes| ==> palettes[k] < |s.palettes| }

  // The first of the cheapest states over the first e exponents.
  function BestState(s: Source, selected: seq<bool>, exponents: seq<nat>, palettes: seq<nat>, e: nat): (best: State)
    requires SourceOk(s) && |selected| == |s.nibbles| && PalettesOk(s, palettes)
    requires 0 < e <= |exponents| && |palettes| > 0
    ensures IsCandidate(best, exponents, palettes) && best.palette < |s.palettes|
  {
    var raw := exponents[e - 1];
    var local := State(raw, palettes[ArgMin(Costs(s, selected, raw, palettes))]);
    if e == 1 then local
    else
      var before := BestState(s, selected, exponents, palettes, e - 1);
      if SelectedCost(s, selected, local) < SelectedCost(s, selected, before) then local else before
  }

  predicate IsCandidate(state: State, exponents: seq<nat>, palettes: seq<nat>) {
    state.raw in exponents && state.palette in palettes
  }

  method BestStateForPartition(s: Source, selected: seq<bool>, exponents: seq<nat>, palettes: seq<nat>)
      returns (best: Option<State>)
    requires SourceOk(s) && |selected| == |s.nibbles| && |exponents| > 0 && |palettes| > 0 && PalettesOk(s, palettes)
    ensures best.None? <==> true !in selected
    ensures best.Some? ==> best.value == BestState(s, selected, exponents, palettes, |exponents|)
    ensures best.Some? ==> IsCandidate(best.value, exponents, palettes)
    ensures best.Some? ==> forall state :: IsCandidate(state, exponents, palettes) ==>
      SelectedCost(s, selected, best.value) <= SelectedCost(s, selected, state)
  {
    hide *;
    if true !in selected {
      return None;
    }
    var bestError := 0.0;
    best := None;
    for e := 0 to |exponents|
      invariant best.None? <==> e == 0
      invariant best.Some? ==> best.value == BestState(s, selected, exponents, palettes, e)
      invariant best.Some? ==> bestError == SelectedCost(s, selected, best.value)
    {
      var paletteErrors := PaletteErrors(s, selected, exponents[e], palettes);
      BestStateStep(s, selected, exponents, palettes, e, paletteErrors);
      var local := ArgMin(paletteErrors);
      if best.None? || paletteErrors[local] < bestError {
        bestError, best := paletteErrors[local], Some(State(exponents[e], palettes[local]));
      }
    }
    BestOfAll(s, selected, exponents, palettes);
  }

  lemma BestOfAll(s: Source, selected: seq<bool>, exponents: seq<nat>, palettes: seq<nat>)
    requires SourceOk(s) && |selected| == |s.nibbles| && PalettesOk(s, palettes) && |exponents| > 0 && |palettes| > 0
    ensures var best := BestState(s, selected, exponents, palettes, |exponents|);
      && IsCandidate(best, exponents, palettes)
      && forall state :: IsCandidate(state, exponents, palettes) ==>
        SelectedCost(s, selected, best) <= SelectedCost(s, selected, state)
  {
    hide SelectedCost, BestState;
    var best := BestState(s, selected, exponents, palettes, |exponents|);
    forall state | IsCandidate(state, exponents, palettes)
      ensures SelectedCost(s, selected, best) <= SelectedCost(s, selected, state)
    {
      var i, k := CandidateAt(state, exponents, palettes);
      BestStateLeast(s, selected, exponents, palettes, |exponents|, i, k);
    }
  }

  lemma BestStateStep(s: Source, selected: seq<bool>, exponents: seq<nat>, palettes: seq<nat>, e: nat, xs: seq<real>)
    requires SourceOk(s) && |selected| == |s.nibbles| && PalettesOk(s, palettes) && e < |exponents|
    requires |xs| == |palettes| > 0
    requires forall k :: 0 <= k < |xs| ==> xs[k] == SelectedCost(s, selected, State(exponents[e], palettes[k]))
    ensures var local := State(exponents[e], palettes[ArgMin(xs)]);
      BestState(s, selected, exponents, palettes, e + 1) ==
        if e == 0 then local
        else
          var before := BestState(s, selected, exponents, palettes, e);
          if xs[ArgMin(xs)] < SelectedCost(s, selected, before) then local else before
  {
    hide SelectedCost;
    assert xs == Costs(s, selected, exponents[e], palettes);
  }

  lemma {:induction false} BestStateLeast(s: Source, selected: seq<bool>, exponents: seq<nat>, palettes: seq<nat>,
      e: nat, i: nat, k: nat)
    requires SourceOk(s) && |selected| == |s.nibbles| && PalettesOk(s, palettes)
    requires i < e <= |exponents| && k < |palettes|
    ensures SelectedCost(s, selected, BestState(s, selected, exponents, palettes, e))
         <= SelectedCost(s, selected, State(exponents[i], palettes[k]))
  {
    hide SelectedCost, Costs, ArgMin, SourceOk;
    if i < e - 1 {
      BestStateLeast(s, selected, exponents, palettes, e - 1, i, k);
    } else {
      var costs := Costs(s, selected, exponents[e - 1], palettes);
      assert costs[ArgMin(costs)] <= costs[k];
    }
  }

  lemma CandidateAt(state: State, exponents: seq<nat>, palettes: seq<nat>) returns (i: nat, k: nat)
    requires IsCandidate(state, exponents, palettes)
    ensures i < |exponents| && k < |palettes| && state == State(exponents[i], palettes[k])
  {
    i :| 0 <= i < |exponents| && exponents[i] == state.raw;
    k :| 0 <= k < |palettes| && palettes[k] == state.palette;
  }

  // ----- alternating refinement over the full catalog -----

  function Alternate(n: nat): (p: seq<bool>)
    ensures |p| == n
  {
    seq(n, i => i % 2 == 0)
  }

  function Balanced(partition: seq<bool>): (p: seq<bool>)
    ensures |p| == |partition|
  {
    if true !in partition || false !in partition then Alternate(|partition|) else partition
  }

  lemma BalancedHasBoth(partition: seq<bool>)
    ensures |partition| >= 2 <==> true in Balanced(partition) && false in Balanced(partition)
  {
    if |partition| >= 2 {
      var a := Alternate(|partition|);
      assert a[0] && !a[1];
    }
  }

  function Negated(p: seq<bool>): (q: seq<bool>)
    ensures |q| == |p| && forall b :: 0 <= b < |q| ==> q[b] == !p[b]
  {
    seq(|p|, b requires 0 <= b < |p| => !p[b])
  }

  lemma RowCostSplits(s: Source, state0: State, state1: State, selectors: seq<bool>)
    requires SourceOk(s) && state0.palette < |s.palettes| && state1.palette < |s.palettes| && |selectors| == |s.nibbles|
    ensures RowCost(s, state0, state1, selectors)
      == SelectedCost(s, Negated(selectors), state0) + SelectedCost(s, selectors, state1)
  {
    hide BlockError;
    SumPointwise(SelectedErrors(s, Negated(selectors), state0), SelectedErrors(s, selectors, state1),
      Chosen(s, state0, state1, selectors));
  }

  function AllPalettes(s: Source): (p: seq<nat>)
    ensures |p| == |s.palettes| && forall k :: 0 <= k < |p| ==> p[k] == k
  {
    seq(|s.palettes|, k => k)
  }

  // One alternation: the best states for a partition, then the best selectors for those states.
  function Alternated(s: Source, partition: seq<bool>, exponents: seq<nat>): (r: RowSolution)
    requires SourceOk(s) && |partition| == |s.nibbles| && |exponents| > 0 && |s.palettes| > 0
    ensures |r.selectors| == |partition|
  {
    var state0 := BestState(s, Negated(partition), exponents, AllPalettes(s), |exponents|);
    var state1 := BestState(s, partition, exponents, AllPalettes(s), |exponents|);
    RowSolution(PairError(s, state0, state1), state0, state1, Below(StateErrors(s, state1), StateErrors(s, state0)))
  }

  method RefineStep(s: Source, partition: seq<bool>, exponents: seq<nat>) returns (r: Option<RowSolution>)
    requires SourceOk(s) && |partition| == |s.nibbles| && |exponents| > 0 && |s.palettes| > 0
    ensures r.Some? <==> true in partition && false in partition
    ensures r.Some? ==> r.value == Alternated(s, partition, exponents)
    ensures r.Some? ==> Consistent(s, r.value)
    ensures r.Some? ==> Outdone(s, exponents, partition, r.value.error)
  {
    hide SelectedCost, RowCost, PairError;
    var negated := Negated(partition);
    var state0 := BestStateForPartition(s, negated, exponents, AllPalettes(s));
    var state1 := BestStateForPartition(s, partition, exponents, AllPalettes(s));
    NegatedHasTrue(partition);
    if state0.None? || state1.None? {
      return None;
    }
    var errors0, errors1 := StateErrors(s, state0.value), StateErrors(s, state1.value);
    r := Some(RowSolution(PairError(s, state0.value, state1.value), state0.value, state1.value,
      Below(errors1, errors0)));
    BestSelectors(s, state0.value, state1.value, partition);
    RowCostSplits(s, state0.value, state1.value, partition);
    forall a, b | IsCandidate(a, exponents, AllPalettes(s)) && IsCandidate(b, exponents, AllPalettes(s))
      ensures r.value.error <= RowCost(s, a, b, partition)
    {
      RowCostSplits(s, a, b, partition);
    }
  }

  lemma NegatedHasTrue(p: seq<bool>)
    ensures true in Negated(p) <==> false in p
  {
    if b :| 0 <= b < |p| && !p[b] {
      assert Negated(p)[b];
    }
  }

  // The partition alternation k + 1 starts from.
  function PartitionAt(s: Source, initial: seq<bool>, exponents: seq<nat>, k: nat): (p: seq<bool>)
    requires SourceOk(s) && |initial| == |s.nibbles| && |exponents| > 0 && |s.palettes| > 0
    ensures |p| == |initial|
  {
    if k == 0 then Balanced(initial)
    else Balanced(Alternated(s, PartitionAt(s, initial, exponents, k - 1), exponents).selectors)
  }

  function StepAt(s: Source, initial: seq<bool>, exponents: seq<nat>, k: nat): RowSolution
    requires SourceOk(s) && |initial| == |s.nibbles| && |exponents| > 0 && |s.palettes| > 0
  {
    Alternated(s, PartitionAt(s, initial, exponents, k), exponents)
  }

  // r is the first of the best of the first n alternations.
  ghost predicate BestStep(s: Source, initial: seq<bool>, exponents: seq<nat>, n: nat, r: RowSolution)
    requires SourceOk(s) && |initial| == |s.nibbles| && |exponents| > 0 && |s.palettes| > 0
  {
    exists k: nat :: BestAt(s, initial, exponents, n, r, k)
  }

  ghost predicate BestAt(s: Source, initial: seq<bool>, exponents: seq<nat>, n: nat, r: RowSolution, k: nat)
    requires SourceOk(s) && |initial| == |s.nibbles| && |exponents| > 0 && |s.palettes| > 0
  {
    && k < n && r == StepAt(s, initial, exponents, k)
    && NoneBetter(s, initial, exponents, n, r.error)
    && forall j: nat :: j < k ==> r.error < StepAt(s, initial, exponents, j).error
  }

  ghost predicate NoneBetter(s: Source, initial: seq<bool>, exponents: seq<nat>, n: nat, bound: real)
    requires SourceOk(s) && |initial| == |s.nibbles| && |exponents| > 0 && |s.palettes| > 0
  {
    forall j: nat :: j < n ==> bound <= StepAt(s, initial, exponents, j).error
  }

  // A partition that comes back comes back for ever.
  lemma {:induction false} SettledPartition(s: Source, initial: seq<bool>, exponents: seq<nat>, k: nat, j: nat)
    requires SourceOk(s) && |initial| == |s.nibbles| && |exponents| > 0 && |s.palettes| > 0 && k <= j
    requires PartitionAt(s, initial, exponents, k + 1) == PartitionAt(s, initial, exponents, k)
    ensures PartitionAt(s, initial, exponents, j) == PartitionAt(s, initial, exponents, k)
  {
    hide Alternated, Balanced;
    if k < j { SettledPartition(s, initial, exponents, k, j - 1); }
  }

  lemma SettledBest(s: Source, initial: seq<bool>, exponents: seq<nat>, k: nat, n: nat, r: RowSolution)
    requires SourceOk(s) && |initial| == |s.nibbles| && |exponents| > 0 && |s.palettes| > 0 && k < n
    requires PartitionAt(s, initial, exponents, k + 1) == PartitionAt(s, initial, exponents, k)
    requires BestStep(s, initial, exponents, k + 1, r)
    ensures BestStep(s, initial, exponents, n, r)
  {
    hide Alternated, PartitionAt;
    var i: nat :| BestAt(s, initial, exponents, k + 1, r, i);
    forall j: nat | j < n
      ensures r.error <= StepAt(s, initial, exponents, j).error
    {
      if j > k {
        SettledPartition(s, initial, exponents, k, j);
        assert r.error <= StepAt(s, initial, exponents, k).error;
      }
    }
    assert BestAt(s, initial, exponents, n, r, i);
  }

  lemma NextBest(s: Source, initial: seq<bool>, exponents: seq<nat>, k: nat, best: Option<RowSolution>)
    requires SourceOk(s) && |initial| == |s.nibbles| && |exponents| > 0 && |s.palettes| > 0
    requires if k == 0 then best.None? else best.Some? && BestStep(s, initial, exponents, k, best.value)
    ensures var now := StepAt(s, initial, exponents, k);
      BestStep(s, initial, exponents, k + 1, if best.None? || now.error < best.value.error then now else best.value)
  {
    hide StepAt;
    var now := StepAt(s, initial, exponents, k);
    if best.None? || now.error < best.value.error {
      assert BestAt(s, initial, exponents, k + 1, now, k);
    } else {
      var i: nat :| BestAt(s, initial, exponents, k, best.value, i);
      assert BestAt(s, initial, exponents, k + 1, best.value, i);
    }
  }

  // The first of the best of all the alternations allowed, whether or not they are run: those after a
  // partition has settled would bring nothing new. And never worse than any two states for the
  // starting partition.
  method RefineTwoStateRow(s: Source, initial: seq<bool>, exponents: seq<nat>, maximumSteps: nat)
      returns (best: Option<RowSolution>)
    requires SourceOk(s) && |initial| == |s.nibbles| && |exponents| > 0 && |s.palettes| > 0
    ensures best.Some? <==> |initial| >= 2 && maximumSteps > 0
    ensures best.Some? ==> Consistent(s, best.value) && BestStep(s, initial, exponents, maximumSteps, best.value)
    ensures best.Some? ==> Outdone(s, exponents, Balanced(initial), best.value.error)
  {
    hide RowCost, Consistent, BestStep, Alternated, Outdone, Balanced;
    var selectors := Balanced(initial);
    best := None;
    BalancedHasBoth(initial);
    for step := 1 to maximumSteps + 1
      invariant selectors == PartitionAt(s, initial, exponents, step - 1)
      invariant |initial| >= 2 <==> true in selectors && false in selectors
      invariant best.Some? <==> |initial| >= 2 && step > 1
      invariant step > 1 ==> best.Some? && BestStep(s, initial, exponents, step - 1, best.value)
      invariant best.Some? ==> Consistent(s, best.value) && Outdone(s, exponents, Balanced(initial), best.value.error)
    {
      var candidate := RefineStep(s, selectors, exponents);
      if candidate.None? {
        return None;
      }
      var updated := candidate.value.selectors;
      ConsistentWidth(s, candidate.value);
      NextBest(s, initial, exponents, step - 1, best);
      LowerOutdone(s, exponents, Balanced(initial), best, candidate.value);
      if best.None? || candidate.value.error < best.value.error {
        best := candidate;
      }
      if updated == selectors {
        AlreadyBalanced(updated);
        SettledBest(s, initial, exponents, step - 1, maximumSteps, best.value);
        break;
      }
      selectors := Balanced(updated);
      BalancedHasBoth(updated);
    }
  }

  // No two states over the whole catalog cost less under this partition.
  ghost predicate Outdone(s: Source, exponents: seq<nat>, partition: seq<bool>, bound: real)
    requires SourceOk(s) && |partition| == |s.nibbles|
  {
    forall a, b :: IsCandidate(a, exponents, AllPalettes(s)) && IsCandidate(b, exponents, AllPalettes(s)) ==>
      bound <= RowCost(s, a, b, partition)
  }

  lemma LowerOutdone(s: Source, exponents: seq<nat>, partition: seq<bool>, best: Option<RowSolution>, now: RowSolution)
    requires SourceOk(s) && |partition| == |s.nibbles|
    requires best.Some? ==> Outdone(s, exponents, partition, best.value.error)
    requires best.None? ==> Outdone(s, exponents, partition, now.error)
    ensures Outdone(s, exponents, partition,
      if best.None? || now.error < best.value.error then now.error else best.value.error)
  {
    hide RowCost;
  }

  lemma AlreadyBalanced(p: seq<bool>)
    requires true in p && false in p
    ensures Balanced(p) == p
  {
  }

  lemma ConsistentWidth(s: Source, r: RowSolution)
    requires SourceOk(s) && Consistent(s, r)
    ensures |r.selectors| == |s.nibbles|
  {
  }

  // exponents times palettes, exponent-major
  function Grid(exponents: seq<nat>, palettes: seq<nat>): (states: seq<State>)
    ensures |states| == |exponents| * |palettes|
  {
    if |exponents| == 0 then []
    else Grid(exponents[..|exponents| - 1], palettes) + GridRow(exponents[|exponents| - 1], palettes)
  }

  function GridRow(raw: nat, palettes: seq<nat>): (states: seq<State>)
    ensures |states| == |palettes| && forall k :: 0 <= k < |states| ==> states[k] == State(raw, palettes[k])
  {
    seq(|palettes|, k requires 0 <= k < |palettes| => State(raw, palettes[k]))
  }

  lemma {:induction false} GridPalettes(exponents: seq<nat>, palettes: seq<nat>)
    ensures forall k :: 0 <= k < |Grid(exponents, palettes)| ==> Grid(exponents, palettes)[k].palette in palettes
  {
    if |exponents| > 0 {
      GridPalettes(exponents[..|exponents| - 1], palettes);
    }
  }

  lemma {:induction false} GridIndex(state: State, exponents: seq<nat>, palettes: seq<nat>) returns (k: nat)
    requires IsCandidate(state, exponents, palettes)
    ensures k < |Grid(exponents, palettes)| && Grid(exponents, palettes)[k] == state
  {
    var n := |exponents| - 1;
    var front := exponents[..n];
    if state.raw in front {
      k := GridIndex(state, front, palettes);
    } else {
      assert exponents == front + [exponents[n]];
      var p :| 0 <= p < |palettes| && palettes[p] == state.palette;
      k := |Grid(front, palettes)| + p;
    }
  }

  // No pair of states over these palettes, with any selectors, costs less than `bound`.
  ghost predicate Beats(s: Source, exponents: seq<nat>, palettes: seq<nat>, bound: real)
    requires SourceOk(s) && forall k :: 0 <= k < |palettes| ==> palettes[k] < |s.palettes|
  {
    forall a, b, selectors: seq<bool> ::
      (IsCandidate(a, exponents, palettes) && IsCandidate(b, exponents, palettes)
        && a != b && |selectors| == |s.nibbles|) ==>
        bound <= RowCost(s, a, b, selectors)
  }

  lemma ExactBeats(s: Source, exponents: seq<nat>, palettes: seq<nat>, bound: real)
    requires SourceOk(s) && forall k :: 0 <= k < |palettes| ==> palettes[k] < |s.palettes|
    requires var states := Grid(exponents, palettes);
      && StatesOk(s, states)
      && forall i, j, selectors: seq<bool> ::
        0 <= i < |states| && 0 <= j < |states| && i != j && |selectors| == |s.nibbles| ==>
        bound <= RowCost(s, states[i], states[j], selectors)
    ensures Beats(s, exponents, palettes, bound)
  {
    hide RowCost, Grid;
    forall a, b, selectors: seq<bool> | IsCandidate(a, exponents, palettes) && IsCandidate(b, exponents, palettes)
        && a != b && |selectors| == |s.nibbles|
      ensures bound <= RowCost(s, a, b, selectors)
    {
      var i := GridIndex(a, exponents, palettes);
      var j := GridIndex(b, exponents, palettes);
    }
  }

  method FixedCatalogRow(s: Source, exponents: seq<nat>, palettes: seq<nat>) returns (r: RowSolution)
    requires SourceOk(s) && |exponents| > 0 && |palettes| >= 2
    requires forall k :: 0 <= k < |palettes| ==> palettes[k] < |s.palettes|
    ensures Consistent(s, r) && |r.selectors| == |s.nibbles| && Beats(s, exponents, palettes, r.error)
  {
    hide RowCost, Grid, Beats, Consistent, SourceOk;
    var states := Grid(exponents, palettes);
    GridSize(|exponents|, |palettes|);
    GridPalettes(exponents, palettes);
    ghost var i, j;
    r, i, j := ExactTwoStateRow(s, states);
    ConsistentWidth(s, r);
    ExactBeats(s, exponents, palettes, r.error);
  }

  // Never worse than the alternations from this start, or from the start with its two states swapped.
  ghost predicate StartServed(s: Source, exponents: seq<nat>, steps: nat, start: seq<bool>, bound: real)
    requires SourceOk(s) && |start| == |s.nibbles| && |exponents| > 0 && |s.palettes| > 0
  {
    || NoneBetter(s, Balanced(start), exponents, steps, bound)
    || NoneBetter(s, Negated(Balanced(start)), exponents, steps, bound)
  }

  ghost predicate SeenServed(s: Source, exponents: seq<nat>, steps: nat, seen: set<seq<bool>>, bound: real)
    requires SourceOk(s) && |exponents| > 0 && |s.palettes| > 0
  {
    forall p :: p in seen ==> |p| == |s.nibbles| && NoneBetter(s, p, exponents, steps, bound)
  }

  lemma SeenMore(s: Source, exponents: seq<nat>, steps: nat, seen: set<seq<bool>>, p: seq<bool>,
      bound: real, candidate: Option<RowSolution>)
    requires SourceOk(s) && |exponents| > 0 && |s.palettes| > 0 && |p| == |s.nibbles|
    requires SeenServed(s, exponents, steps, seen, bound)
    requires candidate.Some? <==> steps > 0
    requires candidate.Some? ==> BestStep(s, p, exponents, steps, candidate.value)
    ensures SeenServed(s, exponents, steps, seen + {p},
      if candidate.Some? && candidate.value.error < bound then candidate.value.error else bound)
  {
    hide StepAt;
  }

  // Starts from the exact fixed-catalog answer and keeps the best: never worse than any pair of
  // fixed-catalog states with any selectors.
  method FullCatalogRow(s: Source, exponents: seq<nat>, fixedPalettes: seq<nat>, starts: seq<seq<bool>>,
      maximumSteps: nat)
      returns (r: RowSolution)
    requires SourceOk(s) && |exponents| > 0 && |fixedPalettes| >= 2
    requires forall k :: 0 <= k < |fixedPalettes| ==> fixedPalettes[k] < |s.palettes|
    requires forall k :: 0 <= k < |starts| ==> |starts[k]| == |s.nibbles|
    ensures Consistent(s, r) && Beats(s, exponents, fixedPalettes, r.error)
    ensures |s.nibbles| >= 2 ==> forall k :: 0 <= k < |starts| ==>
      StartServed(s, exponents, maximumSteps, starts[k], r.error)
  {
    hide RowCost, Consistent, IsCandidate, AllPalettes, BestStep, NoneBetter, SeenServed, Balanced;
    var fixed := FixedCatalogRow(s, exponents, fixedPalettes);
    assert fixedPalettes[0] < |s.palettes|;
    r := fixed;
    var seen: set<seq<bool>> := {};
    var all := [fixed.selectors] + starts;
    NothingSeen(s, exponents, maximumSteps, r.error);
    for k := 0 to |all|
      invariant Consistent(s, r) && r.error <= fixed.error
      invariant |s.nibbles| >= 2 ==> SeenServed(s, exponents, maximumSteps, seen, r.error)
      invariant forall j :: 0 <= j < k ==> Balanced(all[j]) in seen || Negated(Balanced(all[j])) in seen
    {
      var balanced := Balanced(all[k]);
      if balanced !in seen && Negated(balanced) !in seen {
        ghost var earlier := seen;
        seen := seen + {balanced};
        var candidate := RefineTwoStateRow(s, balanced, exponents, maximumSteps);
        if |s.nibbles| >= 2 {
          SeenMore(s, exponents, maximumSteps, earlier, balanced, r.error, candidate);
        }
        if candidate.Some? && candidate.value.error < r.error {
          r := candidate.value;
        }
      }
    }
    forall k | 0 <= k < |starts| && |s.nibbles| >= 2
      ensures StartServed(s, exponents, maximumSteps, starts[k], r.error)
    {
      assert all[k + 1] == starts[k];
      AnyServed(s, exponents, maximumSteps, seen, starts[k], r.error);
    }
  }

  lemma NothingSeen(s: Source, exponents: seq<nat>, steps: nat, bound: real)
    requires SourceOk(s) && |exponents| > 0 && |s.palettes| > 0
    ensures SeenServed(s, exponents, steps, {}, bound)
  {
  }

  lemma AnyServed(s: Source, exponents: seq<nat>, steps: nat, seen: set<seq<bool>>, start: seq<bool>, bound: real)
    requires SourceOk(s) && |exponents| > 0 && |s.palettes| > 0 && |start| == |s.nibbles|
    requires SeenServed(s, exponents, steps, seen, bound)
    requires Balanced(start) in seen || Negated(Balanced(start)) in seen
    ensures StartServed(s, exponents, steps, start, bound)
  {
    hide NoneBetter, Balanced;
  }

  lemma GridSize(m: nat, n: nat)
    requires m > 0 && n >= 2
    ensures m * n >= 2
  {
  }

  // ----- materialising -----

  function NearestSymbol(weight: real, levels: seq<real>): (k: nat)
    requires |levels| > 0
    ensures k < |levels| && Square(weight - levels[k]) == NearestError(weight, levels)
  {
    ArgMin(seq(|levels|, k requires 0 <= k < |levels| => Square(weight - levels[k])))
  }

  function Symbols(target: seq<real>, levels: seq<real>): (symbols: seq<nat>)
    requires |levels| > 0
    ensures |symbols| == |target|
    ensures forall i :: 0 <= i < |symbols| ==> symbols[i] == NearestSymbol(target[i], levels)
  {
    seq(|target|, i requires 0 <= i < |target| => NearestSymbol(target[i], levels))
  }

  function ChosenState(r: RowSolution, b: nat): State
    requires b < |r.selectors|
  {
    if r.selectors[b] then r.state1 else r.state0
  }

  // The nibbles a block is stored as.
  function StoredNibbles(s: Source, r: RowSolution, b: nat): (n: seq<nat>)
    requires SourceOk(s) && r.state0.palette < |s.palettes| && r.state1.palette < |s.palettes|
    requires b < |r.selectors| == |s.nibbles|
    ensures |n| == |s.nibbles[b]| && Nibbles(n)
  {
    var state := ChosenState(r, b);
    Lookup(s.palettes[state.palette], Symbols(Weights(s.nibbles[b], s.scales[b]), Levels(s, state)))
  }

  // The stored nibbles under the chosen scale decode to weights at exactly the block's error.
  lemma StoredBlockError(s: Source, r: RowSolution, b: nat)
    requires SourceOk(s) && r.state0.palette < |s.palettes| && r.state1.palette < |s.palettes|
    requires b < |r.selectors| == |s.nibbles|
    ensures Sse(Weights(s.nibbles[b], s.scales[b]), Weights(StoredNibbles(s, r, b), ChosenState(r, b).raw))
         == BlockError(s, b, ChosenState(r, b))
  {
    hide NibbleValue, Exp2, Sum, NearestError, NearestSymbol, Square;
    var state := ChosenState(r, b);
    var source, decoded := Weights(s.nibbles[b], s.scales[b]), Weights(StoredNibbles(s, r, b), state.raw);
    BlockErrorIsSse(s, b, state);
    forall i | 0 <= i < |source|
      ensures Distances(source, decoded)[i] == NearestErrors(s, b, state)[i]
    {
      var k := NearestSymbol(source[i], Levels(s, state));
      assert decoded[i] == Levels(s, state)[k];
    }
    assert Distances(source, decoded) == NearestErrors(s, b, state);
  }

  predicate SameShape(s: Source, nibbles: seq<seq<nat>>, scales: seq<nat>) {
    && SourceOk(s) && |nibbles| == |scales| == |s.nibbles|
    && forall b :: 0 <= b < |nibbles| ==> |nibbles[b]| == |s.nibbles[b]| && Nibbles(nibbles[b])
  }

  // Squared error of every stored block against the source weights.
  function StoredErrors(s: Source, nibbles: seq<seq<nat>>, scales: seq<nat>): (xs: seq<real>)
    requires SameShape(s, nibbles, scales)
    ensures |xs| == |nibbles|
    ensures forall b :: 0 <= b < |xs| ==>
      xs[b] == Sse(Weights(s.nibbles[b], s.scales[b]), Weights(nibbles[b], scales[b]))
  {
    seq(|nibbles|, b requires 0 <= b < |nibbles| =>
      Sse(Weights(s.nibbles[b], s.scales[b]), Weights(nibbles[b], scales[b])))
  }

  // Nibbles and scales of a row: the searched error is the squared error of what is stored.
  method MaterializeRow(s: Source, r: RowSolution) returns (nibbles: seq<seq<nat>>, scales: seq<nat>)
    requires SourceOk(s) && Consistent(s, r)
    ensures SameShape(s, nibbles, scales)
    ensures forall b :: 0 <= b < |scales| ==> scales[b] == if r.selectors[b] then r.state1.raw else r.state0.raw
    ensures r.error == Sum(StoredErrors(s, nibbles, scales))
  {
    hide BlockError, Sse, Weights, StoredNibbles, PairError;
    nibbles, scales := [], [];
    for b := 0 to |s.nibbles|
      invariant |nibbles| == |scales| == b
      invariant forall c :: 0 <= c < b ==> nibbles[c] == StoredNibbles(s, r, c) && scales[c] == ChosenState(r, c).raw
    {
      nibbles := nibbles + [StoredNibbles(s, r, b)];
      scales := scales + [ChosenState(r, b).raw];
    }
    RowStored(s, r, nibbles, scales);
  }

  lemma RowStored(s: Source, r: RowSolution, nibbles: seq<seq<nat>>, scales: seq<nat>)
    requires SourceOk(s) && Consistent(s, r) && |nibbles| == |scales| == |s.nibbles|
    requires forall b :: 0 <= b < |nibbles| ==>
      nibbles[b] == StoredNibbles(s, r, b) && scales[b] == ChosenState(r, b).raw
    ensures SameShape(s, nibbles, scales) && r.error == Sum(StoredErrors(s, nibbles, scales))
  {
    hide BlockError, Sse, Weights, StoredNibbles, PairError, Sum;
    forall b | 0 <= b < |nibbles|
      ensures StoredErrors(s, nibbles, scales)[b] == BlockError(s, b, ChosenState(r, b))
    {
      StoredBlockError(s, r, b);
    }
    assert StoredErrors(s, nibbles, scales) == Chosen(s, r.state0, r.state1, r.selectors);
  }
}
