// The row encoders: search, materialise, and the relation between the two. Eight states a row with
// two-bit scale offsets: two-bit symbols (SQ2, Xor4), three-bit (eight-state SQ3, Low2) and one-bit
// (SQ1, Lanes). Four states with scale bytes of their own: XOR-SQ (Xor4), hybrid SQ (LowBit4) and
// hybrid SQ3 (LowBit8).
module BlockCodec {
  import opened Bitwise
  import opened Numeric
  import opened Options
  import opened Mxfp4
  import opened TagRepair
  import opened TagSearch
  import opened TagEncode
  import HardEm

  // `tags` states a row, one for every block tag.
  datatype Format = Format(scheme: Scheme, tags: nat, catalog: seq<nat>, palettes: seq<seq<nat>>)

  // A tag is what the symbols carry and at most one explicit bit above it.
  predicate LayoutOk(scheme: Scheme, tags: nat) {
    if tags == 8 then Tags(scheme) == 4 else tags == 4 && (Tags(scheme) == 2 || scheme.Xor4?)
  }

  // State scales are offsets 0 .. 3 from one base, or bytes.
  predicate Relative(f: Format) { f.tags == 8 }

  function OffsetLimit(f: Format): nat { if Relative(f) then 4 else 256 }

  // Every catalog entry names a palette of one nibble per symbol.
  predicate FormatOk(f: Format) {
    && LayoutOk(f.scheme, f.tags) && |f.catalog| > 0
    && (forall p :: 0 <= p < |f.palettes| ==> |f.palettes[p]| == Alphabet(f.scheme) && Nibbles(f.palettes[p]))
    && (forall c :: 0 <= c < |f.catalog| ==> f.catalog[c] < |f.palettes|)
  }

  const BLOCK := 32

  datatype Row = Row(nibbles: seq<seq<nat>>, scales: seq<nat>)

  predicate RowOk(row: Row) {
    && |row.nibbles| == |row.scales|
    && forall b :: 0 <= b < |row.nibbles| ==> |row.nibbles[b]| == BLOCK && Nibbles(row.nibbles[b])
  }

  function Targets(row: Row): (t: seq<seq<real>>)
    requires RowOk(row)
    ensures |t| == |row.nibbles|
    ensures forall b :: 0 <= b < |t| ==> |t[b]| == BLOCK && t[b] == Weights(row.nibbles[b], row.scales[b])
  {
    seq(|row.nibbles|, b requires 0 <= b < |row.nibbles| => Weights(row.nibbles[b], row.scales[b]))
  }

  function Levels(f: Format, palette: nat, raw: nat): (l: seq<real>)
    requires FormatOk(f) && palette < |f.palettes|
    ensures |l| == Alphabet(f.scheme)
  {
    Weights(f.palettes[palette], raw)
  }

  // The scale offsets a row may use: 0 .. 3, or the row's candidate exponents.
  predicate WindowOk(f: Format, window: seq<nat>) {
    |window| > 0 && forall k :: 0 <= k < |window| ==> window[k] < OffsetLimit(f)
  }

  // States are scale-major: the window times the catalog.
  function States(f: Format, window: seq<nat>): nat { |window| * |f.catalog| }

  function StateOffset(f: Format, window: seq<nat>, state: nat): (o: nat)
    requires FormatOk(f) && WindowOk(f, window) && state < States(f, window)
    ensures o < OffsetLimit(f)
  {
    RowOf(state, |window|, |f.catalog|);
    window[state / |f.catalog|]
  }

  function StatePalette(f: Format, window: seq<nat>, state: nat): (p: nat)
    requires FormatOk(f) && state < States(f, window)
    ensures p in f.catalog && p < |f.palettes|
  {
    f.catalog[state % |f.catalog|]
  }

  function StateLevels(f: Format, window: seq<nat>, base: nat): (l: seq<seq<real>>)
    requires FormatOk(f) && WindowOk(f, window)
    ensures |l| == States(f, window)
    ensures forall s :: 0 <= s < |l| ==>
      l[s] == Levels(f, StatePalette(f, window, s), base + StateOffset(f, window, s))
  {
    seq(States(f, window), s requires 0 <= s < States(f, window) =>
      Levels(f, StatePalette(f, window, s), base + StateOffset(f, window, s)))
  }

  datatype Solution = Solution(error: real, offsets: seq<nat>, palettes: seq<nat>, tags: seq<nat>)

  predicate SolutionOk(f: Format, row: Row, sol: Solution) {
    && |sol.offsets| == |sol.palettes| == f.tags && |sol.tags| == |row.nibbles|
    && (forall t :: 0 <= t < f.tags ==> sol.offsets[t] < OffsetLimit(f) && sol.palettes[t] in f.catalog)
    && (forall b :: 0 <= b < |sol.tags| ==> sol.tags[b] < f.tags)
  }

  // The cost table of block b under the state its tag selects.
  function BlockCosts(f: Format, row: Row, base: nat, sol: Solution, b: nat): (costs: Block)
    requires FormatOk(f) && RowOk(row) && SolutionOk(f, row, sol) && b < |row.nibbles|
    ensures WellFormed(f.scheme, costs)
  {
    var t := sol.tags[b];
    Costs(Targets(row)[b], Levels(f, sol.palettes[t], base + sol.offsets[t]))
  }

  // The part of a tag its symbols carry.
  function LowTag(scheme: Scheme, tag: nat): (t: Tag)
    ensures t < Tags(scheme)
  {
    tag % Tags(scheme)
  }

  // Block errors that are, block by block, the least any symbols carrying the block's tag can do.
  ghost predicate BlockOptimal(f: Format, row: Row, base: nat, sol: Solution, errors: seq<real>)
    requires FormatOk(f) && RowOk(row) && SolutionOk(f, row, sol)
  {
    && |errors| == |row.nibbles|
    && forall b :: 0 <= b < |errors| ==>
      ConstrainedMin(f.scheme, BlockCosts(f, row, base, sol, b), LowTag(f.scheme, sol.tags[b]), errors[b])
  }

  lemma BlockOptimalUnique(f: Format, row: Row, base: nat, sol: Solution, xs: seq<real>, ys: seq<real>)
    requires FormatOk(f) && RowOk(row) && SolutionOk(f, row, sol)
    requires BlockOptimal(f, row, base, sol, xs) && BlockOptimal(f, row, base, sol, ys)
    ensures xs == ys
  {
    hide ConstrainedMin;
    forall b | 0 <= b < |xs|
      ensures xs[b] == ys[b]
    {
      ConstrainedMinUnique(f.scheme, BlockCosts(f, row, base, sol, b), LowTag(f.scheme, sol.tags[b]), xs[b], ys[b]);
    }
  }

  // ----- search -----

  function EmProblem(f: Format, row: Row, base: nat, window: seq<nat>): (p: HardEm.Problem)
    requires FormatOk(f) && RowOk(row) && WindowOk(f, window)
    ensures p.Valid() && p.tags == f.tags && p.states == States(f, window)
    ensures p.blocks == |row.nibbles| && |p.errors| == Tags(f.scheme)
    ensures forall t, s, b :: 0 <= t < f.tags && 0 <= s < States(f, window) && 0 <= b < |row.nibbles| ==>
      p.At(t, s, b)
        == SearchError(f.scheme, Costs(Targets(row)[b], StateLevels(f, window, base)[s]), LowTag(f.scheme, t))
  {
    var table := Table(f, row, base, window);
    SomeStates(|window|, |f.catalog|);
    HardEm.Problem(table, States(f, window), |row.nibbles|, f.tags)
  }

  lemma SomeStates(m: nat, n: nat)
    requires m > 0 && n > 0
    ensures m * n > 0
  {
  }

  function Table(f: Format, row: Row, base: nat, window: seq<nat>): (table: seq<seq<seq<real>>>)
    requires FormatOk(f) && RowOk(row) && WindowOk(f, window)
    ensures |table| == Tags(f.scheme)
    ensures forall t :: 0 <= t < Tags(f.scheme) ==>
      table[t] == TagErrors(f.scheme, Targets(row), StateLevels(f, window, base), t)
  {
    seq(Tags(f.scheme), t requires 0 <= t < Tags(f.scheme) =>
      TagErrors(f.scheme, Targets(row), StateLevels(f, window, base), t))
  }

  function ToSolution(f: Format, window: seq<nat>, p: HardEm.Problem, r: HardEm.Refined): (sol: Solution)
    requires FormatOk(f) && WindowOk(f, window)
    requires HardEm.Fits(p, r.em) && p.tags == f.tags && p.states == States(f, window)
    ensures |sol.offsets| == |sol.palettes| == f.tags
    ensures forall t :: 0 <= t < f.tags ==>
      && sol.offsets[t] == StateOffset(f, window, r.em.states[t])
      && sol.palettes[t] == StatePalette(f, window, r.em.states[t])
    ensures sol.tags == r.em.assignments && sol.error == r.error
  {
    Solution(
      r.error,
      seq(f.tags, t requires 0 <= t < f.tags => StateOffset(f, window, r.em.states[t])),
      seq(f.tags, t requires 0 <= t < f.tags => StatePalette(f, window, r.em.states[t])),
      r.em.assignments)
  }

  // What the refinement reports is the sum of block-wise constrained minima of its own answer.
  lemma RefinedIsBlockOptimal(f: Format, row: Row, base: nat, window: seq<nat>, r: HardEm.Refined)
    requires FormatOk(f) && RowOk(row) && WindowOk(f, window)
    requires HardEm.Fits(EmProblem(f, row, base, window), r.em)
    ensures var p := EmProblem(f, row, base, window);
            var sol := ToSolution(f, window, p, r);
      SolutionOk(f, row, sol) && BlockOptimal(f, row, base, sol, HardEm.BlockCosts(p, r.em))
  {
    hide SearchError, ConstrainedMin, Levels, Costs, States;
    var p := EmProblem(f, row, base, window);
    var sol := ToSolution(f, window, p, r);
    forall b | 0 <= b < |row.nibbles|
      ensures ConstrainedMin(f.scheme, BlockCosts(f, row, base, sol, b), LowTag(f.scheme, sol.tags[b]),
        HardEm.BlockCosts(p, r.em)[b])
    {
      var t := sol.tags[b];
      var s := r.em.states[t];
      assert StateLevels(f, window, base)[s] == Levels(f, sol.palettes[t], base + sol.offsets[t]);
      SearchIsExact(f.scheme, BlockCosts(f, row, base, sol, b), LowTag(f.scheme, t));
    }
  }

  // Refinement starts from tags, its states all zero, or from states with their best tags.
  datatype Start = FromTags(tags: seq<nat>) | FromStates(states: seq<nat>)

  predicate StartOk(p: HardEm.Problem, start: Start) {
    match start
    case FromTags(tags) => HardEm.TagsFit(p, tags)
    case FromStates(states) => HardEm.StatesFit(p, states)
  }

  function StartEm(p: HardEm.Problem, start: Start): (em: HardEm.Em)
    requires p.Valid() && StartOk(p, start)
    ensures HardEm.Fits(p, em)
  {
    match start
    case FromTags(tags) => HardEm.FromTags(p, tags)
    case FromStates(states) => HardEm.Em(states, HardEm.BestTags(p, states))
  }

  function LastError(p: HardEm.Problem, start: Start, steps: nat): real
    requires p.Valid() && StartOk(p, start)
  {
    HardEm.ErrorOf(p, HardEm.Run(p, StartEm(p, start), steps).states)
  }

  method Refine(p: HardEm.Problem, start: Start, maximumSteps: nat) returns (r: HardEm.Refined)
    requires p.Valid() && StartOk(p, start) && maximumSteps > 0
    ensures HardEm.Fits(p, r.em) && r.error == HardEm.CostOf(p, r.em) == LastError(p, start, maximumSteps)
  {
    hide HardEm.ErrorOf, HardEm.CostOf, HardEm.Run, HardEm.BestOfSteps, HardEm.FromTags, HardEm.BestTags;
    var fixed;
    match start
    case FromTags(tags) =>
      var some;
      some, fixed := HardEm.RefineFromAssignments(p, tags, maximumSteps);
      r := some.value;
      BestFits(p, StartEm(p, start), 1, maximumSteps, r);
    case FromStates(states) =>
      r, fixed := HardEm.RefineConstrainedStates(p, states, maximumSteps);
      BestFits(p, StartEm(p, start), 0, maximumSteps, r);
  }

  // The row search: the exact candidate table, one refinement per start, the first best result.
  // `raised` collects the encoder's internal checks.
  method SolveRow(f: Format, row: Row, base: nat, window: seq<nat>, starts: seq<Start>, maximumSteps: nat)
      returns (sol: Solution, raised: bool, ghost errors: seq<real>)
    requires FormatOk(f) && RowOk(row) && WindowOk(f, window) && |starts| > 0 && maximumSteps > 0
    requires forall k :: 0 <= k < |starts| ==> StartOk(EmProblem(f, row, base, window), starts[k])
    ensures !raised
    ensures SolutionOk(f, row, sol) && BlockOptimal(f, row, base, sol, errors) && sol.error == Sum(errors)
    ensures forall k :: 0 <= k < |starts| ==>
      sol.error <= LastError(EmProblem(f, row, base, window), starts[k], maximumSteps)
  {
    hide SearchError, ConstrainedMin, Levels, Costs, LastError, HardEm.BlockCosts, BlockOptimal, Sum, StartOk, States,
      IsTable;
    ghost var p := EmProblem(f, row, base, window);
    var table;
    table, raised := TaggedErrors(f.scheme, Targets(row), StateLevels(f, window, base));
    TableIs(f, row, base, window, table);
    var problem := HardEm.Problem(table, States(f, window), |row.nibbles|, f.tags);
    var best: Option<HardEm.Refined> := None;
    for k := 0 to |starts|
      invariant best.Some? <==> k > 0
      invariant best.Some? ==> HardEm.Fits(p, best.value.em) && best.value.error == HardEm.CostOf(p, best.value.em)
      invariant forall j :: 0 <= j < k ==> best.value.error <= LastError(p, starts[j], maximumSteps)
    {
      var r := Refine(problem, starts[k], maximumSteps);
      if best.None? || r.error < best.value.error {
        best := Some(r);
      }
    }
    sol := ToSolution(f, window, problem, best.value);
    RefinedIsBlockOptimal(f, row, base, window, best.value);
    errors := HardEm.BlockCosts(p, best.value.em);
  }

  lemma TableIs(f: Format, row: Row, base: nat, window: seq<nat>, table: seq<seq<seq<real>>>)
    requires FormatOk(f) && RowOk(row) && WindowOk(f, window)
    requires IsTable(f.scheme, Targets(row), StateLevels(f, window, base), table)
    ensures HardEm.Problem(table, States(f, window), |row.nibbles|, f.tags) == EmProblem(f, row, base, window)
  {
    hide TagErrors, States;
    assert table == Table(f, row, base, window);
  }

  lemma BestFits(p: HardEm.Problem, start: HardEm.Em, first: nat, steps: nat, r: HardEm.Refined)
    requires HardEm.Fits(p, start) && HardEm.BestOfSteps(p, start, first, steps, r)
    ensures HardEm.Fits(p, r.em)
  {
  }

  // ----- materialise -----

  datatype Stored = Stored(symbols: seq<seq<nat>>, nibbles: seq<seq<nat>>, scales: seq<nat>)

  // Block b holds symbols carrying its low tag, expanded under the state its tag selects.
  predicate BlockStored(f: Format, row: Row, base: nat, sol: Solution, b: nat, symbols: seq<nat>, nibbles: seq<nat>,
      scale: nat)
    requires FormatOk(f) && RowOk(row) && SolutionOk(f, row, sol) && b < |row.nibbles|
  {
    var t := sol.tags[b];
    && Carries(f.scheme, BlockCosts(f, row, base, sol, b), LowTag(f.scheme, t), symbols)
    && nibbles == Lookup(f.palettes[sol.palettes[t]], symbols)
    && scale == base + sol.offsets[t]
  }

  predicate RowStored(f: Format, row: Row, base: nat, sol: Solution, stored: Stored)
    requires FormatOk(f) && RowOk(row) && SolutionOk(f, row, sol)
  {
    && |stored.symbols| == |stored.nibbles| == |stored.scales| == |row.nibbles|
    && forall b :: 0 <= b < |row.nibbles| ==>
      BlockStored(f, row, base, sol, b, stored.symbols[b], stored.nibbles[b], stored.scales[b])
  }

  // Blocks of the row whose tag is `tag`, in order.
  function Selected(tags: seq<nat>, tag: nat): (blocks: seq<nat>)
    ensures forall k :: 0 <= k < |blocks| ==> blocks[k] < |tags| && tags[blocks[k]] == tag
    ensures forall j, k :: 0 <= j < k < |blocks| ==> blocks[j] < blocks[k]
    ensures forall b :: 0 <= b < |tags| && tags[b] == tag ==> b in blocks
  {
    if |tags| == 0 then []
    else
      var n := |tags| - 1;
      var front := Selected(tags[..n], tag);
      if tags[n] == tag then front + [n] else front
  }

  ghost predicate Done(f: Format, row: Row, base: nat, sol: Solution, b: nat, symbols: seq<nat>, nibbles: seq<nat>,
      scale: nat, error: real)
    requires FormatOk(f) && RowOk(row) && SolutionOk(f, row, sol) && b < |row.nibbles|
  {
    && BlockStored(f, row, base, sol, b, symbols, nibbles, scale)
    && error == Cost(f.scheme, BlockCosts(f, row, base, sol, b), symbols)
    && ConstrainedMin(f.scheme, BlockCosts(f, row, base, sol, b), LowTag(f.scheme, sol.tags[b]), error)
  }

  // The blocks in `written` are done; the others have contributed nothing yet.
  ghost predicate Progress(f: Format, row: Row, base: nat, sol: Solution, s: Stored, errors: seq<real>,
      written: set<nat>)
    requires FormatOk(f) && RowOk(row) && SolutionOk(f, row, sol)
  {
    && |s.symbols| == |s.nibbles| == |s.scales| == |errors| == |row.nibbles|
    && (forall b :: b in written ==>
      b < |errors| && Done(f, row, base, sol, b, s.symbols[b], s.nibbles[b], s.scales[b], errors[b]))
    && (forall b :: 0 <= b < |errors| && b !in written ==> errors[b] == 0.0)
  }

  lemma ProgressOne(f: Format, row: Row, base: nat, sol: Solution, s: Stored, errors: seq<real>, written: set<nat>,
                    b: nat, symbols: seq<nat>, error: real)
    requires FormatOk(f) && RowOk(row) && SolutionOk(f, row, sol) && b < |row.nibbles| && b !in written
    requires Progress(f, row, base, sol, s, errors, written)
    requires var t := sol.tags[b];
      Written(f.scheme, Targets(row)[b], Levels(f, sol.palettes[t], base + sol.offsets[t]), LowTag(f.scheme, t),
        symbols, error)
    ensures var t := sol.tags[b];
            var palette := f.palettes[sol.palettes[t]];
      && (forall i :: 0 <= i < |symbols| ==> symbols[i] < |palette|)
      && Progress(f, row, base, sol,
           Stored(s.symbols[b := symbols], s.nibbles[b := Lookup(palette, symbols)],
             s.scales[b := base + sol.offsets[t]]),
           errors[b := error], written + {b})
      && Sum(errors[b := error]) == Sum(errors) + error
  {
    hide Written, Done, Sum;
    WrittenIsDone(f, row, base, sol, b, symbols, error);
    SumUpdate(errors, b, error);
  }

  // symbols[selected] = local; nibbles[selected] = palette[local]; scales[selected] = raw
  method Scatter(f: Format, row: Row, base: nat, sol: Solution, tag: nat, selected: seq<nat>,
                 local: seq<seq<nat>>, localErrors: seq<real>,
                 symbols: array<seq<nat>>, nibbles: array<seq<nat>>, scales: array<nat>,
                 ghost before: seq<real>, ghost written: set<nat>)
      returns (total: real, ghost errors: seq<real>)
    requires FormatOk(f) && RowOk(row) && SolutionOk(f, row, sol) && tag < f.tags
    requires symbols != nibbles
    requires |local| == |localErrors| == |selected|
    requires forall k :: 0 <= k < |selected| ==>
      && selected[k] < |row.nibbles| && sol.tags[selected[k]] == tag && selected[k] !in written
      && Written(f.scheme, Targets(row)[selected[k]], Levels(f, sol.palettes[tag], base + sol.offsets[tag]),
        LowTag(f.scheme, tag), local[k], localErrors[k])
    requires forall j, k :: 0 <= j < k < |selected| ==> selected[j] != selected[k]
    requires Progress(f, row, base, sol, Stored(symbols[..], nibbles[..], scales[..]), before, written)
    modifies symbols, nibbles, scales
    ensures Progress(f, row, base, sol, Stored(symbols[..], nibbles[..], scales[..]), errors,
      written + (set b | b in selected))
    ensures Sum(errors) == Sum(before) + total
  {
    hide Progress, Written, Levels, Sum;
    errors, total := before, 0.0;
    ProgressShape(f, row, base, sol, Stored(symbols[..], nibbles[..], scales[..]), errors, written);
    ghost var seen := written;
    assert seen == written + (set b | b in selected[..0]);
    for k := 0 to |selected|
      invariant symbols.Length == nibbles.Length == scales.Length == |row.nibbles|
      invariant seen == written + (set b | b in selected[..k])
      invariant Progress(f, row, base, sol, Stored(symbols[..], nibbles[..], scales[..]), errors, seen)
      invariant Sum(errors) == Sum(before) + total
    {
      var b := selected[k];
      ProgressOne(f, row, base, sol, Stored(symbols[..], nibbles[..], scales[..]), errors, seen, b, local[k],
        localErrors[k]);
      ghost var s := Stored(symbols[..], nibbles[..], scales[..]);
      ProgressShape(f, row, base, sol, s, errors, seen);
      var expanded := Lookup(f.palettes[sol.palettes[tag]], local[k]);
      symbols[b] := local[k];
      nibbles[b] := expanded;
      scales[b] := base + sol.offsets[tag];
      assert Stored(symbols[..], nibbles[..], scales[..])
          == Stored(s.symbols[b := local[k]], s.nibbles[b := expanded], s.scales[b := base + sol.offsets[tag]]);
      errors := errors[b := localErrors[k]];
      assert selected[..k + 1] == selected[..k] + [b];
      seen := seen + {b};
      total := total + localErrors[k];
    }
    assert selected[..|selected|] == selected;
  }

  lemma ProgressShape(f: Format, row: Row, base: nat, sol: Solution, s: Stored, errors: seq<real>, written: set<nat>)
    requires FormatOk(f) && RowOk(row) && SolutionOk(f, row, sol) && Progress(f, row, base, sol, s, errors, written)
    ensures |s.symbols| == |s.nibbles| == |s.scales| == |errors| == |row.nibbles|
  {
  }

  // Writes every tag's blocks in turn; `measured` is the sum of the local errors in that order.
  method MaterializeRow(f: Format, row: Row, base: nat, sol: Solution)
      returns (stored: Stored, measured: real, raised: bool, ghost errors: seq<real>)
    requires FormatOk(f) && RowOk(row) && SolutionOk(f, row, sol)
    ensures !raised && RowStored(f, row, base, sol, stored)
    ensures BlockOptimal(f, row, base, sol, errors) && measured == Sum(errors)
    ensures forall b :: 0 <= b < |errors| ==>
      errors[b] == Cost(f.scheme, BlockCosts(f, row, base, sol, b), stored.symbols[b])
  {
    hide Progress, Written, Levels, Costs, Sum, RowStored, BlockOptimal, BlockStored, Cost, Selected, LowTag, TakenAt,
      Targets, Zeros;
    var n := |row.nibbles|;
    var symbols, nibbles, scales := new seq<nat>[n](i => []), new seq<nat>[n](i => []), new nat[n](i => 0);
    errors := Zeros(n);
    SumZeros(errors);
    measured, raised := 0.0, false;
    ghost var written: set<nat> := {};
    NoProgress(f, row, base, sol, Stored(symbols[..], nibbles[..], scales[..]));
    for tag := 0 to f.tags
      invariant !raised && measured == Sum(errors)
      invariant forall b: nat :: b in written <==> b < n && sol.tags[b] < tag
      invariant Progress(f, row, base, sol, Stored(symbols[..], nibbles[..], scales[..]), errors, written)
    {
      var selected := Selected(sol.tags, tag);
      if |selected| > 0 {
        var levels := Levels(f, sol.palettes[tag], base + sol.offsets[tag]);
        var local, localErrors, failed := QuantizeTagged(f.scheme, TakenAt(Targets(row), selected), levels,
          LowTag(f.scheme, tag));
        raised := raised || failed;
        var total;
        total, errors := Scatter(f, row, base, sol, tag, selected, local, localErrors, symbols, nibbles, scales,
          errors, written);
        written := written + (set b | b in selected);
        measured := measured + total;
      }
    }
    stored := Stored(symbols[..], nibbles[..], scales[..]);
    AllWritten(f, row, base, sol, stored, errors, written);
  }

  lemma NoProgress(f: Format, row: Row, base: nat, sol: Solution, s: Stored)
    requires FormatOk(f) && RowOk(row) && SolutionOk(f, row, sol)
    requires |s.symbols| == |s.nibbles| == |s.scales| == |row.nibbles|
    ensures Progress(f, row, base, sol, s, Zeros(|row.nibbles|), {})
  {
  }

  lemma AllWritten(f: Format, row: Row, base: nat, sol: Solution, s: Stored, errors: seq<real>, written: set<nat>)
    requires FormatOk(f) && RowOk(row) && SolutionOk(f, row, sol)
    requires Progress(f, row, base, sol, s, errors, written)
    requires forall b :: 0 <= b < |row.nibbles| ==> b in written
    ensures RowStored(f, row, base, sol, s) && BlockOptimal(f, row, base, sol, errors)
    ensures forall b :: 0 <= b < |errors| ==>
      errors[b] == Cost(f.scheme, BlockCosts(f, row, base, sol, b), s.symbols[b])
  {
    hide Done;
    DoneIsStored(f, row, base, sol, s, errors);
  }

  lemma WrittenIsDone(f: Format, row: Row, base: nat, sol: Solution, b: nat, symbols: seq<nat>, error: real)
    requires FormatOk(f) && RowOk(row) && SolutionOk(f, row, sol) && b < |row.nibbles|
    requires var t := sol.tags[b];
      Written(f.scheme, Targets(row)[b], Levels(f, sol.palettes[t], base + sol.offsets[t]), LowTag(f.scheme, t),
        symbols, error)
    ensures var palette := f.palettes[sol.palettes[sol.tags[b]]];
      && (forall i :: 0 <= i < |symbols| ==> symbols[i] < |palette|)
      && Done(f, row, base, sol, b, symbols, Lookup(palette, symbols), base + sol.offsets[sol.tags[b]], error)
  {
    hide ConstrainedMin, Cost, TagOf;
  }

  lemma DoneIsStored(f: Format, row: Row, base: nat, sol: Solution, stored: Stored, errors: seq<real>)
    requires FormatOk(f) && RowOk(row) && SolutionOk(f, row, sol)
    requires |stored.symbols| == |stored.nibbles| == |stored.scales| == |errors| == |row.nibbles|
    requires forall b :: 0 <= b < |errors| ==>
      Done(f, row, base, sol, b, stored.symbols[b], stored.nibbles[b], stored.scales[b], errors[b])
    ensures RowStored(f, row, base, sol, stored) && BlockOptimal(f, row, base, sol, errors)
    ensures forall b :: 0 <= b < |errors| ==>
      errors[b] == Cost(f.scheme, BlockCosts(f, row, base, sol, b), stored.symbols[b])
  {
    hide ConstrainedMin, Cost, BlockStored;
    forall b | 0 <= b < |errors|
      ensures BlockStored(f, row, base, sol, b, stored.symbols[b], stored.nibbles[b], stored.scales[b])
      ensures ConstrainedMin(f.scheme, BlockCosts(f, row, base, sol, b), LowTag(f.scheme, sol.tags[b]), errors[b])
      ensures Carries(f.scheme, BlockCosts(f, row, base, sol, b), LowTag(f.scheme, sol.tags[b]), stored.symbols[b])
    {
      assert Done(f, row, base, sol, b, stored.symbols[b], stored.nibbles[b], stored.scales[b], errors[b]);
      StoredCarries(f, row, base, sol, b, stored.symbols[b], stored.nibbles[b], stored.scales[b]);
    }
  }

  lemma StoredCarries(f: Format, row: Row, base: nat, sol: Solution, b: nat, symbols: seq<nat>, nibbles: seq<nat>,
      scale: nat)
    requires FormatOk(f) && RowOk(row) && SolutionOk(f, row, sol) && b < |row.nibbles|
    requires BlockStored(f, row, base, sol, b, symbols, nibbles, scale)
    ensures Carries(f.scheme, BlockCosts(f, row, base, sol, b), LowTag(f.scheme, sol.tags[b]), symbols)
  {
    hide BlockCosts;
  }

  // Search and materialisation agree on the error: the encoder's SSE check cannot fail.
  lemma SearchMeetsMaterialize(f: Format, row: Row, base: nat, sol: Solution, searched: seq<real>, written: seq<real>)
    requires FormatOk(f) && RowOk(row) && SolutionOk(f, row, sol)
    requires BlockOptimal(f, row, base, sol, searched) && sol.error == Sum(searched)
    requires BlockOptimal(f, row, base, sol, written)
    ensures sol.error == Sum(written)
  {
    BlockOptimalUnique(f, row, base, sol, searched, written);
  }
}
