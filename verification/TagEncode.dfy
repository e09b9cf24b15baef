// The encoder's loops: the candidate error table and the in-place repair of stored symbols, each
// proved against the minimum over all symbol vectors carrying the tag.
module TagEncode {
  import opened Numeric
  import opened TagRepair
  import opened DistinctPair
  import opened TagSearch

  // Squared distance of every weight to every reconstruction level.
  function Costs(target: seq<real>, levels: seq<real>): (costs: Block)
    ensures |costs| == |target|
    ensures forall i :: 0 <= i < |costs| ==> |costs[i]| == |levels|
    ensures forall i, s :: 0 <= i < |target| && 0 <= s < |levels| ==>
      costs[i][s] == Square(target[i] - levels[s])
  {
    seq(|target|, i requires 0 <= i < |target| =>
      seq(|levels|, s requires 0 <= s < |levels| => Square(target[i] - levels[s])))
  }

  predicate BlockShapes(scheme: Scheme, targets: seq<seq<real>>, levels: seq<real>) {
    && |levels| == Alphabet(scheme)
    && forall b :: 0 <= b < |targets| ==> |targets[b]| >= 2
  }

  // ----- the candidate table, indexed (tag, state, block) -----

  predicate TableShapes(scheme: Scheme, targets: seq<seq<real>>, levels: seq<seq<real>>) {
    forall s :: 0 <= s < |levels| ==> BlockShapes(scheme, targets, levels[s])
  }

  function TagErrors(scheme: Scheme, targets: seq<seq<real>>, levels: seq<seq<real>>, tag: Tag): (table: seq<seq<real>>)
    requires TableShapes(scheme, targets, levels) && tag < Tags(scheme)
    ensures |table| == |levels|
    ensures forall s :: 0 <= s < |table| ==> |table[s]| == |targets|
    ensures forall s, b :: 0 <= s < |levels| && 0 <= b < |targets| ==>
      table[s][b] == SearchError(scheme, Costs(targets[b], levels[s]), tag)
  {
    seq(|levels|, s requires 0 <= s < |levels| =>
      seq(|targets|, b requires 0 <= b < |targets| => SearchError(scheme, Costs(targets[b], levels[s]), tag)))
  }

  predicate Shaped(result: seq<seq<seq<real>>>, states: nat, blocks: nat) {
    forall t :: 0 <= t < |result| ==>
      |result[t]| == states && forall s :: 0 <= s < states ==> |result[t][s]| == blocks
  }

  // `raised` is the encoder's "constraints lost the unconstrained state" check.
  method CandidateErrors(scheme: Scheme, targets: seq<seq<real>>, levels: seq<seq<real>>)
      returns (result: seq<seq<seq<real>>>, raised: bool)
    requires TableShapes(scheme, targets, levels)
    ensures IsTable(scheme, targets, levels, result)
    ensures forall t, s, b :: 0 <= t < |result| && 0 <= s < |levels| && 0 <= b < |targets| ==>
      ConstrainedMin(scheme, Costs(targets[b], levels[s]), t, result[t][s][b])
    ensures !raised
  {
    hide SearchError, ConstrainedMin;
    result := [];
    for t := 0 to Tags(scheme)
      invariant |result| == t && Shaped(result, |levels|, |targets|)
      invariant forall u :: 0 <= u < t ==> result[u] == TagErrors(scheme, targets, levels, u)
    {
      result := result + [TagErrors(scheme, targets, levels, t)];
    }
    raised := LostUnconstrained(scheme, targets, levels, result);
    forall t, s, b | 0 <= t < |result| && 0 <= s < |levels| && 0 <= b < |targets|
      ensures ConstrainedMin(scheme, Costs(targets[b], levels[s]), t, result[t][s][b])
    {
      SearchIsExact(scheme, Costs(targets[b], levels[s]), t);
    }
  }

  // For the shared low bit the table of the four full tags is folded: tag t is the lesser of t and
  // t + 2.
  method TaggedErrors(scheme: Scheme, targets: seq<seq<real>>, levels: seq<seq<real>>)
      returns (result: seq<seq<seq<real>>>, raised: bool)
    requires TableShapes(scheme, targets, levels)
    ensures IsTable(scheme, targets, levels, result)
    ensures !raised
  {
    hide IsTable;
    if scheme.LowBit4? {
      var full;
      full, raised := CandidateErrors(Xor4, targets, levels);
      TableRows(Xor4, targets, levels, full);
      result := [Folded(full[0], full[2]), Folded(full[1], full[3])];
      FoldedIsTable(targets, levels, full);
    } else {
      result, raised := CandidateErrors(scheme, targets, levels);
    }
  }

  lemma TableRows(scheme: Scheme, targets: seq<seq<real>>, levels: seq<seq<real>>, result: seq<seq<seq<real>>>)
    requires TableShapes(scheme, targets, levels) && IsTable(scheme, targets, levels, result)
    ensures |result| == Tags(scheme) && forall t :: 0 <= t < |result| ==> RowsAlike(result[t], result[0])
  {
  }

  predicate RowsAlike(xss: seq<seq<real>>, yss: seq<seq<real>>) {
    |xss| == |yss| && forall s :: 0 <= s < |xss| ==> |xss[s]| == |yss[s]|
  }

  // np.minimum
  function Folded(xss: seq<seq<real>>, yss: seq<seq<real>>): (zss: seq<seq<real>>)
    requires RowsAlike(xss, yss)
    ensures RowsAlike(zss, xss)
    ensures forall s, b :: 0 <= s < |zss| && 0 <= b < |zss[s]| ==> zss[s][b] == Min(xss[s][b], yss[s][b])
  {
    seq(|xss|, s requires 0 <= s < |xss| => seq(|xss[s]|, b requires 0 <= b < |xss[s]| => Min(xss[s][b], yss[s][b])))
  }

  lemma FoldedIsTable(targets: seq<seq<real>>, levels: seq<seq<real>>, full: seq<seq<seq<real>>>)
    requires TableShapes(Xor4, targets, levels) && IsTable(Xor4, targets, levels, full)
    ensures |full| == 4 && RowsAlike(full[0], full[2]) && RowsAlike(full[1], full[3])
    ensures IsTable(LowBit4, targets, levels, [Folded(full[0], full[2]), Folded(full[1], full[3])])
  {
    hide PairError, Costs;
    var result := [Folded(full[0], full[2]), Folded(full[1], full[3])];
    forall t | 0 <= t < 2
      ensures result[t] == TagErrors(LowBit4, targets, levels, t)
    {
      FoldedRow(targets, levels, full[t], full[t + 2], t);
    }
  }

  lemma FoldedRow(targets: seq<seq<real>>, levels: seq<seq<real>>, low: seq<seq<real>>, high: seq<seq<real>>, t: Tag)
    requires TableShapes(Xor4, targets, levels) && TableShapes(LowBit4, targets, levels) && t < 2
    requires low == TagErrors(Xor4, targets, levels, t) && high == TagErrors(Xor4, targets, levels, t + 2)
    ensures RowsAlike(low, high) && Folded(low, high) == TagErrors(LowBit4, targets, levels, t)
  {
    hide PairError, Costs;
    var wanted := TagErrors(LowBit4, targets, levels, t);
    forall s | 0 <= s < |levels|
      ensures Folded(low, high)[s] == wanted[s]
    {
      forall b | 0 <= b < |targets|
        ensures Folded(low, high)[s][b] == wanted[s][b]
      {
        assert wanted[s][b] == SearchError(LowBit4, Costs(targets[b], levels[s]), t);
      }
    }
  }

  predicate IsTable(scheme: Scheme, targets: seq<seq<real>>, levels: seq<seq<real>>, result: seq<seq<seq<real>>>)
    requires TableShapes(scheme, targets, levels)
  {
    && |result| == Tags(scheme)
    && Shaped(result, |levels|, |targets|)
    && forall t :: 0 <= t < |result| ==> result[t] == TagErrors(scheme, targets, levels, t)
  }

  method LostUnconstrained(scheme: Scheme, targets: seq<seq<real>>, levels: seq<seq<real>>, result: seq<seq<seq<real>>>)
      returns (lost: bool)
    requires TableShapes(scheme, targets, levels) && IsTable(scheme, targets, levels, result)
    ensures !lost
  {
    hide IsTable, BaseError;
    lost := false;
    for s := 0 to |levels|
      invariant !lost
    {
      for b := 0 to |targets|
        invariant !lost
      {
        var column := ColumnLeast(scheme, targets, levels, result, s, b);
        if column != BaseError(scheme, Costs(targets[b], levels[s])) {
          lost := true;
        }
      }
    }
  }

  function Column(result: seq<seq<seq<real>>>, states: nat, blocks: nat, s: nat, b: nat): (column: seq<real>)
    requires Shaped(result, states, blocks) && s < states && b < blocks
    ensures |column| == |result|
    ensures forall t :: 0 <= t < |result| ==> column[t] == result[t][s][b]
  {
    seq(|result|, t requires 0 <= t < |result| => result[t][s][b])
  }

  // result.min(axis=0), one entry
  method ColumnLeast(scheme: Scheme, targets: seq<seq<real>>, levels: seq<seq<real>>, result: seq<seq<seq<real>>>,
      s: nat, b: nat)
      returns (least: real)
    requires TableShapes(scheme, targets, levels) && s < |levels| && b < |targets|
    requires IsTable(scheme, targets, levels, result)
    ensures least == BaseError(scheme, Costs(targets[b], levels[s]))
  {
    hide SearchError, BaseError;
    var column := Column(result, |levels|, |targets|, s, b);
    least := Least(column);
    ghost var costs := Costs(targets[b], levels[s]);
    ConstraintsKeepUnconstrained(scheme, costs);
    ghost var t: Tag :| t < Tags(scheme) && SearchError(scheme, costs, t) == BaseError(scheme, costs);
    assert column[t] == result[t][s][b] == BaseError(scheme, costs);
    forall u: nat | u < |column|
      ensures column[u] >= BaseError(scheme, costs)
    {
      var v: Tag := u;
      assert column[u] == SearchError(scheme, costs, v);
    }
  }

  // ----- writing one block -----

  method BaseBlock(scheme: Scheme, costs: Block) returns (symbols: array<nat>)
    requires WellFormed(scheme, costs)
    ensures fresh(symbols) && symbols[..] == BaseSymbols(scheme, costs)
  {
    symbols := new nat[|costs|];
    for i := 0 to |costs|
      invariant forall k :: 0 <= k < i ==> symbols[k] == ArgMin(costs[k])
    {
      symbols[i] := ArgMin(costs[i]);
    }
  }

  method RepairAt(scheme: Scheme, costs: Block, symbols: array<nat>, i: nat, change: Tag)
    requires PairScheme(scheme) && Fits(scheme, costs, symbols[..]) && i < symbols.Length
    modifies symbols
    ensures symbols[..] == Repaired(scheme, costs, old(symbols[..]), i, change)
  {
    symbols[i] := GroupSymbol(scheme, costs[i], Xor(LowTwo(symbols[i]), change));
  }

  // Two- and three-bit symbols: one repair, or a pair when the pair is strictly cheaper.
  method RepairPairBlock(scheme: Scheme, costs: Block, tag: Tag) returns (symbols: array<nat>)
    requires PairScheme(scheme) && WellFormed(scheme, costs)
    ensures fresh(symbols)
    ensures symbols[..] == PairRepaired(scheme, costs, Xor(TagOf(scheme, BaseSymbols(scheme, costs)), tag))
  {
    hide Cost, TagOf, Penalties, BaseSymbols, PairIndices, Repaired, ArgMin, Xor;
    symbols := BaseBlock(scheme, costs);
    var change := Xor(TagOf(scheme, symbols[..]), tag);
    if change != 0 {
      var single := Penalties(scheme, costs, change);
      var i := ArgMin(single);
      var left, right := Penalties(scheme, costs, PairLeft(change)), Penalties(scheme, costs, PairRight(change));
      var pair := PairIndices(left, right);
      if left[pair.0] + right[pair.1] < single[i] {
        RepairAt(scheme, costs, symbols, pair.0, PairLeft(change));
        RepairAt(scheme, costs, symbols, pair.1, PairRight(change));
      } else {
        RepairAt(scheme, costs, symbols, i, change);
      }
    }
  }

  // Three-bit symbols under a parity: one repair to the best symbol of the other parity.
  method RepairParityBlock(costs: Block, parity: Tag) returns (symbols: array<nat>)
    requires WellFormed(LowBit8, costs) && parity < 2
    ensures fresh(symbols) && symbols[..] == ParityRepaired(costs, parity)
  {
    hide Cost;
    symbols := BaseBlock(LowBit8, costs);
    ghost var base: seq<nat> := symbols[..];
    if TagOf(LowBit8, symbols[..]) != parity {
      var i := ArgMin(FlipPenalties(costs));
      symbols[i] := OppositeSymbol(costs[i], symbols[i]);
      assert symbols[..] == base[i := OppositeSymbol(costs[i], base[i])];
    }
  }

  method FlipInPlace(symbols: array<nat>, i: nat)
    requires i < symbols.Length && forall k :: 0 <= k < symbols.Length ==> symbols[k] < 2
    modifies symbols
    ensures symbols[..] == FlipAt(old(symbols[..]), i)
  {
    symbols[i] := 1 - symbols[i];
  }

  // One-bit symbols: the cheapest even lane, then the cheapest odd lane, each flipped if asked.
  method RepairLaneBlock(costs: Block, tag: Tag) returns (symbols: array<nat>)
    requires WellFormed(Lanes, costs)
    ensures fresh(symbols)
    ensures symbols[..] == LaneRepaired(costs, Xor(TagOf(Lanes, BaseSymbols(Lanes, costs)), tag))
  {
    hide Cost, TagOf, LanePenalties, BaseSymbols, LaneIndex, ArgMin, Xor, FlipAt;
    symbols := BaseBlock(Lanes, costs);
    var change := Xor(TagOf(Lanes, symbols[..]), tag);
    if FlipsEven(change) {
      FlipInPlace(symbols, LaneIndex(costs, false));
    }
    if FlipsOdd(change) {
      FlipInPlace(symbols, LaneIndex(costs, true));
    }
  }

  method RepairBlock(scheme: Scheme, costs: Block, tag: Tag) returns (symbols: seq<nat>)
    requires WellFormed(scheme, costs) && tag < Tags(scheme) && !scheme.LowBit4?
    ensures Carries(scheme, costs, tag, symbols)
    ensures ConstrainedMin(scheme, costs, tag, Cost(scheme, costs, symbols))
  {
    hide Cost, TagOf, ConstrainedMin;
    var block: array<nat>;
    match scheme {
      case LowBit8 => block := RepairParityBlock(costs, tag);
      case Lanes => block := RepairLaneBlock(costs, tag);
      case _ => block := RepairPairBlock(scheme, costs, tag);
    }
    symbols := block[..];
    assert symbols == RepairedSymbols(scheme, costs, tag);
    RepairMeetsSearch(scheme, costs, tag);
    SearchIsExact(scheme, costs, tag);
  }

  // ----- writing many blocks -----

  // Block b is stored with the tag, its error is its cost, and no symbol vector does better.
  ghost predicate Written(scheme: Scheme, target: seq<real>, levels: seq<real>, tag: Tag, symbols: seq<nat>,
      error: real) {
    var costs := Costs(target, levels);
    && Carries(scheme, costs, tag, symbols)
    && error == Cost(scheme, costs, symbols)
    && ConstrainedMin(scheme, costs, tag, error)
  }

  // `raised` is the encoder's "failed to embed tag" check.
  method QuantizeBlocks(scheme: Scheme, targets: seq<seq<real>>, levels: seq<real>, tag: Tag)
      returns (symbols: seq<seq<nat>>, errors: seq<real>, raised: bool)
    requires BlockShapes(scheme, targets, levels) && tag < Tags(scheme) && !scheme.LowBit4?
    ensures |symbols| == |errors| == |targets|
    ensures forall b :: 0 <= b < |targets| ==> Written(scheme, targets[b], levels, tag, symbols[b], errors[b])
    ensures !raised
  {
    hide Cost, TagOf, ConstrainedMin;
    symbols, errors, raised := [], [], false;
    for b := 0 to |targets|
      invariant |symbols| == |errors| == b && !raised
      invariant forall c :: 0 <= c < b ==> Written(scheme, targets[c], levels, tag, symbols[c], errors[c])
    {
      var costs := Costs(targets[b], levels);
      var block := RepairBlock(scheme, costs, tag);
      if TagOf(scheme, block) != tag {
        raised := true;
      }
      symbols, errors := symbols + [block], errors + [Cost(scheme, costs, block)];
    }
  }

  // Whichever way the scheme's encoder takes.
  method QuantizeTagged(scheme: Scheme, targets: seq<seq<real>>, levels: seq<real>, tag: Tag)
      returns (symbols: seq<seq<nat>>, errors: seq<real>, raised: bool)
    requires BlockShapes(scheme, targets, levels) && tag < Tags(scheme)
    ensures |symbols| == |errors| == |targets|
    ensures forall b :: 0 <= b < |targets| ==> Written(scheme, targets[b], levels, tag, symbols[b], errors[b])
    ensures !raised
  {
    if scheme.LowBit4? {
      symbols, errors, raised := QuantizeSharedLowBit(targets, levels, tag);
    } else {
      symbols, errors, raised := QuantizeBlocks(scheme, targets, levels, tag);
    }
  }

  // Both full tags that share the low bit are written; the high one is kept only when strictly
  // cheaper.
  method QuantizeSharedLowBit(targets: seq<seq<real>>, levels: seq<real>, tag: Tag)
      returns (symbols: seq<seq<nat>>, errors: seq<real>, raised: bool)
    requires BlockShapes(Xor4, targets, levels) && tag < 2
    ensures |symbols| == |errors| == |targets|
    ensures forall b :: 0 <= b < |targets| ==> Written(LowBit4, targets[b], levels, tag, symbols[b], errors[b])
    ensures !raised
  {
    hide Cost, TagOf, ConstrainedMin, Costs;
    var low, lowErrors, failedLow := QuantizeBlocks(Xor4, targets, levels, tag);
    var high, highErrors, failedHigh := QuantizeBlocks(Xor4, targets, levels, tag + 2);
    symbols, errors, raised := [], [], failedLow || failedHigh;
    for b := 0 to |targets|
      invariant |symbols| == |errors| == b
      invariant forall c :: 0 <= c < b ==> Written(LowBit4, targets[c], levels, tag, symbols[c], errors[c])
    {
      var useHigh := highErrors[b] < lowErrors[b];
      BetterOfTwo(Costs(targets[b], levels), tag, low[b], high[b]);
      symbols := symbols + [if useHigh then high[b] else low[b]];
      errors := errors + [if useHigh then highErrors[b] else lowErrors[b]];
    }
  }

  lemma BetterOfTwo(costs: Block, tag: Tag, low: seq<nat>, high: seq<nat>)
    requires tag < 2
    requires Carries(Xor4, costs, tag, low) && ConstrainedMin(Xor4, costs, tag, Cost(Xor4, costs, low))
    requires Carries(Xor4, costs, tag + 2, high) && ConstrainedMin(Xor4, costs, tag + 2, Cost(Xor4, costs, high))
    ensures var w := if Cost(Xor4, costs, high) < Cost(Xor4, costs, low) then high else low;
      && Carries(LowBit4, costs, tag, w)
      && Cost(LowBit4, costs, w) == Cost(Xor4, costs, w)
      && ConstrainedMin(LowBit4, costs, tag, Cost(LowBit4, costs, w))
  {
    hide Cost, TagOf, PairError;
    SearchIsExact(Xor4, costs, tag);
    SearchIsExact(Xor4, costs, tag + 2);
    SearchIsExact(LowBit4, costs, tag);
    ConstrainedMinUnique(Xor4, costs, tag, Cost(Xor4, costs, low), SearchError(Xor4, costs, tag));
    ConstrainedMinUnique(Xor4, costs, tag + 2, Cost(Xor4, costs, high), SearchError(Xor4, costs, tag + 2));
    LowBitOfXor(low);
    LowBitOfXor(high);
    SameCost(costs, low);
    SameCost(costs, high);
  }
}
