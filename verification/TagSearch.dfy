// The search form: the exact constrained error of a block, computed from the unconstrained best
// block and a minimum over one- and two-symbol repairs, for each of the five tagging schemes.
module TagSearch {
  import opened Numeric
  import opened TagRepair
  import opened DistinctPair

  // ----- Xor4 and Low2: repairs of one or two symbols -----

  predicate PairScheme(scheme: Scheme) { scheme.Xor4? || scheme.Low2? }

  // The least cost, and its first symbol, among the symbols whose low two bits are `group`.
  function GroupCost(scheme: Scheme, row: seq<real>, group: Tag): real
    requires PairScheme(scheme) && |row| == Alphabet(scheme)
  {
    if scheme.Xor4? then row[group] else Min(row[group], row[group + 4])
  }

  function GroupSymbol(scheme: Scheme, row: seq<real>, group: Tag): (s: nat)
    requires PairScheme(scheme) && |row| == Alphabet(scheme)
    ensures s < |row| && LowTwo(s) == group
    ensures row[s] == GroupCost(scheme, row, group)
    ensures forall t :: 0 <= t < |row| && LowTwo(t) == group ==> row[s] <= row[t]
  {
    if scheme.Xor4? || row[group] <= row[group + 4] then group else group + 4
  }

  function Desired(base: seq<nat>, i: nat, change: Tag): Tag
    requires i < |base|
  {
    Xor(LowTwo(base[i]), change)
  }

  function Penalties(scheme: Scheme, costs: Block, change: Tag): (p: seq<real>)
    requires PairScheme(scheme) && WellFormed(scheme, costs)
    ensures |p| == |costs|
    ensures forall i :: 0 <= i < |p| ==>
      var base := BaseSymbols(scheme, costs);
      p[i] == GroupCost(scheme, costs[i], Desired(base, i, change)) - costs[i][base[i]]
  {
    var base: seq<nat> := BaseSymbols(scheme, costs);
    seq(|costs|, i requires 0 <= i < |costs| =>
      GroupCost(scheme, costs[i], Desired(base, i, change)) - costs[i][base[i]])
  }

  function PairAdjustment(scheme: Scheme, costs: Block, change: Tag): real
    requires PairScheme(scheme) && WellFormed(scheme, costs)
  {
    if change == 0 then 0.0
    else Min(Least(Penalties(scheme, costs, change)),
             PairCost(Penalties(scheme, costs, PairLeft(change)), Penalties(scheme, costs, PairRight(change))))
  }

  function PairError(scheme: Scheme, costs: Block, tag: Tag): real
    requires PairScheme(scheme) && WellFormed(scheme, costs)
  {
    BaseError(scheme, costs) + PairAdjustment(scheme, costs, Xor(TagOf(scheme, BaseSymbols(scheme, costs)), tag))
  }

  // The base block with position i moved to the best symbol that changes its label by `change`.
  function Repaired(scheme: Scheme, costs: Block, symbols: seq<nat>, i: nat, change: Tag): (w: seq<nat>)
    requires PairScheme(scheme) && Fits(scheme, costs, symbols) && i < |symbols|
    ensures Fits(scheme, costs, w)
  {
    symbols[i := GroupSymbol(scheme, costs[i], Desired(symbols, i, change))]
  }

  lemma RepairedOnce(scheme: Scheme, costs: Block, i: nat, change: Tag)
    requires PairScheme(scheme) && WellFormed(scheme, costs) && i < |costs|
    ensures var base: seq<nat> := BaseSymbols(scheme, costs);
            var w := Repaired(scheme, costs, base, i, change);
      && Carries(scheme, costs, Xor(TagOf(scheme, base), change), w)
      && Cost(scheme, costs, w) == BaseError(scheme, costs) + Penalties(scheme, costs, change)[i]
  {
    var base: seq<nat> := BaseSymbols(scheme, costs);
    var s := GroupSymbol(scheme, costs[i], Desired(base, i, change));
    TagUpdate(scheme, base, i, s);
    CostUpdate(scheme, costs, base, i, s);
    XorLaws(LowTwo(base[i]), change, change);
    XorLaws(LowTwo(base[i]), LowTwo(base[i]), change);
  }

  lemma RepairedTwice(scheme: Scheme, costs: Block, i: nat, j: nat, change: Tag)
    requires PairScheme(scheme) && WellFormed(scheme, costs) && i < |costs| && j < |costs| && i != j && change != 0
    ensures var base: seq<nat> := BaseSymbols(scheme, costs);
            var w := Repaired(scheme, costs, Repaired(scheme, costs, base, i, PairLeft(change)), j, PairRight(change));
      && Carries(scheme, costs, Xor(TagOf(scheme, base), change), w)
      && Cost(scheme, costs, w) == BaseError(scheme, costs)
           + Penalties(scheme, costs, PairLeft(change))[i] + Penalties(scheme, costs, PairRight(change))[j]
  {
    hide Cost, TagOf, BaseSymbols, Penalties;
    var base: seq<nat> := BaseSymbols(scheme, costs);
    RepairedOnce(scheme, costs, i, PairLeft(change));
    var v := Repaired(scheme, costs, base, i, PairLeft(change));
    var s := GroupSymbol(scheme, costs[j], Desired(base, j, PairRight(change)));
    TagUpdate(scheme, v, j, s);
    CostUpdate(scheme, costs, v, j, s);
    XorLaws(LowTwo(base[j]), LowTwo(base[j]), PairRight(change));
    XorLaws(TagOf(scheme, base), PairLeft(change), PairRight(change));
  }

  lemma PairErrorBelowAll(scheme: Scheme, costs: Block, tag: Tag, v: seq<nat>)
    requires PairScheme(scheme) && Carries(scheme, costs, tag, v)
    ensures PairError(scheme, costs, tag) <= Cost(scheme, costs, v)
  {
    hide Cost, TagOf;
    var base: seq<nat> := BaseSymbols(scheme, costs);
    var change := Xor(TagOf(scheme, base), tag);
    XorLaws(TagOf(scheme, base), tag, tag);
    if change == 0 {
      PartialCopyCheaper(scheme, costs, base, v, base);
    } else {
      var i, j := TwoRepairsSuffice(scheme, costs, base, v);
      CostUpdate(scheme, costs, base, i, v[i]);
      CopyAtLeastPenalty(scheme, costs, v, i);
      if i == j {
        assert base[i := v[i]][j := v[j]] == base[i := v[i]];
      } else {
        CostUpdate(scheme, costs, base[i := v[i]], j, v[j]);
        CopyAtLeastPenalty(scheme, costs, v, j);
        PairCostIsLeast(Penalties(scheme, costs, PairLeft(change)), Penalties(scheme, costs, PairRight(change)), i, j);
      }
    }
  }

  lemma CopyAtLeastPenalty(scheme: Scheme, costs: Block, v: seq<nat>, i: nat)
    requires PairScheme(scheme) && Fits(scheme, costs, v) && i < |v|
    ensures var base: seq<nat> := BaseSymbols(scheme, costs);
      costs[i][v[i]] - costs[i][base[i]] >= Penalties(scheme, costs, Change(scheme, base, v, i))[i]
  {
    var base: seq<nat> := BaseSymbols(scheme, costs);
    var c := Change(scheme, base, v, i);
    XorLaws(LowTwo(base[i]), LowTwo(base[i]), LowTwo(v[i]));
    assert Desired(base, i, c) == LowTwo(v[i]);
    assert costs[i][GroupSymbol(scheme, costs[i], LowTwo(v[i]))] <= costs[i][v[i]];
  }

  // The block the encoder stores for a required change: nothing, one repair, or a pair when the
  // pair is strictly cheaper.
  function PairRepaired(scheme: Scheme, costs: Block, change: Tag): (w: seq<nat>)
    requires PairScheme(scheme) && WellFormed(scheme, costs)
  {
    var base: seq<nat> := BaseSymbols(scheme, costs);
    if change == 0 then base
    else
      var single := ArgMin(Penalties(scheme, costs, change));
      var left, right := Penalties(scheme, costs, PairLeft(change)), Penalties(scheme, costs, PairRight(change));
      var pair := PairIndices(left, right);
      if left[pair.0] + right[pair.1] < Penalties(scheme, costs, change)[single]
      then Repaired(scheme, costs, Repaired(scheme, costs, base, pair.0, PairLeft(change)), pair.1, PairRight(change))
      else Repaired(scheme, costs, base, single, change)
  }

  lemma PairRepairedCorrect(scheme: Scheme, costs: Block, change: Tag)
    requires PairScheme(scheme) && WellFormed(scheme, costs)
    ensures var base := BaseSymbols(scheme, costs);
            var w := PairRepaired(scheme, costs, change);
      && Carries(scheme, costs, Xor(TagOf(scheme, base), change), w)
      && Cost(scheme, costs, w) == BaseError(scheme, costs) + PairAdjustment(scheme, costs, change)
  {
    hide Cost, TagOf, Penalties, BaseSymbols, PairIndices, Repaired, Xor, ArgMin, Carries;
    if change != 0 {
      var single := ArgMin(Penalties(scheme, costs, change));
      var left, right := Penalties(scheme, costs, PairLeft(change)), Penalties(scheme, costs, PairRight(change));
      var pair := PairIndices(left, right);
      if left[pair.0] + right[pair.1] < Penalties(scheme, costs, change)[single] {
        RepairedTwice(scheme, costs, pair.0, pair.1, change);
      } else {
        RepairedOnce(scheme, costs, single, change);
      }
    } else {
      BaseCarries(scheme, costs);
    }
  }

  lemma BaseCarries(scheme: Scheme, costs: Block)
    requires PairScheme(scheme) && WellFormed(scheme, costs)
    ensures var base := BaseSymbols(scheme, costs);
      Carries(scheme, costs, Xor(TagOf(scheme, base), 0), base) && Cost(scheme, costs, base) == BaseError(scheme, costs)
  {
    hide Cost, TagOf;
  }

  lemma PairErrorAttained(scheme: Scheme, costs: Block, tag: Tag) returns (w: seq<nat>)
    requires PairScheme(scheme) && WellFormed(scheme, costs)
    ensures w == PairRepaired(scheme, costs, Xor(TagOf(scheme, BaseSymbols(scheme, costs)), tag))
    ensures Carries(scheme, costs, tag, w) && Cost(scheme, costs, w) == PairError(scheme, costs, tag)
  {
    hide Cost, TagOf;
    var t := TagOf(scheme, BaseSymbols(scheme, costs));
    w := PairRepaired(scheme, costs, Xor(t, tag));
    PairRepairedCorrect(scheme, costs, Xor(t, tag));
    XorCancel(t, tag);
  }

  // ----- LowBit8: one repair to the best symbol of the other parity -----

  function OppositeSymbol(row: seq<real>, symbol: nat): (s: nat)
    requires |row| == 8
    ensures s < 8 && LowBit(s) != LowBit(symbol)
    ensures forall t :: 0 <= t < 8 && LowBit(t) != LowBit(symbol) ==> row[s] <= row[t]
  {
    var p := 1 - LowBit(symbol);
    var candidates := [row[p], row[p + 2], row[p + 4], row[p + 6]];
    var k := ArgMin(candidates);
    assert candidates[0] == row[p] && candidates[1] == row[p + 2] && candidates[2] == row[p + 4]
      && candidates[3] == row[p + 6];
    p + 2 * k
  }

  function FlipPenalties(costs: Block): (p: seq<real>)
    requires WellFormed(LowBit8, costs)
    ensures |p| == |costs|
    ensures forall i :: 0 <= i < |p| ==>
      var b := BaseSymbols(LowBit8, costs)[i];
      p[i] == costs[i][OppositeSymbol(costs[i], b)] - costs[i][b]
  {
    var base: seq<nat> := BaseSymbols(LowBit8, costs);
    seq(|costs|, i requires 0 <= i < |costs| => costs[i][OppositeSymbol(costs[i], base[i])] - costs[i][base[i]])
  }

  function ParityError(costs: Block, tag: Tag): real
    requires WellFormed(LowBit8, costs)
  {
    BaseError(LowBit8, costs)
      + (if TagOf(LowBit8, BaseSymbols(LowBit8, costs)) == tag then 0.0 else Least(FlipPenalties(costs)))
  }

  lemma {:induction false} ParityTagIsBit(scheme: Scheme, v: seq<nat>)
    requires scheme.LowBit8? || scheme.LowBit4?
    ensures TagOf(scheme, v) < 2
  {
    if v != [] {
      ParityTagIsBit(scheme, v[..|v| - 1]);
    }
  }

  lemma Flipped(costs: Block, i: nat)
    requires WellFormed(LowBit8, costs) && i < |costs|
    ensures var base: seq<nat> := BaseSymbols(LowBit8, costs);
            var w := base[i := OppositeSymbol(costs[i], base[i])];
      && Carries(LowBit8, costs, Xor(TagOf(LowBit8, base), 1), w)
      && Cost(LowBit8, costs, w) == BaseError(LowBit8, costs) + FlipPenalties(costs)[i]
  {
    var base: seq<nat> := BaseSymbols(LowBit8, costs);
    ParityTagIsBit(LowBit8, base);
    var s := OppositeSymbol(costs[i], base[i]);
    TagUpdate(LowBit8, base, i, s);
    CostUpdate(LowBit8, costs, base, i, s);
  }

  function ParityRepaired(costs: Block, tag: Tag): (w: seq<nat>)
    requires WellFormed(LowBit8, costs)
  {
    var base: seq<nat> := BaseSymbols(LowBit8, costs);
    var i := ArgMin(FlipPenalties(costs));
    if TagOf(LowBit8, base) == tag then base else base[i := OppositeSymbol(costs[i], base[i])]
  }

  lemma ParityRepairedCorrect(costs: Block, tag: Tag)
    requires WellFormed(LowBit8, costs) && tag < 2
    ensures Carries(LowBit8, costs, tag, ParityRepaired(costs, tag))
    ensures Cost(LowBit8, costs, ParityRepaired(costs, tag)) == ParityError(costs, tag)
  {
    hide Cost, TagOf;
    var base: seq<nat> := BaseSymbols(LowBit8, costs);
    var t := TagOf(LowBit8, base);
    ParityTagIsBit(LowBit8, base);
    if t != tag {
      var i := ArgMin(FlipPenalties(costs));
      Flipped(costs, i);
      assert Xor(t, 1) == tag;
      assert ParityRepaired(costs, tag) == base[i := OppositeSymbol(costs[i], base[i])];
    }
  }

  lemma ParityErrorBelowAll(costs: Block, tag: Tag, v: seq<nat>)
    requires Carries(LowBit8, costs, tag, v)
    ensures ParityError(costs, tag) <= Cost(LowBit8, costs, v)
  {
    hide Cost, TagOf;
    var base: seq<nat> := BaseSymbols(LowBit8, costs);
    if TagOf(LowBit8, base) == tag {
      PartialCopyCheaper(LowBit8, costs, base, v, base);
    } else {
      var i, j := TwoRepairsSuffice(LowBit8, costs, base, v);
      ParityChangeIsBit(base, v, i);
      ParityChangeIsBit(base, v, j);
      ParityTagIsBit(LowBit8, base);
      ParityTagIsBit(LowBit8, v);
      assert i == j;
      assert base[i := v[i]][j := v[j]] == base[i := v[i]];
      CostUpdate(LowBit8, costs, base, i, v[i]);
      assert costs[i][OppositeSymbol(costs[i], base[i])] <= costs[i][v[i]];
    }
  }

  lemma ParityChangeIsBit(base: seq<nat>, v: seq<nat>, i: nat)
    requires i < |base| == |v|
    ensures Change(LowBit8, base, v, i) == if LowBit(base[i]) == LowBit(v[i]) then 0 else 1
  {
  }

  // ----- Lanes: independent parities of the even and the odd lanes -----

  // xs[0::2] or xs[1::2]
  function Lane(xs: seq<real>, odd: bool): (ys: seq<real>)
    requires |xs| >= 2
    ensures |ys| == (if odd then |xs| / 2 else (|xs| + 1) / 2) > 0
    ensures forall k :: 0 <= k < |ys| ==> ys[k] == xs[if odd then 2 * k + 1 else 2 * k]
  {
    if odd
    then seq(|xs| / 2, k requires 0 <= k < |xs| / 2 => xs[2 * k + 1])
    else seq((|xs| + 1) / 2, k requires 0 <= k < (|xs| + 1) / 2 => xs[2 * k])
  }

  function LaneArgMin(xs: seq<real>, odd: bool): (i: nat)
    requires |xs| >= 2
    ensures i < |xs| && xs[i] == Least(Lane(xs, odd))
  {
    var k := ArgMin(Lane(xs, odd));
    if odd then 2 * k + 1 else 2 * k
  }

  lemma LaneArgMinInLane(xs: seq<real>, odd: bool)
    requires |xs| >= 2
    ensures OddLane(LaneArgMin(xs, odd)) == odd
  {
  }

  lemma LaneArgMinIsLeast(xs: seq<real>, i: nat)
    requires |xs| >= 2 && i < |xs|
    ensures Least(Lane(xs, OddLane(i))) <= xs[i]
  {
    var k := i / 2;
    assert i == if OddLane(i) then 2 * k + 1 else 2 * k;
    assert Lane(xs, OddLane(i))[k] == xs[i];
  }

  function LanePenalties(costs: Block): (p: seq<real>)
    requires WellFormed(Lanes, costs)
    ensures |p| == |costs|
    ensures forall i :: 0 <= i < |p| ==>
      var b := BaseSymbols(Lanes, costs)[i];
      p[i] == costs[i][1 - b] - costs[i][b]
  {
    var base: seq<nat> := BaseSymbols(Lanes, costs);
    seq(|costs|, i requires 0 <= i < |costs| => costs[i][1 - base[i]] - costs[i][base[i]])
  }

  // The two bits of a required change.
  predicate FlipsEven(change: Tag) { change == 1 || change == 3 }
  predicate FlipsOdd(change: Tag) { change == 2 || change == 3 }

  function LaneError(costs: Block, tag: Tag): real
    requires WellFormed(Lanes, costs)
  {
    var change := Xor(TagOf(Lanes, BaseSymbols(Lanes, costs)), tag);
    BaseError(Lanes, costs)
      + (if FlipsEven(change) then Least(Lane(LanePenalties(costs), false)) else 0.0)
      + (if FlipsOdd(change) then Least(Lane(LanePenalties(costs), true)) else 0.0)
  }

  function LaneIndex(costs: Block, odd: bool): (i: nat)
    requires WellFormed(Lanes, costs)
    ensures i < |costs| && LanePenalties(costs)[i] == Least(Lane(LanePenalties(costs), odd))
  {
    LaneArgMin(LanePenalties(costs), odd)
  }

  function FlipAt(symbols: seq<nat>, i: nat): (w: seq<nat>)
    requires i < |symbols| && forall k :: 0 <= k < |symbols| ==> symbols[k] < 2
    ensures |w| == |symbols| && forall k :: 0 <= k < |w| ==> w[k] < 2
  {
    symbols[i := 1 - symbols[i]]
  }

  function LaneRepaired(costs: Block, change: Tag): (w: seq<nat>)
    requires WellFormed(Lanes, costs)
  {
    var base: seq<nat> := BaseSymbols(Lanes, costs);
    var even := if FlipsEven(change) then FlipAt(base, LaneIndex(costs, false)) else base;
    if FlipsOdd(change) then FlipAt(even, LaneIndex(costs, true)) else even
  }

  function LaneBit(i: nat): Tag { if OddLane(i) then 2 else 1 }

  lemma LaneFlipped(costs: Block, symbols: seq<nat>, i: nat)
    requires Fits(Lanes, costs, symbols) && i < |symbols|
    requires symbols[i] == BaseSymbols(Lanes, costs)[i]
    ensures Carries(Lanes, costs, Xor(TagOf(Lanes, symbols), LaneBit(i)), FlipAt(symbols, i))
    ensures Cost(Lanes, costs, FlipAt(symbols, i)) == Cost(Lanes, costs, symbols) + LanePenalties(costs)[i]
  {
    hide Cost, TagOf;
    TagUpdate(Lanes, symbols, i, 1 - symbols[i]);
    CostUpdate(Lanes, costs, symbols, i, 1 - symbols[i]);
  }

  lemma LaneRepairedCorrect(costs: Block, tag: Tag)
    requires WellFormed(Lanes, costs)
    ensures var w := LaneRepaired(costs, Xor(TagOf(Lanes, BaseSymbols(Lanes, costs)), tag));
      Carries(Lanes, costs, tag, w) && Cost(Lanes, costs, w) == LaneError(costs, tag)
  {
    hide Cost, TagOf, ArgMin, BaseSymbols, LanePenalties;
    var base: seq<nat> := BaseSymbols(Lanes, costs);
    var change := Xor(TagOf(Lanes, base), tag);
    var even: seq<nat> := base;
    LaneArgMinInLane(LanePenalties(costs), false);
    LaneArgMinInLane(LanePenalties(costs), true);
    if FlipsEven(change) {
      LaneFlipped(costs, base, LaneIndex(costs, false));
      even := FlipAt(base, LaneIndex(costs, false));
    }
    if FlipsOdd(change) {
      LaneFlipped(costs, even, LaneIndex(costs, true));
    }
    LaneChangesAddUp(TagOf(Lanes, base), tag);
  }

  lemma LaneChangesAddUp(t: Tag, tag: Tag)
    ensures var change := Xor(t, tag);
      var even := if FlipsEven(change) then Xor(t, 1) else t;
      (if FlipsOdd(change) then Xor(even, 2) else even) == tag
  {
  }

  lemma LaneErrorBelowAll(costs: Block, tag: Tag, v: seq<nat>)
    requires Carries(Lanes, costs, tag, v)
    ensures LaneError(costs, tag) <= Cost(Lanes, costs, v)
  {
    hide Cost, TagOf, ArgMin, BaseSymbols, LanePenalties, Least, Lane, Xor;
    var base: seq<nat> := BaseSymbols(Lanes, costs);
    XorCancel(TagOf(Lanes, base), tag);
    if TagOf(Lanes, base) == tag {
      PartialCopyCheaper(Lanes, costs, base, v, base);
    } else {
      var i, j := TwoRepairsSuffice(Lanes, costs, base, v);
      CostUpdate(Lanes, costs, base, i, v[i]);
      LaneFlipAtLeast(costs, v, i);
      if i == j {
        assert base[i := v[i]][j := v[j]] == base[i := v[i]];
      } else {
        LaneFlipAtLeast(costs, v, j);
        CostUpdate(Lanes, costs, base[i := v[i]], j, v[j]);
      }
    }
  }

  lemma LaneFlipAtLeast(costs: Block, v: seq<nat>, i: nat)
    requires Fits(Lanes, costs, v) && i < |v|
    requires Change(Lanes, BaseSymbols(Lanes, costs), v, i) != 0
    ensures Change(Lanes, BaseSymbols(Lanes, costs), v, i) == LaneBit(i)
    ensures costs[i][v[i]] - costs[i][BaseSymbols(Lanes, costs)[i]] >= Least(Lane(LanePenalties(costs), OddLane(i)))
  {
    var base: seq<nat> := BaseSymbols(Lanes, costs);
    assert base[i] < 2 && v[i] < 2 && v[i] == 1 - base[i];
    LaneArgMinIsLeast(LanePenalties(costs), i);
  }

  // ----- LowBit4: the better of the two full tags that share the low bit -----

  function SharedLowBitError(costs: Block, tag: Tag): real
    requires WellFormed(Xor4, costs) && tag < 2
  {
    Min(PairError(Xor4, costs, tag), PairError(Xor4, costs, tag + 2))
  }

  lemma {:induction false} LowBitOfXor(v: seq<nat>)
    requires forall i :: 0 <= i < |v| ==> v[i] < 4
    ensures TagOf(LowBit4, v) == LowBit(TagOf(Xor4, v))
  {
    if v != [] {
      LowBitOfXor(v[..|v| - 1]);
      LowBitHomomorphism(TagOf(Xor4, v[..|v| - 1]), v[|v| - 1]);
    }
  }

  lemma LowBitHomomorphism(a: Tag, b: Tag)
    ensures LowBit(Xor(a, b)) == Xor(LowBit(a), LowBit(b))
  {
  }

  lemma SameCost(costs: Block, v: seq<nat>)
    requires Fits(Xor4, costs, v) || Fits(LowBit4, costs, v)
    ensures Fits(Xor4, costs, v) && Fits(LowBit4, costs, v) && Cost(LowBit4, costs, v) == Cost(Xor4, costs, v)
  {
    assert Picked(LowBit4, costs, v) == Picked(Xor4, costs, v);
  }

  // The materialising form keeps the low candidate unless the high one is strictly cheaper.
  function SharedLowBitRepaired(costs: Block, tag: Tag): (w: seq<nat>)
    requires WellFormed(Xor4, costs) && tag < 2
  {
    var t := TagOf(Xor4, BaseSymbols(Xor4, costs));
    if PairError(Xor4, costs, tag + 2) < PairError(Xor4, costs, tag)
    then PairRepaired(Xor4, costs, Xor(t, tag + 2))
    else PairRepaired(Xor4, costs, Xor(t, tag))
  }

  lemma SharedLowBitRepairedCorrect(costs: Block, tag: Tag)
    requires WellFormed(Xor4, costs) && tag < 2
    ensures Carries(LowBit4, costs, tag, SharedLowBitRepaired(costs, tag))
    ensures Cost(LowBit4, costs, SharedLowBitRepaired(costs, tag)) == SharedLowBitError(costs, tag)
  {
    hide Cost, TagOf, PairError, PairRepaired, BaseSymbols;
    var t := if PairError(Xor4, costs, tag + 2) < PairError(Xor4, costs, tag) then tag + 2 else tag;
    var w := PairErrorAttained(Xor4, costs, t);
    assert w == SharedLowBitRepaired(costs, tag);
    LowBitOfXor(w);
    assert LowBit(t) == tag;
    SameCost(costs, w);
  }

  lemma SharedLowBitErrorBelowAll(costs: Block, tag: Tag, v: seq<nat>)
    requires Carries(LowBit4, costs, tag, v) && tag < 2
    ensures SharedLowBitError(costs, tag) <= Cost(LowBit4, costs, v)
  {
    hide Cost, TagOf;
    var t := TagOf(Xor4, v);
    LowBitOfXor(v);
    assert t == tag || t == tag + 2;
    SameCost(costs, v);
    PairErrorBelowAll(Xor4, costs, t, v);
  }

  // ----- all schemes -----

  function SearchError(scheme: Scheme, costs: Block, tag: Tag): real
    requires WellFormed(scheme, costs) && tag < Tags(scheme)
  {
    match scheme
    case Xor4 => PairError(Xor4, costs, tag)
    case Low2 => PairError(Low2, costs, tag)
    case LowBit8 => ParityError(costs, tag)
    case LowBit4 => SharedLowBitError(costs, tag)
    case Lanes => LaneError(costs, tag)
  }

  // The symbols the encoder writes.
  function RepairedSymbols(scheme: Scheme, costs: Block, tag: Tag): seq<nat>
    requires WellFormed(scheme, costs) && tag < Tags(scheme)
  {
    match scheme
    case LowBit8 => ParityRepaired(costs, tag)
    case LowBit4 => SharedLowBitRepaired(costs, tag)
    case Lanes => LaneRepaired(costs, Xor(TagOf(Lanes, BaseSymbols(Lanes, costs)), tag))
    case _ => PairRepaired(scheme, costs, Xor(TagOf(scheme, BaseSymbols(scheme, costs)), tag))
  }

  // What is written carries the tag and costs exactly what the search predicted.
  lemma RepairMeetsSearch(scheme: Scheme, costs: Block, tag: Tag)
    requires WellFormed(scheme, costs) && tag < Tags(scheme)
    ensures Carries(scheme, costs, tag, RepairedSymbols(scheme, costs, tag))
    ensures Cost(scheme, costs, RepairedSymbols(scheme, costs, tag)) == SearchError(scheme, costs, tag)
  {
    match scheme
    case LowBit8 => ParityRepairedCorrect(costs, tag);
    case LowBit4 => SharedLowBitRepairedCorrect(costs, tag);
    case Lanes => LaneRepairedCorrect(costs, tag);
    case _ => var w := PairErrorAttained(scheme, costs, tag);
  }

  lemma SearchBelowAll(scheme: Scheme, costs: Block, tag: Tag, v: seq<nat>)
    requires Carries(scheme, costs, tag, v) && tag < Tags(scheme)
    ensures SearchError(scheme, costs, tag) <= Cost(scheme, costs, v)
  {
    match scheme
    case LowBit8 => ParityErrorBelowAll(costs, tag, v);
    case LowBit4 => SharedLowBitErrorBelowAll(costs, tag, v);
    case Lanes => LaneErrorBelowAll(costs, tag, v);
    case _ => PairErrorBelowAll(scheme, costs, tag, v);
  }

  // The repair search is exact: it equals the minimum over every symbol vector carrying the tag.
  lemma SearchIsExact(scheme: Scheme, costs: Block, tag: Tag)
    requires WellFormed(scheme, costs) && tag < Tags(scheme)
    ensures ConstrainedMin(scheme, costs, tag, SearchError(scheme, costs, tag))
  {
    RepairMeetsSearch(scheme, costs, tag);
    forall v | Carries(scheme, costs, tag, v)
      ensures SearchError(scheme, costs, tag) <= Cost(scheme, costs, v)
    {
      SearchBelowAll(scheme, costs, tag, v);
    }
    ConstrainedMinFrom(scheme, costs, tag, SearchError(scheme, costs, tag), RepairedSymbols(scheme, costs, tag));
  }

  lemma {:induction false} TagInRange(scheme: Scheme, v: seq<nat>)
    ensures TagOf(scheme, v) < Tags(scheme)
  {
    if scheme.LowBit8? || scheme.LowBit4? {
      ParityTagIsBit(scheme, v);
    }
  }

  // The best tag costs nothing: some tag's constrained error is the unconstrained error, and no
  // tag's is below it.
  lemma ConstraintsKeepUnconstrained(scheme: Scheme, costs: Block)
    requires WellFormed(scheme, costs)
    ensures forall tag: Tag :: tag < Tags(scheme) ==> BaseError(scheme, costs) <= SearchError(scheme, costs, tag)
    ensures exists tag: Tag :: tag < Tags(scheme) && SearchError(scheme, costs, tag) == BaseError(scheme, costs)
  {
    hide Cost, TagOf, SearchError;
    var base: seq<nat> := BaseSymbols(scheme, costs);
    forall tag: Tag | tag < Tags(scheme)
      ensures BaseError(scheme, costs) <= SearchError(scheme, costs, tag)
    {
      SearchIsExact(scheme, costs, tag);
      var v :| Carries(scheme, costs, tag, v) && Cost(scheme, costs, v) == SearchError(scheme, costs, tag);
      PartialCopyCheaper(scheme, costs, base, v, base);
    }
    var t := TagOf(scheme, base);
    TagInRange(scheme, base);
    SearchIsExact(scheme, costs, t);
    assert Carries(scheme, costs, t, base);
  }
}
