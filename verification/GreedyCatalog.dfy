// Growing a palette catalog greedily: each pick is the palette with the largest drop in the summed
// best error, and the total drop is compared with what any other palettes could achieve.
module GreedyCatalog {
  import opened Numeric
  import opened Options

  // One row per partition, one column per palette.
  datatype Screen = Screen(errors: seq<seq<real>>, palettes: nat) {
    predicate Valid() {
      forall r :: 0 <= r < |errors| ==> |errors[r]| == palettes
    }
  }

  predicate Known(s: Screen, selected: seq<nat>) {
    s.Valid() && |selected| > 0 && forall k :: 0 <= k < |selected| ==> selected[k] < s.palettes
  }

  // The best error one partition gets from the selected palettes.
  function Best(row: seq<real>, selected: seq<nat>): (e: real)
    requires |selected| > 0 && forall k :: 0 <= k < |selected| ==> selected[k] < |row|
    ensures exists k :: 0 <= k < |selected| && e == row[selected[k]]
    ensures forall k :: 0 <= k < |selected| ==> e <= row[selected[k]]
  {
    var n := |selected| - 1;
    if n == 0 then row[selected[0]]
    else
      var front := selected[..n];
      assert forall k :: 0 <= k < n ==> front[k] == selected[k];
      Min(Best(row, front), row[selected[n]])
  }

  function Covered(s: Screen, selected: seq<nat>): (c: seq<real>)
    requires Known(s, selected)
    ensures |c| == |s.errors| && forall r :: 0 <= r < |c| ==> c[r] == Best(s.errors[r], selected)
  {
    seq(|s.errors|, r requires 0 <= r < |s.errors| => Best(s.errors[r], selected))
  }

  function Total(s: Screen, selected: seq<nat>): real
    requires Known(s, selected)
  {
    Sum(Covered(s, selected))
  }

  // What palette p would take off each covered error.
  function Gains(s: Screen, covered: seq<real>, p: nat): (g: seq<real>)
    requires s.Valid() && |covered| == |s.errors| && p < s.palettes
    ensures |g| == |covered| && forall r :: 0 <= r < |g| ==> g[r] == Max(covered[r] - s.errors[r][p], 0.0)
  {
    seq(|covered|, r requires 0 <= r < |covered| => Max(covered[r] - s.errors[r][p], 0.0))
  }

  function Improvement(s: Screen, covered: seq<real>): (xs: seq<real>)
    requires s.Valid() && |covered| == |s.errors|
    ensures |xs| == s.palettes && forall p :: 0 <= p < |xs| ==> xs[p] == Sum(Gains(s, covered, p))
  {
    seq(s.palettes, p requires 0 <= p < s.palettes => Sum(Gains(s, covered, p)))
  }

  // argmax after unavailable entries became minus infinity
  function FirstBest(xs: seq<real>, available: seq<bool>): (k: nat)
    requires |xs| == |available| && true in available
    ensures k < |xs| && available[k]
    ensures forall i :: 0 <= i < |xs| && available[i] ==> xs[i] <= xs[k]
    ensures forall i :: 0 <= i < k && available[i] ==> xs[i] < xs[k]
  {
    var n := |xs| - 1;
    assert forall i :: 0 <= i < n ==> xs[..n][i] == xs[i] && available[..n][i] == available[i];
    if true in available[..n] then
      var k := FirstBest(xs[..n], available[..n]);
      if available[n] && xs[n] > xs[k] then n else k
    else n
  }

  // ----- adding one palette -----

  lemma AddOne(s: Screen, selected: seq<nat>, p: nat)
    requires Known(s, selected) && p < s.palettes
    ensures Known(s, selected + [p])
    ensures forall r :: 0 <= r < |s.errors| ==>
      Covered(s, selected + [p])[r] == Min(Covered(s, selected)[r], s.errors[r][p])
    ensures Total(s, selected + [p]) == Total(s, selected) - Sum(Gains(s, Covered(s, selected), p))
  {
    assert (selected + [p])[..|selected|] == selected;
    var before, after, gains := Covered(s, selected), Covered(s, selected + [p]), Gains(s, Covered(s, selected), p);
    SumPointwise(after, gains, before);
  }

  lemma SelectedGainsNothing(s: Screen, selected: seq<nat>, p: nat)
    requires Known(s, selected) && p in selected
    ensures Sum(Gains(s, Covered(s, selected), p)) == 0.0
  {
    SumZeros(Gains(s, Covered(s, selected), p));
  }

  lemma GainsNonnegative(s: Screen, covered: seq<real>, p: nat)
    requires s.Valid() && |covered| == |s.errors| && p < s.palettes
    ensures Sum(Gains(s, covered, p)) >= 0.0
  {
    SumNonnegative(Gains(s, covered, p));
  }

  // ----- the loop -----

  // From position `from` on, every entry is new and at least as good as any palette would be.
  predicate GreedyFrom(s: Screen, selected: seq<nat>, from: nat)
    requires Known(s, selected)
  {
    forall k :: 0 < from <= k < |selected| ==> BestPick(s, selected, k)
  }

  predicate BestPick(s: Screen, selected: seq<nat>, k: nat)
    requires Known(s, selected) && 0 < k < |selected|
  {
    BestNext(s, selected[..k], selected[k])
  }

  // The first of the palettes not yet selected that lower the total most.
  predicate BestNext(s: Screen, selected: seq<nat>, chosen: nat)
    requires Known(s, selected)
  {
    && chosen < s.palettes && chosen !in selected
    && forall p :: 0 <= p < s.palettes ==> NoBetter(s, selected, chosen, p)
  }

  predicate NoBetter(s: Screen, selected: seq<nat>, chosen: nat, p: nat)
    requires Known(s, selected) && chosen < s.palettes && p < s.palettes
  {
    && Total(s, selected + [chosen]) <= Total(s, selected + [p])
    && (p < chosen && p !in selected ==> Total(s, selected + [chosen]) < Total(s, selected + [p]))
  }

  method Grow(s: Screen, seed: seq<nat>, size: nat) returns (result: Option<seq<nat>>)
    requires s.Valid() && forall k :: 0 <= k < |seed| ==> seed[k] < s.palettes
    ensures result.Some? <==> 0 < |seed| <= size <= s.palettes
    ensures result.Some? ==>
      && |result.value| == size && seed <= result.value && Known(s, result.value)
      && GreedyFrom(s, result.value, |seed|)
  {
    if !(0 < |seed| <= size <= s.palettes) {
      return None;
    }
    hide Total, Best, BestNext, GreedyFrom, Gains, Improvement, FirstBest, Covered, CoverWith;
    NothingGrown(s, seed);
    var selected := seed;
    var covered := Covered(s, seed);
    var available := seq(s.palettes, p => p !in seed);
    while |selected| < size
      invariant |seed| <= |selected| <= size && seed <= selected && Known(s, selected)
      invariant covered == Covered(s, selected)
      invariant |available| == s.palettes && forall p :: 0 <= p < |available| ==> available[p] == (p !in selected)
      invariant GreedyFrom(s, selected, |seed|)
      decreases size - |selected|
    {
      SomeLeft(s, selected, available);
      var improvement := Improvement(s, covered);
      var chosen := FirstBest(improvement, available);
      ChosenIsBest(s, selected, available, chosen);
      GreedyExtends(s, selected, |seed|, chosen);
      CoverMore(s, selected, chosen);
      selected := selected + [chosen];
      available := available[chosen := false];
      covered := CoverWith(s, covered, chosen);
    }
    result := Some(selected);
  }

  function CoverWith(s: Screen, covered: seq<real>, p: nat): (c: seq<real>)
    requires s.Valid() && |covered| == |s.errors| && p < s.palettes
    ensures |c| == |covered| && forall r :: 0 <= r < |c| ==> c[r] == Min(covered[r], s.errors[r][p])
  {
    seq(|covered|, r requires 0 <= r < |covered| => Min(covered[r], s.errors[r][p]))
  }

  lemma CoverMore(s: Screen, selected: seq<nat>, p: nat)
    requires Known(s, selected) && p < s.palettes
    ensures Known(s, selected + [p]) && CoverWith(s, Covered(s, selected), p) == Covered(s, selected + [p])
  {
    hide Total, Best;
    AddOne(s, selected, p);
  }

  lemma NothingGrown(s: Screen, seed: seq<nat>)
    requires Known(s, seed)
    ensures GreedyFrom(s, seed, |seed|)
  {
  }

  // Fewer selections than palettes leave one available.
  lemma SomeLeft(s: Screen, selected: seq<nat>, available: seq<bool>)
    requires |selected| < s.palettes == |available|
    requires forall p :: 0 <= p < |available| ==> available[p] == (p !in selected)
    ensures true in available
  {
    var p := Missing(selected, s.palettes);
    assert available[p];
  }

  lemma ChosenIsBest(s: Screen, selected: seq<nat>, available: seq<bool>, chosen: nat)
    requires Known(s, selected) && |available| == s.palettes && true in available
    requires forall p :: 0 <= p < |available| ==> available[p] == (p !in selected)
    requires chosen == FirstBest(Improvement(s, Covered(s, selected)), available)
    ensures BestNext(s, selected, chosen)
  {
    hide Total, Covered, Gains, Improvement;
    forall p | 0 <= p < s.palettes
      ensures NoBetter(s, selected, chosen, p)
    {
      ChosenBeats(s, selected, available, chosen, p);
    }
  }

  lemma KnownNext(s: Screen, selected: seq<nat>, p: nat)
    requires Known(s, selected) && p < s.palettes
    ensures Known(s, selected + [p])
  {
  }

  lemma ChosenBeats(s: Screen, selected: seq<nat>, available: seq<bool>, chosen: nat, p: nat)
    requires Known(s, selected) && |available| == s.palettes && true in available && p < s.palettes
    requires forall p :: 0 <= p < |available| ==> available[p] == (p !in selected)
    requires chosen == FirstBest(Improvement(s, Covered(s, selected)), available)
    ensures NoBetter(s, selected, chosen, p)
  {
    hide Total, Best, Gains, Covered, Improvement, Sum, FirstBest;
    AddOne(s, selected, chosen);
    AddOne(s, selected, p);
    var improvement := Improvement(s, Covered(s, selected));
    if available[p] {
      assert improvement[p] <= improvement[chosen];
      assert p < chosen ==> improvement[p] < improvement[chosen];
    } else {
      SelectedGainsNothing(s, selected, p);
      GainsNonnegative(s, Covered(s, selected), chosen);
    }
  }

  lemma GreedyExtends(s: Screen, selected: seq<nat>, from: nat, p: nat)
    requires Known(s, selected) && GreedyFrom(s, selected, from) && BestNext(s, selected, p)
    ensures Known(s, selected + [p]) && GreedyFrom(s, selected + [p], from)
  {
    hide Total, NoBetter;
    KnownNext(s, selected, p);
    var longer := selected + [p];
    forall k | 0 < from <= k < |longer|
      ensures BestPick(s, longer, k)
    {
      assert longer[..k] == selected[..k];
      if k < |selected| {
        assert BestPick(s, selected, k);
      } else {
        assert selected[..k] == selected;
      }
    }
  }

  // ----- diminishing returns -----

  lemma {:induction false} MoreCoversMore(row: seq<real>, selected: seq<nat>, others: seq<nat>)
    requires |selected| > 0 && forall k :: 0 <= k < |selected| ==> selected[k] < |row|
    requires forall k :: 0 <= k < |others| ==> others[k] < |row|
    ensures Best(row, selected + others) <= Best(row, selected)
  {
    if |others| > 0 {
      var n := |others| - 1;
      MoreCoversMore(row, selected, others[..n]);
      assert (selected + others)[..|selected| + n] == selected + others[..n];
    } else {
      assert selected + others == selected;
    }
  }

  // A palette gains no more on top of a larger selection.
  lemma Diminishing(s: Screen, selected: seq<nat>, others: seq<nat>, p: nat)
    requires Known(s, selected) && Known(s, selected + others) && p < s.palettes
    ensures Total(s, selected + others) - Total(s, selected + others + [p])
      <= Total(s, selected) - Total(s, selected + [p])
  {
    hide Total, Gains, Covered;
    AddOne(s, selected, p);
    AddOne(s, selected + others, p);
    GainsShrink(s, selected, others, p);
    SumMonotone(Gains(s, Covered(s, selected + others), p), Gains(s, Covered(s, selected), p));
  }

  lemma GainsShrink(s: Screen, selected: seq<nat>, others: seq<nat>, p: nat)
    requires Known(s, selected) && Known(s, selected + others) && p < s.palettes
    ensures var small, large := Gains(s, Covered(s, selected + others), p), Gains(s, Covered(s, selected), p);
      |small| == |large| && forall r :: 0 <= r < |small| ==> small[r] <= large[r]
  {
    hide Best;
    assert forall k :: 0 <= k < |others| ==> others[k] == (selected + others)[|selected| + k];
    forall r | 0 <= r < |s.errors|
      ensures Best(s.errors[r], selected + others) <= Best(s.errors[r], selected)
    {
      MoreCoversMore(s.errors[r], selected, others);
    }
  }

  lemma KnownParts(s: Screen, selected: seq<nat>, others: seq<nat>)
    requires Known(s, selected) && forall k :: 0 <= k < |others| ==> others[k] < s.palettes
    ensures Known(s, selected + others)
  {
  }

  // Any palettes together take off at most as many times the best single gain as they are.
  lemma {:induction false} JointGain(s: Screen, selected: seq<nat>, others: seq<nat>, best: real)
    requires Known(s, selected) && (forall k :: 0 <= k < |others| ==> others[k] < s.palettes)
    requires forall p :: 0 <= p < s.palettes ==> Total(s, selected) - Total(s, selected + [p]) <= best
    ensures Known(s, selected + others)
    ensures Total(s, selected) - Total(s, selected + others) <= (|others| as real) * best
  {
    hide Total;
    KnownParts(s, selected, others);
    if |others| == 0 {
      assert selected + others == selected;
    } else {
      var n := |others| - 1;
      JointGain(s, selected, others[..n], best);
      Diminishing(s, selected, others[..n], others[n]);
      assert selected + others[..n] + [others[n]] == selected + others;
      assert (|others| as real) * best == (n as real) * best + best;
    }
  }

  // ----- the approximation bound -----

  function Pow(q: real, k: nat): real {
    if k == 0 then 1.0 else q * Pow(q, k - 1)
  }

  // How far a greedy prefix is from seed-plus-rivals, and how one pick closes the gap.
  lemma OnePickCloses(s: Screen, selected: seq<nat>, from: nat, k: nat, rivals: seq<nat>)
    requires Known(s, selected) && 0 < from <= k < |selected| && GreedyFrom(s, selected, from)
    requires |rivals| > 0 && forall i :: 0 <= i < |rivals| ==> rivals[i] < s.palettes
    ensures var m := |rivals| as real;
            var goal := Total(s, selected[..from] + rivals);
      m * (Total(s, selected[..k + 1]) - goal) <= (m - 1.0) * (Total(s, selected[..k]) - goal)
  {
    hide Total;
    var here := selected[..k];
    var gain := Total(s, here) - Total(s, selected[..k + 1]);
    assert BestPick(s, selected, k);
    assert selected[..k + 1] == here + [selected[k]];
    forall p | 0 <= p < s.palettes
      ensures Total(s, here) - Total(s, here + [p]) <= gain
    {
      assert NoBetter(s, here, selected[k], p);
    }
    JointGain(s, here, rivals, gain);
    SeedPlusRivals(s, selected, from, k, rivals);
    var m := |rivals| as real;
    var goal := Total(s, selected[..from] + rivals);
    assert Total(s, here) - goal <= m * gain;
    CloseArithmetic(m, Total(s, here), gain, goal);
  }

  lemma CloseArithmetic(m: real, here: real, gain: real, goal: real)
    requires here - goal <= m * gain
    ensures m * ((here - gain) - goal) <= (m - 1.0) * (here - goal)
  {
  }

  lemma SeedPlusRivals(s: Screen, selected: seq<nat>, from: nat, k: nat, rivals: seq<nat>)
    requires Known(s, selected) && 0 < from <= k < |selected|
    requires forall i :: 0 <= i < |rivals| ==> rivals[i] < s.palettes
    ensures Total(s, selected[..k] + rivals) <= Total(s, selected[..from] + rivals)
  {
    var a, b := Covered(s, selected[..k] + rivals), Covered(s, selected[..from] + rivals);
    forall r | 0 <= r < |a|
      ensures a[r] <= b[r]
    {
      var i :| 0 <= i < |selected[..from] + rivals| && b[r] == s.errors[r][(selected[..from] + rivals)[i]];
      var j := if i < from then i else i - from + k;
      assert (selected[..k] + rivals)[j] == (selected[..from] + rivals)[i];
    }
    SumMonotone(a, b);
  }

  // After any number of picks, the remaining gap to any m rivals is at most (1 - 1/m)^picks of the
  // seed's gap.
  lemma {:induction false} GapShrinks(s: Screen, selected: seq<nat>, from: nat, picks: nat, rivals: seq<nat>)
    requires Known(s, selected) && 0 < from && from + picks <= |selected| && GreedyFrom(s, selected, from)
    requires |rivals| > 0 && forall i :: 0 <= i < |rivals| ==> rivals[i] < s.palettes
    ensures var m := |rivals| as real;
            var goal := Total(s, selected[..from] + rivals);
      Total(s, selected[..from + picks]) - goal <= Pow((m - 1.0) / m, picks) * (Total(s, selected[..from]) - goal)
  {
    hide Total;
    if picks > 0 {
      var k := from + picks - 1;
      GapShrinks(s, selected, from, picks - 1, rivals);
      OnePickCloses(s, selected, from, k, rivals);
      var m := |rivals| as real;
      var goal := Total(s, selected[..from] + rivals);
      ShrinkArithmetic(m, Total(s, selected[..k + 1]) - goal, Total(s, selected[..k]) - goal,
                       Pow((m - 1.0) / m, picks - 1), Total(s, selected[..from]) - goal);
    }
  }

  lemma ShrinkArithmetic(m: real, next: real, here: real, factor: real, start: real)
    requires m >= 1.0 && m * next <= (m - 1.0) * here && here <= factor * start
    ensures next <= ((m - 1.0) / m) * factor * start
  {
    var q := (m - 1.0) / m;
    assert q * m == m - 1.0;
    assert m * next <= m * (q * here);
    assert next <= q * here;
    assert q >= 0.0;
    assert q * here <= q * (factor * start);
  }

  // The greedy guarantee: the drop after `picks` picks is at least 1 - (1 - 1/m)^picks of the drop
  // any m palettes could achieve on top of the seed.
  lemma GreedyGuarantee(s: Screen, selected: seq<nat>, from: nat, picks: nat, rivals: seq<nat>)
    requires Known(s, selected) && 0 < from && from + picks <= |selected| && GreedyFrom(s, selected, from)
    requires |rivals| > 0 && forall i :: 0 <= i < |rivals| ==> rivals[i] < s.palettes
    ensures var m := |rivals| as real;
            var seed := selected[..from];
      Total(s, seed) - Total(s, selected[..from + picks])
        >= (1.0 - Pow((m - 1.0) / m, picks)) * (Total(s, seed) - Total(s, seed + rivals))
  {
    hide Total, Pow;
    GapShrinks(s, selected, from, picks, rivals);
  }
}
