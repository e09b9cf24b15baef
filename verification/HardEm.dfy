// The hard-EM optimiser of the row encoders: alternate between the best state for every tag and
// the best tag for every block, keep the best step seen, stop at a fixed point.
module HardEm {
  import opened Numeric
  import opened Options

  // errors[label][state][block]; the label of a tag is the part of it the block's symbols carry.
  type Table = seq<seq<seq<real>>>

  predicate Shape(errors: Table, states: nat, blocks: nat) {
    && |errors| > 0 && states > 0
    && forall l :: 0 <= l < |errors| ==>
      |errors[l]| == states && forall s :: 0 <= s < states ==> |errors[l][s]| == blocks
  }

  datatype Problem = Problem(errors: Table, states: nat, blocks: nat, tags: nat) {
    predicate Valid() { Shape(errors, states, blocks) && tags > 0 }

    function At(tag: nat, state: nat, block: nat): real
      requires Valid() && state < states && block < blocks
    {
      errors[tag % |errors|][state][block]
    }
  }

  // A state per tag and a tag per block.
  datatype Em = Em(states: seq<nat>, assignments: seq<nat>)

  predicate StatesFit(p: Problem, states: seq<nat>) {
    |states| == p.tags && forall t :: 0 <= t < |states| ==> states[t] < p.states
  }

  predicate TagsFit(p: Problem, assignments: seq<nat>) {
    |assignments| == p.blocks && forall b :: 0 <= b < |assignments| ==> assignments[b] < p.tags
  }

  predicate Fits(p: Problem, em: Em) { p.Valid() && StatesFit(p, em.states) && TagsFit(p, em.assignments) }

  // ----- the two half steps -----

  // Error of giving every block of `tag` the state `state`; other blocks contribute nothing.
  function Members(p: Problem, assignments: seq<nat>, tag: nat, state: nat): (xs: seq<real>)
    requires p.Valid() && TagsFit(p, assignments) && state < p.states
    ensures |xs| == p.blocks
    ensures forall b :: 0 <= b < |xs| ==> xs[b] == if assignments[b] == tag then p.At(tag, state, b) else 0.0
  {
    seq(p.blocks, b requires 0 <= b < p.blocks => if assignments[b] == tag then p.At(tag, state, b) else 0.0)
  }

  function StateTotals(p: Problem, assignments: seq<nat>, tag: nat): (totals: seq<real>)
    requires p.Valid() && TagsFit(p, assignments)
    ensures |totals| == p.states
    ensures forall s :: 0 <= s < |totals| ==> totals[s] == Sum(Members(p, assignments, tag, s))
  {
    seq(p.states, s requires 0 <= s < p.states => Sum(Members(p, assignments, tag, s)))
  }

  function UpdatedState(p: Problem, em: Em, tag: nat): (s: nat)
    requires Fits(p, em) && tag < p.tags
    ensures s < p.states
  {
    if tag in em.assignments then ArgMin(StateTotals(p, em.assignments, tag)) else em.states[tag]
  }

  function UpdatedStates(p: Problem, em: Em): (states: seq<nat>)
    requires Fits(p, em)
    ensures StatesFit(p, states)
    ensures forall t :: 0 <= t < |states| ==> states[t] == UpdatedState(p, em, t)
  {
    seq(p.tags, t requires 0 <= t < p.tags => UpdatedState(p, em, t))
  }

  function TagErrors(p: Problem, states: seq<nat>, block: nat): (xs: seq<real>)
    requires p.Valid() && StatesFit(p, states) && block < p.blocks
    ensures |xs| == p.tags
    ensures forall t :: 0 <= t < |xs| ==> xs[t] == p.At(t, states[t], block)
  {
    seq(p.tags, t requires 0 <= t < p.tags => p.At(t, states[t], block))
  }

  function BestTags(p: Problem, states: seq<nat>): (assignments: seq<nat>)
    requires p.Valid() && StatesFit(p, states)
    ensures TagsFit(p, assignments)
    ensures forall b :: 0 <= b < |assignments| ==> assignments[b] == ArgMin(TagErrors(p, states, b))
  {
    seq(p.blocks, b requires 0 <= b < p.blocks => ArgMin(TagErrors(p, states, b)))
  }

  function BlockCosts(p: Problem, em: Em): (xs: seq<real>)
    requires Fits(p, em)
    ensures |xs| == p.blocks
    ensures forall b :: 0 <= b < |xs| ==> xs[b] == p.At(em.assignments[b], em.states[em.assignments[b]], b)
  {
    seq(p.blocks, b requires 0 <= b < p.blocks => p.At(em.assignments[b], em.states[em.assignments[b]], b))
  }

  // What a row costs under these states and tags.
  function CostOf(p: Problem, em: Em): real
    requires Fits(p, em)
  {
    Sum(BlockCosts(p, em))
  }

  function LeastErrors(p: Problem, states: seq<nat>): (xs: seq<real>)
    requires p.Valid() && StatesFit(p, states)
    ensures |xs| == p.blocks
    ensures forall b :: 0 <= b < |xs| ==> xs[b] == Least(TagErrors(p, states, b))
  {
    seq(p.blocks, b requires 0 <= b < p.blocks => Least(TagErrors(p, states, b)))
  }

  // state_error.min(axis=0).sum()
  function ErrorOf(p: Problem, states: seq<nat>): real
    requires p.Valid() && StatesFit(p, states)
  {
    Sum(LeastErrors(p, states))
  }

  function Next(p: Problem, em: Em): (n: Em)
    requires Fits(p, em)
    ensures Fits(p, n)
  {
    var states := UpdatedStates(p, em);
    Em(states, BestTags(p, states))
  }

  function Run(p: Problem, em: Em, steps: nat): (n: Em)
    requires Fits(p, em)
    ensures Fits(p, n)
  {
    if steps == 0 then em else Next(p, Run(p, em, steps - 1))
  }

  // ----- each half step is optimal -----

  // Best tags: the reported error is the cost of the states with those tags, and no other tags
  // cost less.
  lemma BestTagsOptimal(p: Problem, em: Em)
    requires Fits(p, em)
    ensures ErrorOf(p, em.states) == CostOf(p, Em(em.states, BestTags(p, em.states)))
    ensures ErrorOf(p, em.states) <= CostOf(p, em)
  {
    var best := Em(em.states, BestTags(p, em.states));
    assert BlockCosts(p, best) == LeastErrors(p, em.states);
    forall b | 0 <= b < p.blocks
      ensures LeastErrors(p, em.states)[b] <= BlockCosts(p, em)[b]
    {
      assert TagErrors(p, em.states, b)[em.assignments[b]] == BlockCosts(p, em)[b];
    }
    SumMonotone(LeastErrors(p, em.states), BlockCosts(p, em));
  }

  lemma ChangeOneState(p: Problem, em: Em, tag: nat, state: nat)
    requires Fits(p, em) && tag < p.tags && state < p.states
    ensures CostOf(p, Em(em.states[tag := state], em.assignments))
      + Sum(Members(p, em.assignments, tag, em.states[tag]))
         == CostOf(p, em) + Sum(Members(p, em.assignments, tag, state))
  {
    var before, after := BlockCosts(p, em), BlockCosts(p, Em(em.states[tag := state], em.assignments));
    var left, right := Members(p, em.assignments, tag, em.states[tag]), Members(p, em.assignments, tag, state);
    var zs := seq(p.blocks, b requires 0 <= b < p.blocks => after[b] + left[b]);
    SumPointwise(after, left, zs);
    forall b | 0 <= b < p.blocks
      ensures zs[b] == before[b] + right[b]
    {
    }
    SumPointwise(before, right, zs);
  }

  // Best states: no other state vector costs less under the same tags.
  lemma BestStatesOptimal(p: Problem, em: Em, other: seq<nat>)
    requires Fits(p, em) && StatesFit(p, other)
    ensures CostOf(p, Em(UpdatedStates(p, em), em.assignments)) <= CostOf(p, Em(other, em.assignments))
  {
    hide CostOf, UpdatedState, Members, Sum;
    var best := UpdatedStates(p, em);
    var mixed := other;
    var t := 0;
    while t < p.tags
      invariant t <= p.tags && StatesFit(p, mixed)
      invariant forall u :: 0 <= u < t ==> mixed[u] == best[u]
      invariant forall u :: t <= u < p.tags ==> mixed[u] == other[u]
      invariant CostOf(p, Em(mixed, em.assignments)) <= CostOf(p, Em(other, em.assignments))
    {
      ChangeOneState(p, Em(mixed, em.assignments), t, best[t]);
      BestMembers(p, em, t, mixed[t]);
      mixed := mixed[t := best[t]];
      t := t + 1;
    }
    assert mixed == best;
  }

  lemma BestMembers(p: Problem, em: Em, tag: nat, state: nat)
    requires Fits(p, em) && tag < p.tags && state < p.states
    ensures Sum(Members(p, em.assignments, tag, UpdatedState(p, em, tag)))
      <= Sum(Members(p, em.assignments, tag, state))
  {
    if tag in em.assignments {
      var totals := StateTotals(p, em.assignments, tag);
      assert totals[ArgMin(totals)] <= totals[state];
    } else {
      assert Members(p, em.assignments, tag, UpdatedState(p, em, tag)) == Members(p, em.assignments, tag, state);
    }
  }

  // ----- whole runs -----

  // One step never costs more than what it started from, empty tags included.
  lemma StepNeverIncreases(p: Problem, em: Em)
    requires Fits(p, em)
    ensures ErrorOf(p, Next(p, em).states) <= CostOf(p, em)
  {
    var states := UpdatedStates(p, em);
    BestStatesOptimal(p, em, em.states);
    BestTagsOptimal(p, Em(states, em.assignments));
  }

  predicate Settled(p: Problem, em: Em)
    requires Fits(p, em)
  {
    em.assignments == BestTags(p, em.states)
  }

  // The constrained error is nonincreasing along a run from any step whose tags fit its states.
  lemma {:induction false} RunNeverIncreases(p: Problem, em: Em, i: nat, j: nat)
    requires Fits(p, em) && i <= j && Settled(p, Run(p, em, i))
    ensures ErrorOf(p, Run(p, em, j).states) <= ErrorOf(p, Run(p, em, i).states)
    ensures Settled(p, Run(p, em, j))
  {
    hide ErrorOf, CostOf, UpdatedStates, BestTags;
    if i < j {
      RunNeverIncreases(p, em, i, j - 1);
      var before := Run(p, em, j - 1);
      BestTagsOptimal(p, before);
      StepNeverIncreases(p, before);
    }
  }

  lemma {:induction false} FixedPointStays(p: Problem, em: Em, i: nat, j: nat)
    requires Fits(p, em) && i <= j && Next(p, Run(p, em, i)) == Run(p, em, i)
    ensures Run(p, em, j) == Run(p, em, i)
  {
    if i < j {
      FixedPointStays(p, em, i, j - 1);
    }
  }

  // A fixed point is optimal in both coordinates: no other states for its tags, no other tags for
  // its states.
  lemma FixedPointOptimal(p: Problem, em: Em, states: seq<nat>, assignments: seq<nat>)
    requires Fits(p, em) && Next(p, em) == em
    requires StatesFit(p, states) && TagsFit(p, assignments)
    ensures CostOf(p, em) <= CostOf(p, Em(states, em.assignments))
    ensures CostOf(p, em) <= CostOf(p, Em(em.states, assignments))
  {
    BestStatesOptimal(p, em, states);
    BestTagsOptimal(p, Em(em.states, assignments));
  }

  // ----- the encoder's loops -----

  datatype Refined = Refined(error: real, em: Em, step: nat)

  method UpdateStates(p: Problem, em: Em) returns (states: seq<nat>)
    requires Fits(p, em)
    ensures states == UpdatedStates(p, em)
  {
    states := em.states;
    for tag := 0 to p.tags
      invariant |states| == p.tags
      invariant forall t :: 0 <= t < tag ==> states[t] == UpdatedState(p, em, t)
      invariant forall t :: tag <= t < p.tags ==> states[t] == em.states[t]
    {
      if tag in em.assignments {
        states := states[tag := ArgMin(StateTotals(p, em.assignments, tag))];
      }
    }
  }

  method Advance(p: Problem, em: Em) returns (n: Em)
    requires Fits(p, em)
    ensures n == Next(p, em)
  {
    var states := UpdateStates(p, em);
    n := Em(states, BestTags(p, states));
  }

  lemma RunUnfold(p: Problem, em: Em, k: nat)
    requires Fits(p, em)
    ensures Run(p, em, 0) == em && Run(p, em, k + 1) == Next(p, Run(p, em, k))
  {
  }

  // r is the first best of steps lo..hi of the run.
  ghost predicate BestOfSteps(p: Problem, start: Em, lo: nat, hi: nat, r: Refined)
    requires Fits(p, start)
  {
    && lo <= r.step <= hi
    && r.em == Run(p, start, r.step)
    && r.error == ErrorOf(p, r.em.states)
    && (forall k :: lo <= k <= hi ==> r.error <= ErrorOf(p, Run(p, start, k).states))
    && (forall k :: lo <= k < r.step ==> r.error < ErrorOf(p, Run(p, start, k).states))
  }

  // Every state zero; the tags decide the first update.
  function FromTags(p: Problem, initial: seq<nat>): (em: Em)
    requires p.Valid() && TagsFit(p, initial)
    ensures Fits(p, em)
  {
    Em(seq(p.tags, t => 0), initial)
  }

  // Refinement from initial tags; states start at zero and step 1 is the first candidate.
  // `fixed` reports that the loop stopped because nothing changed.
  method RefineFromAssignments(p: Problem, initial: seq<nat>, maximumSteps: nat)
      returns (r: Option<Refined>, fixed: bool)
    requires p.Valid() && TagsFit(p, initial)
    ensures r.Some? <==> maximumSteps > 0
    ensures r.Some? ==> BestOfSteps(p, FromTags(p, initial), 1, maximumSteps, r.value)
    ensures r.Some? ==> r.value.error == CostOf(p, r.value.em)
    ensures r.Some? ==> r.value.error == ErrorOf(p, Run(p, FromTags(p, initial), maximumSteps).states)
    ensures fixed ==>
      var last := Run(p, FromTags(p, initial), maximumSteps);
      Next(p, last) == last
  {
    hide ErrorOf, CostOf, FromTags, BestOfSteps, Run, Next;
    var start := FromTags(p, initial);
    var em := start;
    r, fixed := None, false;
    ghost var last: nat := 0;
    RunUnfold(p, start, 0);
    for step := 1 to maximumSteps + 1
      invariant !fixed && last == step - 1 && em == Run(p, start, last)
      invariant r.None? <==> last == 0
      invariant r.Some? ==> BestOfSteps(p, start, 1, last, r.value)
    {
      var updated := Advance(p, em);
      RunUnfold(p, start, last);
      var error := ErrorOf(p, updated.states);
      ghost var held := if r.Some? then r.value else Refined(error, updated, step);
      AddStep(p, start, 1, last, held, updated);
      if r.None? || error < r.value.error {
        r := Some(Refined(error, updated, step));
      }
      last := last + 1;
      if updated == em {
        fixed := true;
        ExtendBest(p, start, 1, last, maximumSteps, r.value);
        FixedPointStays(p, start, last - 1, maximumSteps);
        break;
      }
      em := updated;
    }
    if r.Some? {
      SettledFromFirst(p, start, 1);
      BestIsLast(p, start, 1, maximumSteps, r.value);
    }
  }

  lemma ExtendBest(p: Problem, start: Em, lo: nat, hi: nat, limit: nat, r: Refined)
    requires Fits(p, start) && lo <= hi <= limit && hi > 0 && BestOfSteps(p, start, lo, hi, r)
    requires Next(p, Run(p, start, hi - 1)) == Run(p, start, hi - 1)
    ensures BestOfSteps(p, start, lo, limit, r)
  {
    hide ErrorOf, Next;
    forall k | hi <= k <= limit
      ensures Run(p, start, k) == Run(p, start, hi)
    {
      FixedPointStays(p, start, hi - 1, k);
      FixedPointStays(p, start, hi - 1, hi);
    }
  }

  lemma SettledFromFirst(p: Problem, start: Em, k: nat)
    requires Fits(p, start) && k >= 1
    ensures Settled(p, Run(p, start, k))
  {
  }

  // The best step is worth exactly as much as the last one, so cutting the run short never helps
  // and stopping early never hurts; and its error is the cost of its own states and tags.
  lemma BestIsLast(p: Problem, start: Em, lo: nat, hi: nat, r: Refined)
    requires Fits(p, start) && lo <= hi && BestOfSteps(p, start, lo, hi, r) && Settled(p, Run(p, start, lo))
    ensures r.error == ErrorOf(p, Run(p, start, hi).states)
    ensures r.error == CostOf(p, r.em)
  {
    hide ErrorOf, CostOf;
    RunNeverIncreases(p, start, lo, r.step);
    RunNeverIncreases(p, start, r.step, hi);
    BestTagsOptimal(p, r.em);
  }

  lemma AddStep(p: Problem, start: Em, lo: nat, hi: nat, r: Refined, em: Em)
    requires Fits(p, start) && lo <= hi + 1 && em == Run(p, start, hi + 1)
    requires lo <= hi ==> BestOfSteps(p, start, lo, hi, r)
    ensures var error := ErrorOf(p, em.states);
      BestOfSteps(p, start, lo, hi + 1, if lo > hi || error < r.error then Refined(error, em, hi + 1) else r)
  {
    hide ErrorOf, Run;
  }

  // Refinement from initial states; the start itself is the step-0 candidate.
  method RefineConstrainedStates(p: Problem, initial: seq<nat>, maximumSteps: nat) returns (r: Refined, fixed: bool)
    requires p.Valid() && StatesFit(p, initial)
    ensures BestOfSteps(p, Em(initial, BestTags(p, initial)), 0, maximumSteps, r)
    ensures r.error == CostOf(p, r.em)
    ensures r.error == ErrorOf(p, Run(p, Em(initial, BestTags(p, initial)), maximumSteps).states)
    ensures r.error <= ErrorOf(p, initial)
    ensures fixed ==>
      var last := Run(p, Em(initial, BestTags(p, initial)), maximumSteps);
      Next(p, last) == last
  {
    hide ErrorOf, CostOf, BestTags, Run, Next;
    var start := Em(initial, BestTags(p, initial));
    var em := start;
    r, fixed := Refined(ErrorOf(p, initial), start, 0), false;
    ghost var last: nat := 0;
    RunUnfold(p, start, 0);
    for step := 1 to maximumSteps + 1
      invariant !fixed && last == step - 1 && em == Run(p, start, last)
      invariant BestOfSteps(p, start, 0, last, r)
    {
      var updated := Advance(p, em);
      RunUnfold(p, start, last);
      var error := ErrorOf(p, updated.states);
      AddStep(p, start, 0, last, r, updated);
      if error < r.error {
        r := Refined(error, updated, step);
      }
      last := step;
      if updated == em {
        fixed := true;
        ExtendBest(p, start, 0, last, maximumSteps, r);
        FixedPointStays(p, start, last - 1, maximumSteps);
        break;
      }
      em := updated;
    }
    BestIsLast(p, start, 0, maximumSteps, r);
  }
}
