// The selector over all groups, the faster ranker that must agree with it, and what applying the
// selected swaps does to the resident set.
module ResidencySelect {
  import opened Numeric
  import opened Options
  import opened ResidencyRank

  // ----- groups -----

  function Members(entries: seq<Entry>, g: nat): seq<Expert> {
    if |entries| == 0 then []
    else
      var last := entries[|entries| - 1];
      Members(entries[..|entries| - 1], g) + if last.group == g then [last.expert] else []
  }

  // Pairs of groups 0 .. n, group by group.
  function PairsUpTo(groups: nat -> seq<Expert>, heat: Expert -> real, state: Expert -> int, n: nat): seq<Pair> {
    if n == 0 then [] else PairsUpTo(groups, heat, state, n - 1) + GroupPairs(groups(n - 1), heat, state)
  }

  function ByGroup(entries: seq<Entry>): nat -> seq<Expert> { (g: nat) => Members(entries, g) }

  function GroupsIn(entries: seq<Entry>): (n: nat)
    ensures forall k :: 0 <= k < |entries| ==> entries[k].group < n
  {
    if |entries| == 0 then 0
    else
      var n := GroupsIn(entries[..|entries| - 1]);
      var g := entries[|entries| - 1].group;
      assert forall k :: 0 <= k < |entries| - 1 ==> entries[..|entries| - 1][k] == entries[k];
      if g < n then n else g + 1
  }

  // ----- the final order: largest gain first -----

  function InsertPair(xs: seq<Pair>, p: Pair): seq<Pair> {
    if |xs| == 0 then [p]
    else if xs[|xs| - 1].gain >= p.gain then xs + [p]
    else InsertPair(xs[..|xs| - 1], p) + [xs[|xs| - 1]]
  }

  function SortPairs(xs: seq<Pair>): seq<Pair> {
    if |xs| == 0 then [] else InsertPair(SortPairs(xs[..|xs| - 1]), xs[|xs| - 1])
  }

  predicate AtLeast(xs: seq<Pair>, least: real) { forall k :: 0 <= k < |xs| ==> xs[k].gain >= least }

  predicate GainsFall(xs: seq<Pair>) { forall i, j :: 0 <= i < j < |xs| ==> xs[i].gain >= xs[j].gain }

  lemma {:induction false} InsertPairSorts(xs: seq<Pair>, p: Pair)
    requires GainsFall(xs)
    ensures GainsFall(InsertPair(xs, p)) && multiset(InsertPair(xs, p)) == multiset(xs) + multiset{p}
  {
    hide GainsFall, AtLeast;
    if |xs| > 0 && xs[|xs| - 1].gain < p.gain {
      var n := |xs| - 1;
      FallingFront(xs);
      InsertPairSorts(xs[..n], p);
      AllAtLeast(InsertPair(xs[..n], p), xs[..n], p, xs[n].gain);
      LastLeast(InsertPair(xs[..n], p), xs[n]);
      assert xs == xs[..n] + [xs[n]];
    } else {
      assert [] + [p] == [p];
      AboveLast(xs, p);
      LastLeast(xs, p);
    }
  }

  lemma FallingFront(xs: seq<Pair>)
    requires GainsFall(xs) && |xs| > 0
    ensures GainsFall(xs[..|xs| - 1]) && AtLeast(xs[..|xs| - 1], xs[|xs| - 1].gain)
  {
  }

  lemma AboveLast(xs: seq<Pair>, p: Pair)
    requires GainsFall(xs) && (|xs| > 0 ==> xs[|xs| - 1].gain >= p.gain)
    ensures AtLeast(xs, p.gain)
  {
  }

  lemma AllAtLeast(ys: seq<Pair>, xs: seq<Pair>, p: Pair, least: real)
    requires multiset(ys) == multiset(xs) + multiset{p} && p.gain >= least
    requires AtLeast(xs, least)
    ensures AtLeast(ys, least)
  {
    forall k | 0 <= k < |ys|
      ensures ys[k].gain >= least
    {
      assert ys[k] in multiset(ys);
      assert ys[k] in xs || ys[k] == p;
    }
  }

  lemma LastLeast(xs: seq<Pair>, p: Pair)
    requires GainsFall(xs) && AtLeast(xs, p.gain)
    ensures GainsFall(xs + [p])
  {
  }

  lemma {:induction false} SortPairsSorts(xs: seq<Pair>)
    ensures GainsFall(SortPairs(xs)) && multiset(SortPairs(xs)) == multiset(xs)
  {
    hide GainsFall;
    if |xs| == 0 {
      NothingFalls();
    } else {
      var n := |xs| - 1;
      SortPairsSorts(xs[..n]);
      InsertPairSorts(SortPairs(xs[..n]), xs[n]);
      assert xs == xs[..n] + [xs[n]];
    }
  }

  lemma NothingFalls()
    ensures GainsFall([])
  {
  }

  function Selected(entries: seq<Entry>, heat: Expert -> real, state: Expert -> int): seq<Pair> {
    SortPairs(PairsUpTo(ByGroup(entries), heat, state, GroupsIn(entries)))
  }

  // ----- the reference selector -----

  datatype Bucket = Bucket(cold: seq<Item>, hot: seq<Item>)

  // The bucket a group's entries fill.
  function BucketOf(entries: seq<Entry>, g: nat, heat: Expert -> real, state: Expert -> int): Bucket {
    Bucket(Cold(Members(entries, g), heat, state), Hot(Members(entries, g), heat, state))
  }

  lemma NextEntry(entries: seq<Entry>, k: nat, g: nat, heat: Expert -> real, state: Expert -> int)
    requires k < |entries|
    ensures var e := entries[k].expert;
            var was := BucketOf(entries[..k], g, heat, state);
      BucketOf(entries[..k + 1], g, heat, state)
        == if entries[k].group != g then was
           else if state(e) == 1 then was.(hot := was.hot + [Item(e, heat(e))])
           else if state(e) == 0 && heat(e) >= 2.0 then was.(cold := was.cold + [Item(e, heat(e))])
           else was
  {
    var next := entries[..k + 1];
    assert next[..k] == entries[..k] && next[k] == entries[k];
    if entries[k].group == g {
      var members := Members(entries[..k], g);
      var more := Members(next, g);
      assert more == members + [entries[k].expert];
      assert more[..|more| - 1] == members;
      LastMember(more, heat, state);
    } else {
      assert Members(next, g) == Members(entries[..k], g);
    }
  }

  lemma LastMember(members: seq<Expert>, heat: Expert -> real, state: Expert -> int)
    requires |members| > 0
    ensures var front, e := members[..|members| - 1], members[|members| - 1];
      && Hot(members, heat, state)
        == (if state(e) == 1 then Hot(front, heat, state) + [Item(e, heat(e))] else Hot(front, heat, state))
      && Cold(members, heat, state)
           == (if state(e) == 0 && heat(e) >= 2.0 then Cold(front, heat, state) + [Item(e, heat(e))]
             else Cold(front, heat, state))
  {
  }

  method Buckets(entries: seq<Entry>, heat: Expert -> real, state: Expert -> int) returns (groups: map<nat, Bucket>)
    ensures forall g :: g in groups ==> groups[g] == BucketOf(entries, g, heat, state)
    ensures forall g :: g !in groups ==> BucketOf(entries, g, heat, state) == Bucket([], [])
    ensures forall g :: g in groups ==> g < GroupsIn(entries)
  {
    hide BucketOf;
    groups := map[];
    NoEntries(entries, heat, state);
    for k := 0 to |entries|
      invariant forall g :: g in groups ==> groups[g] == BucketOf(entries[..k], g, heat, state)
      invariant forall g :: g !in groups ==> BucketOf(entries[..k], g, heat, state) == Bucket([], [])
      invariant forall g :: g in groups ==> g < GroupsIn(entries)
    {
      var entry := entries[k];
      var e := entry.expert;
      forall g: nat {
        NextEntry(entries, k, g, heat, state);
      }
      var group := if entry.group in groups then groups[entry.group] else Bucket([], []);
      var item := Item(e, heat(e));
      if state(e) == 1 {
        group := group.(hot := group.hot + [item]);
      } else if state(e) == 0 && item.heat >= 2.0 {
        group := group.(cold := group.cold + [item]);
      }
      groups := groups[entry.group := group];
    }
    assert entries[..|entries|] == entries;
  }

  lemma NoEntries(entries: seq<Entry>, heat: Expert -> real, state: Expert -> int)
    ensures forall g :: BucketOf(entries[..0], g, heat, state) == Bucket([], [])
  {
  }

  lemma EmptyBucket(entries: seq<Entry>, g: nat, heat: Expert -> real, state: Expert -> int)
    requires BucketOf(entries, g, heat, state) == Bucket([], [])
    ensures GroupPairs(Members(entries, g), heat, state) == []
  {
  }

  // Buckets rebuilt from scratch, groups in key order.
  method Reference(entries: seq<Entry>, heat: Expert -> real, state: Expert -> int) returns (pairs: seq<Pair>)
    ensures pairs == Selected(entries, heat, state)
  {
    hide GroupPairs, Members, SortItems;
    var groups := Buckets(entries, heat, state);
    pairs := [];
    for g := 0 to GroupsIn(entries)
      invariant pairs == PairsUpTo(ByGroup(entries), heat, state, g)
    {
      if g in groups {
        GroupPairsIs(entries, g, heat, state);
        pairs := PairUp(SortItems(groups[g].cold, true), SortItems(groups[g].hot, false), pairs);
      } else {
        EmptyBucket(entries, g, heat, state);
      }
    }
    pairs := SortPairs(pairs);
  }

  lemma GroupPairsIs(entries: seq<Entry>, g: nat, heat: Expert -> real, state: Expert -> int)
    ensures var b := BucketOf(entries, g, heat, state);
            var cold, hot := SortItems(b.cold, true), SortItems(b.hot, false);
      GroupPairs(Members(entries, g), heat, state) == FirstPairs(cold, hot, SwapCount(cold, hot, 0))
  {
  }

  // ----- the ranker, with its groups fixed at construction -----

  // result.at(item.group).push_back: refuses a group out of range.
  method Layout(entries: seq<Entry>, groups: nat) returns (layout: Option<seq<seq<Expert>>>)
    ensures layout.Some? <==> forall k :: 0 <= k < |entries| ==> entries[k].group < groups
    ensures layout.Some? ==> |layout.value| == groups && forall g :: 0 <= g < groups ==>
      layout.value[g] == Members(entries, g)
  {
    var result := seq(groups, i => []);
    for k := 0 to |entries|
      invariant |result| == groups
      invariant forall j :: 0 <= j < k ==> entries[j].group < groups
      invariant forall g :: 0 <= g < groups ==> result[g] == Members(entries[..k], g)
    {
      var entry := entries[k];
      if entry.group >= groups {
        return None;
      }
      assert entries[..k + 1][..k] == entries[..k];
      result := result[entry.group := result[entry.group] + [entry.expert]];
    }
    assert entries[..|entries|] == entries;
    layout := Some(result);
  }

  predicate ValidExpert(e: Expert) { e.bundle >= 0 && e.expert >= 0 && -1 <= e.projection <= 2 }

  predicate AllValid(members: seq<Expert>) { forall k :: 0 <= k < |members| ==> ValidExpert(members[k]) }

  class Ranker {
    const groups: seq<seq<Expert>>
    var pairs: seq<Pair>

    // What is left of the source's constructor once its checks have passed.
    constructor (layout: seq<seq<Expert>>)
      ensures groups == layout && pairs == []
    {
      groups := layout;
      pairs := [];
    }

    // Refuses a layout with an expert out of range, group by group.
    static method Make(layout: seq<seq<Expert>>) returns (r: Ranker?)
      ensures r == null <==> exists g :: 0 <= g < |layout| && !AllValid(layout[g])
      ensures r != null ==> fresh(r) && r.groups == layout && r.pairs == []
    {
      for g := 0 to |layout|
        invariant forall j :: 0 <= j < g ==> AllValid(layout[j])
      {
        for k := 0 to |layout[g]|
          invariant AllValid(layout[g][..k])
        {
          if !ValidExpert(layout[g][k]) {
            return null;
          }
        }
        assert layout[g][..|layout[g]|] == layout[g];
      }
      r := new Ranker(layout);
    }

    // Whatever an earlier ranking left behind, the result depends on heat and state alone.
    method Rank(heat: Expert -> real, state: Expert -> int)
      modifies this
      ensures pairs == SortPairs(PairsUpTo(InLayout(groups), heat, state, |groups|))
    {
      hide GroupPairs, SortItems;
      pairs := [];
      for g := 0 to |groups|
        invariant pairs == PairsUpTo(InLayout(groups), heat, state, g)
      {
        var cold, hot := Fill(groups[g], heat, state);
        pairs := PairUp(SortItems(cold, true), SortItems(hot, false), pairs);
        PairsOfGroup(groups[g], heat, state);
      }
      pairs := SortPairs(pairs);
    }
  }

  function InLayout(groups: seq<seq<Expert>>): nat -> seq<Expert> { (g: nat) => if g < |groups| then groups[g] else [] }

  lemma PairsOfGroup(members: seq<Expert>, heat: Expert -> real, state: Expert -> int)
    ensures var cold, hot := SortItems(Cold(members, heat, state), true), SortItems(Hot(members, heat, state), false);
      GroupPairs(members, heat, state) == FirstPairs(cold, hot, SwapCount(cold, hot, 0))
  {
  }

  method Fill(members: seq<Expert>, heat: Expert -> real, state: Expert -> int)
      returns (cold: seq<Item>, hot: seq<Item>)
    ensures cold == Cold(members, heat, state) && hot == Hot(members, heat, state)
  {
    cold, hot := [], [];
    for k := 0 to |members|
      invariant cold == Cold(members[..k], heat, state) && hot == Hot(members[..k], heat, state)
    {
      var e := members[k];
      assert members[..k + 1][..k] == members[..k];
      if state(e) == 1 {
        hot := hot + [Item(e, heat(e))];
      } else if state(e) == 0 && heat(e) >= 2.0 {
        cold := cold + [Item(e, heat(e))];
      }
    }
    assert members[..|members|] == members;
  }

  // The ranker selects exactly the reference pairs, in the same order, for any number of groups the
  // entries fit in.
  lemma {:induction false} SamePairs(entries: seq<Entry>, layout: seq<seq<Expert>>, heat: Expert -> real,
      state: Expert -> int, n: nat)
    requires |layout| >= GroupsIn(entries) && n <= |layout|
    requires forall g :: 0 <= g < |layout| ==> layout[g] == Members(entries, g)
    ensures PairsUpTo(InLayout(layout), heat, state, n)
         == PairsUpTo(ByGroup(entries), heat, state, Smaller(n, GroupsIn(entries)))
  {
    hide GroupPairs, Members, GroupsIn, PairsUpTo;
    if n == 0 {
      NoGroups(InLayout(layout), heat, state);
      NoGroups(ByGroup(entries), heat, state);
    } else {
      SamePairs(entries, layout, heat, state, n - 1);
      NextGroup(InLayout(layout), heat, state, n - 1);
      assert InLayout(layout)(n - 1) == Members(entries, n - 1);
      if n <= GroupsIn(entries) {
        NextGroup(ByGroup(entries), heat, state, n - 1);
      } else {
        NoMembers(entries, n - 1);
        NoMembersNoPairs(heat, state);
      }
    }
  }

  lemma NoGroups(groups: nat -> seq<Expert>, heat: Expert -> real, state: Expert -> int)
    ensures PairsUpTo(groups, heat, state, 0) == []
  {
  }

  lemma NextGroup(groups: nat -> seq<Expert>, heat: Expert -> real, state: Expert -> int, n: nat)
    ensures PairsUpTo(groups, heat, state, n + 1)
      == PairsUpTo(groups, heat, state, n) + GroupPairs(groups(n), heat, state)
  {
  }

  lemma {:induction false} NoMembers(entries: seq<Entry>, g: nat)
    requires g >= GroupsIn(entries)
    ensures Members(entries, g) == []
  {
    if |entries| > 0 { NoMembers(entries[..|entries| - 1], g); }
  }

  lemma NoMembersNoPairs(heat: Expert -> real, state: Expert -> int)
    ensures GroupPairs([], heat, state) == []
  {
  }

  lemma RankerMeetsReference(entries: seq<Entry>, layout: seq<seq<Expert>>, heat: Expert -> real, state: Expert -> int)
    requires forall k :: 0 <= k < |entries| ==> entries[k].group < |layout|
    requires forall g :: 0 <= g < |layout| ==> layout[g] == Members(entries, g)
    ensures SortPairs(PairsUpTo(InLayout(layout), heat, state, |layout|)) == Selected(entries, heat, state)
  {
    hide PairsUpTo, SortPairs;
    GroupsFit(entries, |layout|);
    SamePairs(entries, layout, heat, state, |layout|);
  }

  lemma {:induction false} GroupsFit(entries: seq<Entry>, n: nat)
    requires forall k :: 0 <= k < |entries| ==> entries[k].group < n
    ensures GroupsIn(entries) <= n
  {
    if |entries| > 0 { GroupsFit(entries[..|entries| - 1], n); }
  }
}
