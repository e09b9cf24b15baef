// Applying the selected swaps: the resident set keeps its size, gains exactly the pairs' heat, and
// leaves nothing worth swapping.
module ResidencySwaps {
  import opened Numeric
  import opened ResidencyRank
  import opened ResidencySelect

  // Where each expert is once the pairs are applied.
  function After(state: Expert -> int, pairs: seq<Pair>): Expert -> int {
    e => if e in Incoming(pairs) then 1 else if e in Outgoing(pairs) then 0 else state(e)
  }

  // ----- conservation -----

  function Ones(members: seq<Expert>, state: Expert -> int): (r: seq<int>)
    ensures |r| == |members| && forall i :: 0 <= i < |r| ==> r[i] == if Resident(members[i], state) then 1 else 0
  {
    seq(|members|, i requires 0 <= i < |members| => if Resident(members[i], state) then 1 else 0)
  }

  function ResidentHeats(members: seq<Expert>, heat: Expert -> real, state: Expert -> int): (r: seq<real>)
    ensures |r| == |members|
    ensures forall i :: 0 <= i < |r| ==> r[i] == if Resident(members[i], state) then heat(members[i]) else 0.0
  {
    seq(|members|, i requires 0 <= i < |members| => if Resident(members[i], state) then heat(members[i]) else 0.0)
  }

  function TotalGain(pairs: seq<Pair>): real {
    if |pairs| == 0 then 0.0 else TotalGain(pairs[..|pairs| - 1]) + pairs[|pairs| - 1].gain
  }

  // One swap moves one expert in and one out.
  lemma OneSwap(members: seq<Expert>, heat: Expert -> real, was: Expert -> int, now: Expert -> int, i: nat, j: nat)
    requires i < |members| && j < |members| && i != j
    requires was(members[i]) == 0 && now(members[i]) == 1 && was(members[j]) == 1 && now(members[j]) == 0
    requires forall k :: 0 <= k < |members| && k != i && k != j ==> now(members[k]) == was(members[k])
    ensures SumInt(Ones(members, now)) == SumInt(Ones(members, was))
    ensures Sum(ResidentHeats(members, heat, now))
      == Sum(ResidentHeats(members, heat, was)) + heat(members[i]) - heat(members[j])
  {
    hide Sum, SumInt;
    var ones, heats := Ones(members, was), ResidentHeats(members, heat, was);
    assert Ones(members, now) == ones[i := 1][j := 0];
    SumIntUpdate(ones, i, 1);
    SumIntUpdate(ones[i := 1], j, 0);
    assert ResidentHeats(members, heat, now) == heats[i := heat(members[i])][j := 0.0];
    SumUpdate(heats, i, heat(members[i]));
    SumUpdate(heats[i := heat(members[i])], j, 0.0);
  }

  lemma FrontSwaps(members: seq<Expert>, heat: Expert -> real, state: Expert -> int, pairs: seq<Pair>)
    requires SwapSet(members, heat, state, pairs) && |pairs| > 0
    ensures SwapSet(members, heat, state, pairs[..|pairs| - 1])
    ensures var n := |pairs| - 1;
      pairs[n].incoming !in Incoming(pairs[..n]) && pairs[n].outgoing !in Outgoing(pairs[..n])
    ensures var n := |pairs| - 1;
      && Incoming(pairs) == Incoming(pairs[..n]) + [pairs[n].incoming]
      && Outgoing(pairs) == Outgoing(pairs[..n]) + [pairs[n].outgoing]
  {
    hide Legal;
    var n := |pairs| - 1;
    assert Incoming(pairs) == Incoming(pairs[..n]) + [pairs[n].incoming];
    assert Outgoing(pairs) == Outgoing(pairs[..n]) + [pairs[n].outgoing];
    assert forall k :: 0 <= k < n ==>
      Incoming(pairs)[k] != Incoming(pairs)[n] && Outgoing(pairs)[k] != Outgoing(pairs)[n];
  }

  lemma SidesDiffer(members: seq<Expert>, heat: Expert -> real, state: Expert -> int, pairs: seq<Pair>)
    requires SwapSet(members, heat, state, pairs)
    ensures forall e :: e in Incoming(pairs) ==> state(e) == 0 && e in members
    ensures forall e :: e in Outgoing(pairs) ==> state(e) == 1 && e in members
  {
  }

  // Any one-to-one set of legal swaps keeps the group's resident count and adds exactly its gains to
  // the resident heat.
  lemma {:induction false} SwapsConserve(members: seq<Expert>, heat: Expert -> real, state: Expert -> int,
      pairs: seq<Pair>)
    requires Distinct(members) && SwapSet(members, heat, state, pairs)
    ensures SumInt(Ones(members, After(state, pairs))) == SumInt(Ones(members, state))
    ensures Sum(ResidentHeats(members, heat, After(state, pairs)))
      == Sum(ResidentHeats(members, heat, state)) + TotalGain(pairs)
  {
    hide Sum, SumInt, SwapSet;
    if |pairs| == 0 {
      assert Ones(members, After(state, pairs)) == Ones(members, state);
      assert ResidentHeats(members, heat, After(state, pairs)) == ResidentHeats(members, heat, state);
    } else {
      var n := |pairs| - 1;
      FrontSwaps(members, heat, state, pairs);
      SwapsConserve(members, heat, state, pairs[..n]);
      LastSwap(members, heat, state, pairs);
    }
  }

  lemma LastSwap(members: seq<Expert>, heat: Expert -> real, state: Expert -> int, pairs: seq<Pair>)
    requires Distinct(members) && SwapSet(members, heat, state, pairs) && |pairs| > 0
    ensures var was, now := After(state, pairs[..|pairs| - 1]), After(state, pairs);
      && SumInt(Ones(members, now)) == SumInt(Ones(members, was))
      && Sum(ResidentHeats(members, heat, now)) == Sum(ResidentHeats(members, heat, was)) + pairs[|pairs| - 1].gain
  {
    hide Sum, SumInt, Ones, ResidentHeats, SwapSet, Legal;
    var n := |pairs| - 1;
    var was, now := After(state, pairs[..n]), After(state, pairs);
    LastSides(members, heat, state, pairs);
    var i: nat :| i < |members| && members[i] == pairs[n].incoming;
    var j: nat :| j < |members| && members[j] == pairs[n].outgoing;
    forall k | 0 <= k < |members| && k != i && k != j
      ensures now(members[k]) == was(members[k])
    {
      assert members[k] != members[i] && members[k] != members[j];
    }
    OneSwap(members, heat, was, now, i, j);
  }

  // The last pair's two experts change sides, everyone else stays.
  lemma LastSides(members: seq<Expert>, heat: Expert -> real, state: Expert -> int, pairs: seq<Pair>)
    requires SwapSet(members, heat, state, pairs) && |pairs| > 0
    ensures var p, was, now := pairs[|pairs| - 1], After(state, pairs[..|pairs| - 1]), After(state, pairs);
      && p.incoming in members && p.outgoing in members && p.gain == heat(p.incoming) - heat(p.outgoing)
      && was(p.incoming) == 0 && now(p.incoming) == 1 && was(p.outgoing) == 1 && now(p.outgoing) == 0
      && forall e :: e != p.incoming && e != p.outgoing ==> now(e) == was(e)
  {
    var n := |pairs| - 1;
    FrontSwaps(members, heat, state, pairs);
    SidesDiffer(members, heat, state, pairs);
    SidesDiffer(members, heat, state, pairs[..n]);
    assert Legal(members, heat, state, pairs[n]);
    hide SwapSet, Legal;
    assert pairs[n].incoming in Incoming(pairs) && pairs[n].outgoing in Outgoing(pairs);
  }

  // ----- nothing left to swap -----

  lemma StoppedEarly(cold: seq<Item>, hot: seq<Item>, i: nat, j: nat)
    requires InOrder(cold, true) && InOrder(hot, false) && i < |cold| && j < |hot|
    ensures var m := SwapCount(cold, hot, 0);
      && (i >= m && j >= m ==> cold[i].heat - hot[j].heat < 1.5)
      && (i >= m && j < m ==> cold[i].heat <= cold[j].heat)
      && (i < m && j >= m ==> hot[i].heat <= hot[j].heat)
      && (i < m && j < m ==> hot[i].heat + 1.5 <= cold[j].heat)
  {
    hide InOrder;
    var m := SwapCount(cold, hot, 0);
    if i >= m && j >= m {
      HeatsFollow(cold, true, m, i);
      HeatsFollow(hot, false, m, j);
    } else if i >= m {
      HeatsFollow(cold, true, j, i);
    } else if j >= m {
      HeatsFollow(hot, false, i, j);
    } else if i <= j {
      HeatsFollow(hot, false, i, j);
    } else {
      HeatsFollow(cold, true, j, i);
    }
  }

  // Where an absent expert of the new state stood: an unpaired cold item or a paired hot one.
  lemma AbsentNow(members: seq<Expert>, heat: Expert -> real, state: Expert -> int, e: Expert)
      returns (i: nat, wasCold: bool)
    requires Distinct(members) && e in members && Wanted(e, heat, After(state, GroupPairs(members, heat, state)))
    ensures var cold, hot := SortedCold(members, heat, state), SortedHot(members, heat, state);
            var m := SwapCount(cold, hot, 0);
      if wasCold then m <= i < |cold| && cold[i] == Item(e, heat(e)) else i < m && hot[i] == Item(e, heat(e))
  {
    hide SortItems, Cold, Hot;
    var cold, hot := SortedCold(members, heat, state), SortedHot(members, heat, state);
    var pairs := GroupPairs(members, heat, state);
    SortedMembers(members, heat, state);
    if e in Outgoing(pairs) {
      wasCold := false;
      i :| i < |pairs| && Outgoing(pairs)[i] == e;
      assert hot[i] in hot;
    } else {
      wasCold := true;
      assert Item(e, heat(e)) in cold;
      i :| i < |cold| && cold[i] == Item(e, heat(e));
      assert forall k :: 0 <= k < |pairs| ==> Incoming(pairs)[k] != e;
    }
  }

  lemma ResidentNow(members: seq<Expert>, heat: Expert -> real, state: Expert -> int, e: Expert)
      returns (j: nat, wasHot: bool)
    requires Distinct(members) && e in members && Resident(e, After(state, GroupPairs(members, heat, state)))
    ensures var cold, hot := SortedCold(members, heat, state), SortedHot(members, heat, state);
            var m := SwapCount(cold, hot, 0);
      if wasHot then m <= j < |hot| && hot[j] == Item(e, heat(e)) else j < m && cold[j] == Item(e, heat(e))
  {
    hide SortItems, Cold, Hot;
    var cold, hot := SortedCold(members, heat, state), SortedHot(members, heat, state);
    var pairs := GroupPairs(members, heat, state);
    SortedMembers(members, heat, state);
    if e in Incoming(pairs) {
      wasHot := false;
      j :| j < |pairs| && Incoming(pairs)[j] == e;
      assert cold[j] in cold;
    } else {
      wasHot := true;
      assert Item(e, heat(e)) in hot;
      j :| j < |hot| && hot[j] == Item(e, heat(e));
      assert forall k :: 0 <= k < |pairs| ==> Outgoing(pairs)[k] != e;
    }
  }

  lemma NoGain(members: seq<Expert>, heat: Expert -> real, state: Expert -> int, e: Expert, f: Expert)
    requires Distinct(members) && e in members && f in members
    requires Wanted(e, heat, After(state, GroupPairs(members, heat, state)))
    requires Resident(f, After(state, GroupPairs(members, heat, state)))
    ensures heat(e) - heat(f) < 1.5
  {
    hide SortItems, Cold, Hot, GroupPairs, SortedCold, SortedHot, After;
    var cold, hot := SortedCold(members, heat, state), SortedHot(members, heat, state);
    SortedMembers(members, heat, state);
    var i, wasCold := AbsentNow(members, heat, state, e);
    var j, wasHot := ResidentNow(members, heat, state, f);
    if wasCold || wasHot {
      FewerBoth(cold, hot, i, wasCold, j, wasHot);
    } else {
      StoppedEarly(cold, hot, i, j);
    }
  }

  lemma FewerBoth(cold: seq<Item>, hot: seq<Item>, i: nat, wasCold: bool, j: nat, wasHot: bool)
    requires InOrder(cold, true) && InOrder(hot, false) && (wasCold || wasHot)
    requires var m := SwapCount(cold, hot, 0); if wasCold then m <= i < |cold| else i < m
    requires var m := SwapCount(cold, hot, 0); if wasHot then m <= j < |hot| else j < m
    ensures (if wasCold then cold[i].heat else hot[i].heat) - (if wasHot then hot[j].heat else cold[j].heat) < 1.5
  {
    hide InOrder;
    StoppedEarly(cold, hot, i, j);
  }

  lemma NoPairsWithout(members: seq<Expert>, heat: Expert -> real, state: Expert -> int)
    requires forall e, f :: e in members && f in members && Wanted(e, heat, state) && Resident(f, state) ==>
      heat(e) - heat(f) < 1.5
    ensures GroupPairs(members, heat, state) == []
  {
    hide SortItems, Cold, Hot, Wanted, Resident, InOrder;
    var cold, hot := SortedCold(members, heat, state), SortedHot(members, heat, state);
    SortedMembers(members, heat, state);
    if |cold| > 0 && |hot| > 0 {
      assert cold[0] in cold && hot[0] in hot;
    }
  }

  // With unchanged heat the group has no pairs left.
  lemma GroupSettles(members: seq<Expert>, heat: Expert -> real, state: Expert -> int)
    requires Distinct(members)
    ensures GroupPairs(members, heat, After(state, GroupPairs(members, heat, state))) == []
  {
    hide GroupPairs, Wanted, Resident, After;
    var now := After(state, GroupPairs(members, heat, state));
    forall e, f | e in members && f in members && Wanted(e, heat, now) && Resident(f, now)
      ensures heat(e) - heat(f) < 1.5
    {
      NoGain(members, heat, state, e, f);
    }
    NoPairsWithout(members, heat, now);
  }

  // ----- all groups together -----

  predicate AllDistinct(entries: seq<Entry>) {
    forall i, j :: 0 <= i < j < |entries| ==> entries[i].expert != entries[j].expert
  }

  lemma {:induction false} MembersAre(entries: seq<Entry>, g: nat)
    ensures forall e :: e in Members(entries, g) <==> exists k :: 0 <= k < |entries| && entries[k] == Entry(e, g)
  {
    if |entries| > 0 {
      var n := |entries| - 1;
      MembersAre(entries[..n], g);
      forall e
        ensures e in Members(entries, g) <==> exists k :: 0 <= k < |entries| && entries[k] == Entry(e, g)
      {
        if e in Members(entries[..n], g) {
          var k :| 0 <= k < n && entries[..n][k] == Entry(e, g);
          assert entries[k] == Entry(e, g);
        }
        if k :| 0 <= k < |entries| && entries[k] == Entry(e, g) {
          if k < n { assert entries[..n][k] == Entry(e, g); }
        }
      }
    }
  }

  lemma {:induction false} MembersDistinct(entries: seq<Entry>, g: nat)
    requires AllDistinct(entries)
    ensures Distinct(Members(entries, g))
  {
    if |entries| > 0 {
      var n := |entries| - 1;
      MembersDistinct(entries[..n], g);
      MembersAre(entries[..n], g);
      assert forall e :: e in Members(entries[..n], g) ==> e != entries[n].expert;
    }
  }

  lemma OneGroup(entries: seq<Entry>, g: nat, h: nat, e: Expert)
    requires AllDistinct(entries) && e in Members(entries, g) && e in Members(entries, h)
    ensures g == h
  {
    MembersAre(entries, g);
    MembersAre(entries, h);
  }

  lemma {:induction false} PairsAre(groups: nat -> seq<Expert>, heat: Expert -> real, state: Expert -> int, n: nat)
    ensures forall p :: p in PairsUpTo(groups, heat, state, n) <==>
      exists g: nat :: g < n && p in GroupPairs(groups(g), heat, state)
  {
    hide GroupPairs;
    if n > 0 { PairsAre(groups, heat, state, n - 1); }
  }

  lemma SelectedAre(entries: seq<Entry>, heat: Expert -> real, state: Expert -> int)
    ensures forall p ::
      p in Selected(entries, heat, state) <==>
        exists g: nat :: g < GroupsIn(entries) && p in GroupPairs(ByGroup(entries)(g), heat, state)
  {
    hide GroupPairs, SortPairs, PairsUpTo;
    var all := PairsUpTo(ByGroup(entries), heat, state, GroupsIn(entries));
    PairsAre(ByGroup(entries), heat, state, GroupsIn(entries));
    SortPairsSorts(all);
    forall p
      ensures p in Selected(entries, heat, state) <==> p in all
    {
      assert p in multiset(SortPairs(all)) <==> p in multiset(all);
    }
  }

  lemma InSides(pairs: seq<Pair>, e: Expert)
    ensures e in Incoming(pairs) <==> exists p :: p in pairs && p.incoming == e
    ensures e in Outgoing(pairs) <==> exists p :: p in pairs && p.outgoing == e
  {
    if e in Incoming(pairs) {
      var k :| 0 <= k < |pairs| && Incoming(pairs)[k] == e;
      assert pairs[k] in pairs;
    }
    if e in Outgoing(pairs) {
      var k :| 0 <= k < |pairs| && Outgoing(pairs)[k] == e;
      assert pairs[k] in pairs;
    }
    if p :| p in pairs && p.incoming == e {
      var k :| 0 <= k < |pairs| && pairs[k] == p;
      assert Incoming(pairs)[k] == e;
    }
    if p :| p in pairs && p.outgoing == e {
      var k :| 0 <= k < |pairs| && pairs[k] == p;
      assert Outgoing(pairs)[k] == e;
    }
  }

  lemma PairMembers(members: seq<Expert>, heat: Expert -> real, state: Expert -> int, p: Pair)
    requires Distinct(members) && p in GroupPairs(members, heat, state)
    ensures p.incoming in members && p.outgoing in members
  {
    hide GroupPairs;
    GroupIsSwapSet(members, heat, state);
    var k :| 0 <= k < |GroupPairs(members, heat, state)| && GroupPairs(members, heat, state)[k] == p;
    assert Legal(members, heat, state, p);
  }

  // Inside one group only that group's own pairs matter.
  lemma OwnPairsOnly(entries: seq<Entry>, heat: Expert -> real, state: Expert -> int, g: nat, e: Expert)
    requires AllDistinct(entries) && g < GroupsIn(entries) && e in Members(entries, g)
    ensures After(state, Selected(entries, heat, state))(e)
      == After(state, GroupPairs(Members(entries, g), heat, state))(e)
  {
    hide GroupPairs, Members, GroupsIn, Selected, AllDistinct;
    var all, own := Selected(entries, heat, state), GroupPairs(Members(entries, g), heat, state);
    SelectedAre(entries, heat, state);
    InSides(all, e);
    InSides(own, e);
    assert forall p :: p in own ==> p in all by {
      assert ByGroup(entries)(g) == Members(entries, g);
    }
    forall p | p in all && (p.incoming == e || p.outgoing == e)
      ensures p in own
    {
      var h: nat :| h < GroupsIn(entries) && p in GroupPairs(ByGroup(entries)(h), heat, state);
      MembersDistinct(entries, h);
      PairMembers(Members(entries, h), heat, state, p);
      OneGroup(entries, g, h, e);
    }
  }

  predicate Agree(members: seq<Expert>, s: Expert -> int, t: Expert -> int) {
    forall k :: 0 <= k < |members| ==> s(members[k]) == t(members[k])
  }

  lemma {:induction false} SameState(members: seq<Expert>, heat: Expert -> real, s: Expert -> int, t: Expert -> int)
    requires Agree(members, s, t)
    ensures Cold(members, heat, s) == Cold(members, heat, t) && Hot(members, heat, s) == Hot(members, heat, t)
  {
    if |members| > 0 { SameState(members[..|members| - 1], heat, s, t); }
  }

  lemma SameGroup(members: seq<Expert>, heat: Expert -> real, s: Expert -> int, t: Expert -> int)
    requires Agree(members, s, t)
    ensures GroupPairs(members, heat, s) == GroupPairs(members, heat, t)
    ensures Ones(members, s) == Ones(members, t) && ResidentHeats(members, heat, s) == ResidentHeats(members, heat, t)
  {
    hide Cold, Hot, SortItems;
    SameState(members, heat, s, t);
  }

  lemma GroupAgrees(entries: seq<Entry>, heat: Expert -> real, state: Expert -> int, g: nat)
    requires AllDistinct(entries) && g < GroupsIn(entries)
    ensures Agree(Members(entries, g), After(state, Selected(entries, heat, state)),
      After(state, GroupPairs(Members(entries, g), heat, state)))
  {
    hide GroupPairs, Members, GroupsIn, Selected, AllDistinct, After;
    forall k | 0 <= k < |Members(entries, g)|
      ensures After(state, Selected(entries, heat, state))(Members(entries, g)[k])
           == After(state, GroupPairs(Members(entries, g), heat, state))(Members(entries, g)[k])
    {
      OwnPairsOnly(entries, heat, state, g, Members(entries, g)[k]);
    }
  }

  // Applying the whole selection keeps every group's resident count and raises its resident heat by
  // its own pairs' gains.
  lemma SelectionConserves(entries: seq<Entry>, heat: Expert -> real, state: Expert -> int, g: nat)
    requires AllDistinct(entries) && g < GroupsIn(entries)
    ensures var members, now := Members(entries, g), After(state, Selected(entries, heat, state));
      && SumInt(Ones(members, now)) == SumInt(Ones(members, state))
      && Sum(ResidentHeats(members, heat, now))
           == Sum(ResidentHeats(members, heat, state)) + TotalGain(GroupPairs(members, heat, state))
  {
    hide GroupPairs, Members, GroupsIn, Selected, AllDistinct, After, Sum, SumInt, Ones, ResidentHeats, TotalGain,
      Agree, Distinct, SwapSet;
    var members := Members(entries, g);
    MembersDistinct(entries, g);
    GroupIsSwapSet(members, heat, state);
    SwapsConserve(members, heat, state, GroupPairs(members, heat, state));
    GroupAgrees(entries, heat, state, g);
    SameGroup(members, heat, After(state, Selected(entries, heat, state)),
      After(state, GroupPairs(members, heat, state)));
  }

  // Ranking again with unchanged heat selects nothing.
  lemma SelectionSettles(entries: seq<Entry>, heat: Expert -> real, state: Expert -> int)
    requires AllDistinct(entries)
    ensures Selected(entries, heat, After(state, Selected(entries, heat, state))) == []
  {
    hide GroupPairs, Members, GroupsIn, Selected, AllDistinct, After, Agree, Distinct;
    var now := After(state, Selected(entries, heat, state));
    forall g: nat | g < GroupsIn(entries)
      ensures GroupPairs(ByGroup(entries)(g), heat, now) == []
    {
      var members := Members(entries, g);
      assert ByGroup(entries)(g) == members;
      MembersDistinct(entries, g);
      GroupSettles(members, heat, state);
      GroupAgrees(entries, heat, state, g);
      SameGroup(members, heat, now, After(state, GroupPairs(members, heat, state)));
    }
    SelectedAre(entries, heat, now);
    Nothing(Selected(entries, heat, now));
  }

  lemma Nothing(pairs: seq<Pair>)
    ensures pairs != [] ==> exists p :: p in pairs
  {
    if pairs != [] {
      assert pairs[0] in pairs;
    }
  }

  // ----- the resident table -----

  // Three projections for every expert of every bundle; whole bundles move with projection -1.
  class ResidentTable {
    const experts: nat
    const projections: bool
    var resident: seq<seq<int>>

    ghost predicate Valid()
      reads this
    {
      Triples(resident)
    }

    constructor (experts: nat, projections: bool, resident: seq<seq<int>>)
      requires Triples(resident)
      ensures Valid() && this.experts == experts && this.projections == projections && this.resident == resident
    {
      this.experts, this.projections, this.resident := experts, projections, resident;
    }

    // Every pair moves its incoming expert in and its outgoing one out.
    method Apply(pairs: seq<Pair>)
      requires Valid()
      requires forall k :: 0 <= k < |pairs| ==>
        InTable(|resident|, experts, projections, pairs[k].incoming)
        && InTable(|resident|, experts, projections, pairs[k].outgoing)
      requires forall i, j :: 0 <= i < |pairs| && 0 <= j < |pairs| ==> pairs[i].incoming != pairs[j].outgoing
      modifies this
      ensures Valid() && |resident| == |old(resident)|
      ensures forall e :: InTable(|resident|, experts, projections, e) ==>
        StateIn(resident, experts, e) == After(StateOf(old(resident), experts), pairs)(e)
    {
      ghost var before := resident;
      NoneMoved(before, experts, projections, pairs);
      for k := 0 to |pairs|
        invariant Valid() && |resident| == |before|
        invariant Moved(before, resident, experts, projections, pairs, k)
      {
        var p := pairs[k];
        ghost var was := resident;
        var into, out := CellOf(experts, p.incoming), CellOf(experts, p.outgoing);
        if p.incoming.projection < 0 {
          resident := resident[into := [1, 1, 1]];
          resident := resident[out := [0, 0, 0]];
        } else {
          resident := resident[into := resident[into][p.incoming.projection := 1]];
          resident := resident[out := resident[out][p.outgoing.projection := 0]];
        }
        assert resident == Put(Put(was, experts, p.incoming, 1), experts, p.outgoing, 0);
        MovedOne(before, was, experts, projections, pairs, k);
      }
      assert pairs[..|pairs|] == pairs;
    }

    // One window: select on the table's own state, then apply. Every group keeps its resident count
    // and gains its pairs' heat, and selecting again on the new table gives nothing.
    method Exchange(entries: seq<Entry>, heat: Expert -> real) returns (pairs: seq<Pair>)
      requires Valid() && AllDistinct(entries)
      requires forall k :: 0 <= k < |entries| ==> InTable(|resident|, experts, projections, entries[k].expert)
      modifies this
      ensures Valid() && |resident| == |old(resident)|
      ensures pairs == Selected(entries, heat, StateOf(old(resident), experts))
      ensures forall e :: InTable(|resident|, experts, projections, e) ==>
        StateIn(resident, experts, e) == After(StateOf(old(resident), experts), pairs)(e)
      ensures Selected(entries, heat, StateOf(resident, experts)) == []
      ensures forall g: nat :: g < GroupsIn(entries) ==>
        Conserved(Members(entries, g), heat, StateOf(old(resident), experts), StateOf(resident, experts))
    {
      hide Selected, After, StateIn, GroupsIn, Conserved;
      ghost var was := StateOf(resident, experts);
      pairs := Reference(entries, heat, StateOf(resident, experts));
      SelectedFits(entries, heat, was, |resident|, experts, projections);
      Apply(pairs);
      WindowSettles(entries, heat, was, StateOf(resident, experts));
    }
  }

  // The resident count is kept and the resident heat rises by the group's own gains.
  ghost predicate Conserved(members: seq<Expert>, heat: Expert -> real, was: Expert -> int, now: Expert -> int) {
    && SumInt(Ones(members, now)) == SumInt(Ones(members, was))
    && Sum(ResidentHeats(members, heat, now))
      == Sum(ResidentHeats(members, heat, was)) + TotalGain(GroupPairs(members, heat, was))
  }

  // A selected pair is a legal swap of its group.
  lemma SelectedLegal(entries: seq<Entry>, heat: Expert -> real, state: Expert -> int, p: Pair)
    requires AllDistinct(entries) && p in Selected(entries, heat, state)
    ensures state(p.incoming) == 0 && state(p.outgoing) == 1
    ensures exists k :: 0 <= k < |entries| && entries[k].expert == p.incoming
    ensures exists k :: 0 <= k < |entries| && entries[k].expert == p.outgoing
  {
    hide GroupPairs, Members, GroupsIn, Selected, AllDistinct;
    SelectedAre(entries, heat, state);
    var g: nat :| g < GroupsIn(entries) && p in GroupPairs(ByGroup(entries)(g), heat, state);
    var members := Members(entries, g);
    var pairs := GroupPairs(members, heat, state);
    MembersDistinct(entries, g);
    GroupIsSwapSet(members, heat, state);
    var i :| 0 <= i < |pairs| && pairs[i] == p;
    assert Legal(members, heat, state, pairs[i]);
    MembersAre(entries, g);
  }

  // So the selection is what the table asks of the pairs it applies.
  lemma SelectedFits(entries: seq<Entry>, heat: Expert -> real, state: Expert -> int, size: nat, experts: nat,
      projections: bool)
    requires AllDistinct(entries)
    requires forall k :: 0 <= k < |entries| ==> InTable(size, experts, projections, entries[k].expert)
    ensures var pairs := Selected(entries, heat, state);
      && (forall k :: 0 <= k < |pairs| ==>
            InTable(size, experts, projections, pairs[k].incoming)
              && InTable(size, experts, projections, pairs[k].outgoing))
      && (forall i, j :: 0 <= i < |pairs| && 0 <= j < |pairs| ==> pairs[i].incoming != pairs[j].outgoing)
  {
    hide Selected, InTable, AllDistinct;
    var pairs := Selected(entries, heat, state);
    forall k | 0 <= k < |pairs|
      ensures InTable(size, experts, projections, pairs[k].incoming)
      ensures InTable(size, experts, projections, pairs[k].outgoing)
      ensures state(pairs[k].incoming) == 0 && state(pairs[k].outgoing) == 1
    {
      SelectedLegal(entries, heat, state, pairs[k]);
    }
  }

  lemma {:induction false} SamePairsUpTo(groups: nat -> seq<Expert>, heat: Expert -> real, s: Expert -> int,
      t: Expert -> int, n: nat)
    requires forall g: nat :: g < n ==> Agree(groups(g), s, t)
    ensures PairsUpTo(groups, heat, s, n) == PairsUpTo(groups, heat, t, n)
  {
    hide GroupPairs, Agree;
    if n > 0 {
      SamePairsUpTo(groups, heat, s, t, n - 1);
      SameGroup(groups(n - 1), heat, s, t);
    }
  }

  lemma MembersAgree(entries: seq<Entry>, g: nat, s: Expert -> int, t: Expert -> int)
    requires forall k :: 0 <= k < |entries| ==> s(entries[k].expert) == t(entries[k].expert)
    ensures Agree(Members(entries, g), s, t)
  {
    hide Members;
    MembersAre(entries, g);
    forall i | 0 <= i < |Members(entries, g)|
      ensures s(Members(entries, g)[i]) == t(Members(entries, g)[i])
    {
      var e := Members(entries, g)[i];
      assert e in Members(entries, g);
      var k :| 0 <= k < |entries| && entries[k] == Entry(e, g);
    }
  }

  // The theorems about `After` carry over to any state that agrees with it on the entries.
  lemma WindowSettles(entries: seq<Entry>, heat: Expert -> real, was: Expert -> int, now: Expert -> int)
    requires AllDistinct(entries)
    requires forall k :: 0 <= k < |entries| ==>
      now(entries[k].expert) == After(was, Selected(entries, heat, was))(entries[k].expert)
    ensures Selected(entries, heat, now) == []
    ensures forall g: nat :: g < GroupsIn(entries) ==> Conserved(Members(entries, g), heat, was, now)
  {
    hide GroupPairs, Members, GroupsIn, After, AllDistinct, PairsUpTo, Agree, Sum, SumInt, Ones, ResidentHeats,
      TotalGain;
    var after := After(was, Selected(entries, heat, was));
    forall g: nat
      ensures Agree(ByGroup(entries)(g), now, after) && Agree(Members(entries, g), now, after)
    {
      MembersAgree(entries, g, now, after);
    }
    SamePairsUpTo(ByGroup(entries), heat, now, after, GroupsIn(entries));
    SelectionSettles(entries, heat, was);
    forall g: nat | g < GroupsIn(entries)
      ensures Conserved(Members(entries, g), heat, was, now)
    {
      SelectionConserves(entries, heat, was, g);
      SameGroup(Members(entries, g), heat, now, after);
    }
  }

  function CellOf(experts: nat, e: Expert): int { e.bundle * experts + e.expert }

  predicate InTable(size: nat, experts: nat, projections: bool, e: Expert) {
    && e.bundle >= 0 && 0 <= e.expert < experts && 0 <= CellOf(experts, e) < size
    && (if projections then 0 <= e.projection < 3 else e.projection == -1)
  }

  // 1 resident, 0 absent, -1 split or outside the table.
  function StateIn(resident: seq<seq<int>>, experts: nat, e: Expert): int {
    var k := CellOf(experts, e);
    if !(0 <= k < |resident|) || |resident[k]| != 3 || e.projection > 2 then -1
    else if e.projection >= 0 then resident[k][e.projection]
    else if resident[k][0] == resident[k][1] == resident[k][2] then resident[k][0]
    else -1
  }

  function StateOf(resident: seq<seq<int>>, experts: nat): Expert -> int { e => StateIn(resident, experts, e) }

  lemma SlotsDiffer(experts: nat, a: Expert, b: Expert)
    requires 0 <= a.expert < experts && 0 <= b.expert < experts && CellOf(experts, a) == CellOf(experts, b)
    ensures a.bundle == b.bundle && a.expert == b.expert
  {
    var d := a.bundle - b.bundle;
    assert d * experts == b.expert - a.expert;
    Multiple(d, experts);
  }

  // The first k pairs have moved and nothing else has.
  ghost predicate Moved(before: seq<seq<int>>, now: seq<seq<int>>, experts: nat, projections: bool, pairs: seq<Pair>,
      k: nat)
    requires k <= |pairs|
  {
    forall e :: InTable(|before|, experts, projections, e) ==>
      StateIn(now, experts, e) == After(StateOf(before, experts), pairs[..k])(e)
  }

  lemma NoneMoved(before: seq<seq<int>>, experts: nat, projections: bool, pairs: seq<Pair>)
    ensures Moved(before, before, experts, projections, pairs, 0)
  {
    hide StateIn, CellOf;
    forall e | InTable(|before|, experts, projections, e)
      ensures StateIn(before, experts, e) == After(StateOf(before, experts), pairs[..0])(e)
    {
      assert Incoming(pairs[..0]) == [] && Outgoing(pairs[..0]) == [];
    }
  }

  predicate Triples(r: seq<seq<int>>) { forall k :: 0 <= k < |r| ==> |r[k]| == 3 }

  // Setting an expert's cell, or all three for a whole bundle.
  function Put(r: seq<seq<int>>, experts: nat, e: Expert, v: int): (now: seq<seq<int>>)
    requires Triples(r) && 0 <= CellOf(experts, e) < |r| && e.projection < 3
    ensures Triples(now) && |now| == |r|
  {
    var k := CellOf(experts, e);
    r[k := if e.projection < 0 then [v, v, v] else r[k][e.projection := v]]
  }

  lemma PutState(r: seq<seq<int>>, experts: nat, projections: bool, e: Expert, v: int, x: Expert)
    requires Triples(r) && InTable(|r|, experts, projections, e) && InTable(|r|, experts, projections, x)
    ensures StateIn(Put(r, experts, e, v), experts, x) == if x == e then v else StateIn(r, experts, x)
  {
    if CellOf(experts, e) == CellOf(experts, x) {
      SlotsDiffer(experts, e, x);
    }
  }

  lemma MovedOne(before: seq<seq<int>>, was: seq<seq<int>>, experts: nat, projections: bool, pairs: seq<Pair>, k: nat)
    requires k < |pairs| && |was| == |before| && Triples(was) && Moved(before, was, experts, projections, pairs, k)
    requires forall j :: 0 <= j < |pairs| ==>
      InTable(|was|, experts, projections, pairs[j].incoming) && InTable(|was|, experts, projections, pairs[j].outgoing)
    requires forall i, j :: 0 <= i < |pairs| && 0 <= j < |pairs| ==> pairs[i].incoming != pairs[j].outgoing
    ensures Moved(before, Put(Put(was, experts, pairs[k].incoming, 1), experts, pairs[k].outgoing, 0), experts,
      projections, pairs, k + 1)
  {
    hide StateIn, Put, CellOf;
    var p := pairs[k];
    assert pairs[..k + 1] == pairs[..k] + [p];
    assert Incoming(pairs[..k + 1]) == Incoming(pairs[..k]) + [p.incoming];
    assert Outgoing(pairs[..k + 1]) == Outgoing(pairs[..k]) + [p.outgoing];
    var half := Put(was, experts, p.incoming, 1);
    forall e | InTable(|before|, experts, projections, e)
      ensures StateIn(Put(half, experts, p.outgoing, 0), experts, e)
        == After(StateOf(before, experts), pairs[..k + 1])(e)
    {
      PutState(was, experts, projections, p.incoming, 1, e);
      PutState(half, experts, projections, p.outgoing, 0, e);
      assert StateIn(was, experts, e) == After(StateOf(before, experts), pairs[..k])(e);
      assert p.outgoing !in Incoming(pairs[..k]);
    }
  }
}
