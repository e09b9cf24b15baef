// Choosing which experts to bring in and which to send out: in every compatibility group the hottest
// absent experts are paired with the coldest resident ones, until a swap no longer pays.
module ResidencyRank {
  import opened Numeric

  datatype Expert = Expert(bundle: int, expert: int, projection: int)

  datatype Entry = Entry(expert: Expert, group: nat)

  datatype Item = Item(expert: Expert, heat: real)

  datatype Pair = Pair(incoming: Expert, outgoing: Expert, gain: real)

  // ----- the order -----

  // std::tie(bundle, expert, projection)
  predicate Before(a: Expert, b: Expert) {
    if a.bundle != b.bundle then a.bundle < b.bundle
    else if a.expert != b.expert then a.expert < b.expert
    else a.projection < b.projection
  }

  predicate Colder(a: Item, b: Item) {
    if a.heat != b.heat then a.heat < b.heat else Before(a.expert, b.expert)
  }

  // Coldest first, or with the arguments exchanged hottest first.
  predicate Ahead(a: Item, b: Item, hottest: bool) { if hottest then Colder(b, a) else Colder(a, b) }

  predicate InOrder(xs: seq<Item>, hottest: bool) {
    forall i, j :: 0 <= i < j < |xs| ==> !Ahead(xs[j], xs[i], hottest)
  }

  function Insert(xs: seq<Item>, x: Item, hottest: bool): seq<Item> {
    if |xs| == 0 || Ahead(x, xs[0], hottest) then [x] + xs else [xs[0]] + Insert(xs[1..], x, hottest)
  }

  function SortItems(xs: seq<Item>, hottest: bool): seq<Item> {
    if |xs| == 0 then [] else Insert(SortItems(xs[..|xs| - 1], hottest), xs[|xs| - 1], hottest)
  }

  lemma TotalOrder(a: Item, b: Item, hottest: bool)
    ensures Ahead(a, b, hottest) ==> !Ahead(b, a, hottest)
    ensures !Ahead(a, b, hottest) && !Ahead(b, a, hottest) ==> a == b
  {
  }

  lemma OrderCarries(a: Item, b: Item, c: Item, hottest: bool)
    ensures !Ahead(b, a, hottest) && !Ahead(c, b, hottest) ==> !Ahead(c, a, hottest)
  {
  }

  // x goes first when nothing in xs is ahead of it.
  lemma PutFirst(x: Item, xs: seq<Item>, hottest: bool)
    requires InOrder(xs, hottest) && forall k :: 0 <= k < |xs| ==> !Ahead(xs[k], x, hottest)
    ensures InOrder([x] + xs, hottest)
  {
    hide Ahead;
  }

  lemma FirstOfAll(x: Item, xs: seq<Item>, hottest: bool)
    requires InOrder(xs, hottest) && |xs| > 0 && !Ahead(xs[0], x, hottest)
    ensures forall k :: 0 <= k < |xs| ==> !Ahead(xs[k], x, hottest)
  {
    hide Ahead;
    forall k | 0 <= k < |xs|
      ensures !Ahead(xs[k], x, hottest)
    {
      if k > 0 { OrderCarries(x, xs[0], xs[k], hottest); }
    }
  }

  lemma {:induction false} InsertSorted(xs: seq<Item>, x: Item, hottest: bool)
    requires InOrder(xs, hottest)
    ensures InOrder(Insert(xs, x, hottest), hottest)
    ensures multiset(Insert(xs, x, hottest)) == multiset(xs) + multiset{x}
  {
    hide Ahead, InOrder, Insert;
    InsertStep(xs, x, hottest);
    if |xs| == 0 {
      PutFirst(x, xs, hottest);
    } else {
      TotalOrder(x, xs[0], hottest);
      if Ahead(x, xs[0], hottest) {
        FirstOfAll(x, xs, hottest);
        PutFirst(x, xs, hottest);
      } else {
        RestInOrder(xs, hottest);
        InsertSorted(xs[1..], x, hottest);
        assert xs == [xs[0]] + xs[1..];
        InsertAfter(xs, x, Insert(xs[1..], x, hottest), hottest);
      }
    }
  }

  lemma InsertStep(xs: seq<Item>, x: Item, hottest: bool)
    ensures |xs| == 0 ==> Insert(xs, x, hottest) == [x] + xs
    ensures |xs| > 0 ==>
      Insert(xs, x, hottest) == if Ahead(x, xs[0], hottest) then [x] + xs else [xs[0]] + Insert(xs[1..], x, hottest)
  {
    hide Ahead;
  }

  lemma InsertAfter(xs: seq<Item>, x: Item, rest: seq<Item>, hottest: bool)
    requires InOrder(xs, hottest) && |xs| > 0 && !Ahead(x, xs[0], hottest) && InOrder(rest, hottest)
    requires multiset(rest) == multiset(xs[1..]) + multiset{x}
    ensures InOrder([xs[0]] + rest, hottest)
  {
    hide Ahead;
    forall k | 0 <= k < |rest|
      ensures !Ahead(rest[k], xs[0], hottest)
    {
      assert rest[k] in multiset(rest);
    }
    PutFirst(xs[0], rest, hottest);
  }

  lemma {:induction false} SortItemsSorts(xs: seq<Item>, hottest: bool)
    ensures InOrder(SortItems(xs, hottest), hottest) && multiset(SortItems(xs, hottest)) == multiset(xs)
  {
    if |xs| > 0 {
      var n := |xs| - 1;
      SortItemsSorts(xs[..n], hottest);
      InsertSorted(SortItems(xs[..n], hottest), xs[n], hottest);
      assert xs == xs[..n] + [xs[n]];
    }
  }

  // The order is total, so any sort of the same items gives the same sequence.
  lemma {:induction false} OneOrder(xs: seq<Item>, ys: seq<Item>, hottest: bool)
    requires InOrder(xs, hottest) && InOrder(ys, hottest) && multiset(xs) == multiset(ys)
    ensures xs == ys
  {
    hide Ahead, InOrder;
    if |xs| == 0 {
      assert |multiset(ys)| == |ys|;
    } else {
      SameMembers(xs, ys);
      SameFirst(xs, ys, hottest);
      SameRest(xs, ys);
      RestInOrder(xs, hottest);
      RestInOrder(ys, hottest);
      OneOrder(xs[1..], ys[1..], hottest);
      assert xs == [xs[0]] + xs[1..] && ys == [ys[0]] + ys[1..];
    }
  }

  lemma SameRest(xs: seq<Item>, ys: seq<Item>)
    requires multiset(xs) == multiset(ys) && |xs| > 0 && |ys| > 0 && xs[0] == ys[0]
    ensures multiset(xs[1..]) == multiset(ys[1..])
  {
    assert xs == [xs[0]] + xs[1..] && ys == [ys[0]] + ys[1..];
    assert multiset(xs[1..]) == multiset(xs) - multiset{xs[0]};
  }

  lemma RestInOrder(xs: seq<Item>, hottest: bool)
    requires InOrder(xs, hottest) && |xs| > 0
    ensures InOrder(xs[1..], hottest)
  {
    hide Ahead;
  }

  lemma SameFirst(xs: seq<Item>, ys: seq<Item>, hottest: bool)
    requires InOrder(xs, hottest) && InOrder(ys, hottest) && |xs| > 0 && |ys| > 0
    requires forall x :: x in xs <==> x in ys
    ensures xs[0] == ys[0]
  {
    hide Ahead;
    assert xs[0] in ys && ys[0] in xs;
    TotalOrder(xs[0], ys[0], hottest);
  }

  lemma HeatsFollow(xs: seq<Item>, hottest: bool, i: nat, j: nat)
    requires InOrder(xs, hottest) && i <= j < |xs|
    ensures if hottest then xs[i].heat >= xs[j].heat else xs[i].heat <= xs[j].heat
  {
    if i < j { assert !Ahead(xs[j], xs[i], hottest); }
  }

  // ----- one group -----

  // Absent experts hot enough to bring in.
  predicate Wanted(e: Expert, heat: Expert -> real, state: Expert -> int) { state(e) == 0 && heat(e) >= 2.0 }

  predicate Resident(e: Expert, state: Expert -> int) { state(e) == 1 }

  function Cold(members: seq<Expert>, heat: Expert -> real, state: Expert -> int): seq<Item> {
    if |members| == 0 then []
    else
      var e := members[|members| - 1];
      Cold(members[..|members| - 1], heat, state)
      + if !Resident(e, state) && Wanted(e, heat, state) then [Item(e, heat(e))] else []
  }

  function Hot(members: seq<Expert>, heat: Expert -> real, state: Expert -> int): seq<Item> {
    if |members| == 0 then []
    else
      var e := members[|members| - 1];
      Hot(members[..|members| - 1], heat, state) + if Resident(e, state) then [Item(e, heat(e))] else []
  }

  lemma {:induction false} ColdIs(members: seq<Expert>, heat: Expert -> real, state: Expert -> int)
    ensures forall x :: x in Cold(members, heat, state) <==>
      x.expert in members && Wanted(x.expert, heat, state) && x.heat == heat(x.expert)
  {
    if |members| > 0 {
      ColdIs(members[..|members| - 1], heat, state);
      assert members == members[..|members| - 1] + [members[|members| - 1]];
    }
  }

  lemma {:induction false} HotIs(members: seq<Expert>, heat: Expert -> real, state: Expert -> int)
    ensures forall x :: x in Hot(members, heat, state) <==>
      x.expert in members && Resident(x.expert, state) && x.heat == heat(x.expert)
  {
    if |members| > 0 {
      HotIs(members[..|members| - 1], heat, state);
      assert members == members[..|members| - 1] + [members[|members| - 1]];
    }
  }

  function SortedCold(members: seq<Expert>, heat: Expert -> real, state: Expert -> int): seq<Item> {
    SortItems(Cold(members, heat, state), true)
  }

  function SortedHot(members: seq<Expert>, heat: Expert -> real, state: Expert -> int): seq<Item> {
    SortItems(Hot(members, heat, state), false)
  }

  lemma SortedMembers(members: seq<Expert>, heat: Expert -> real, state: Expert -> int)
    ensures var cold := SortedCold(members, heat, state);
      InOrder(cold, true)
      && forall x :: x in cold <==> x.expert in members && Wanted(x.expert, heat, state) && x.heat == heat(x.expert)
    ensures var hot := SortedHot(members, heat, state);
      InOrder(hot, false)
      && forall x :: x in hot <==> x.expert in members && Resident(x.expert, state) && x.heat == heat(x.expert)
  {
    hide SortItems, Cold, Hot, InOrder, Wanted, Resident;
    var cold, hot := Cold(members, heat, state), Hot(members, heat, state);
    SortItemsSorts(cold, true);
    SortItemsSorts(hot, false);
    SameMembers(SortItems(cold, true), cold);
    SameMembers(SortItems(hot, false), hot);
    ColdIs(members, heat, state);
    HotIs(members, heat, state);
  }

  lemma SameMembers(xs: seq<Item>, ys: seq<Item>)
    requires multiset(xs) == multiset(ys)
    ensures forall x :: x in xs <==> x in ys
  {
    forall x
      ensures x in xs <==> x in ys
    {
      assert x in xs <==> x in multiset(xs);
      assert x in ys <==> x in multiset(ys);
    }
  }

  // How many leading pairs gain at least 1.5.
  function SwapCount(cold: seq<Item>, hot: seq<Item>, i: nat): (m: nat)
    requires i <= |cold| && i <= |hot|
    ensures i <= m <= Smaller(|cold|, |hot|)
    ensures forall k :: i <= k < m ==> cold[k].heat - hot[k].heat >= 1.5
    ensures m < Smaller(|cold|, |hot|) ==> cold[m].heat - hot[m].heat < 1.5
    decreases |cold| - i
  {
    if i == Smaller(|cold|, |hot|) || cold[i].heat - hot[i].heat < 1.5 then i else SwapCount(cold, hot, i + 1)
  }

  function FirstPairs(cold: seq<Item>, hot: seq<Item>, m: nat): (pairs: seq<Pair>)
    requires m <= |cold| && m <= |hot|
    ensures |pairs| == m
    ensures forall i :: 0 <= i < m ==> pairs[i] == Pair(cold[i].expert, hot[i].expert, cold[i].heat - hot[i].heat)
  {
    seq(m, i requires 0 <= i < m => Pair(cold[i].expert, hot[i].expert, cold[i].heat - hot[i].heat))
  }

  function GroupPairs(members: seq<Expert>, heat: Expert -> real, state: Expert -> int): seq<Pair> {
    var cold, hot := SortedCold(members, heat, state), SortedHot(members, heat, state);
    FirstPairs(cold, hot, SwapCount(cold, hot, 0))
  }

  // The loop with its early break.
  method PairUp(cold: seq<Item>, hot: seq<Item>, pairs: seq<Pair>) returns (result: seq<Pair>)
    ensures result == pairs + FirstPairs(cold, hot, SwapCount(cold, hot, 0))
  {
    result := pairs;
    var count := Smaller(|cold|, |hot|);
    for i := 0 to count
      invariant SwapCount(cold, hot, 0) == SwapCount(cold, hot, i)
      invariant result == pairs + FirstPairs(cold, hot, i)
    {
      var gain := cold[i].heat - hot[i].heat;
      if gain < 1.5 {
        return;
      }
      result := result + [Pair(cold[i].expert, hot[i].expert, gain)];
      assert FirstPairs(cold, hot, i + 1) == FirstPairs(cold, hot, i) + [Pair(cold[i].expert, hot[i].expert, gain)];
    }
  }

  // ----- what the pairs are -----

  predicate Distinct(xs: seq<Expert>) { forall i, j :: 0 <= i < j < |xs| ==> xs[i] != xs[j] }

  function Incoming(pairs: seq<Pair>): (xs: seq<Expert>)
    ensures |xs| == |pairs| && forall i :: 0 <= i < |xs| ==> xs[i] == pairs[i].incoming
  {
    seq(|pairs|, i requires 0 <= i < |pairs| => pairs[i].incoming)
  }

  function Outgoing(pairs: seq<Pair>): (xs: seq<Expert>)
    ensures |xs| == |pairs| && forall i :: 0 <= i < |xs| ==> xs[i] == pairs[i].outgoing
  {
    seq(|pairs|, i requires 0 <= i < |pairs| => pairs[i].outgoing)
  }

  // A legal swap: an absent expert of heat at least 2 for a resident one of the same group.
  predicate Legal(members: seq<Expert>, heat: Expert -> real, state: Expert -> int, p: Pair) {
    && p.incoming in members && Wanted(p.incoming, heat, state)
    && p.outgoing in members && Resident(p.outgoing, state)
    && p.gain == heat(p.incoming) - heat(p.outgoing)
  }

  predicate SwapSet(members: seq<Expert>, heat: Expert -> real, state: Expert -> int, pairs: seq<Pair>) {
    && Distinct(Incoming(pairs)) && Distinct(Outgoing(pairs))
    && forall k :: 0 <= k < |pairs| ==> Legal(members, heat, state, pairs[k])
  }

  predicate NoRepeats(xs: seq<Item>) { forall i, j :: 0 <= i < j < |xs| ==> xs[i].expert != xs[j].expert }

  lemma {:induction false} ColdDistinct(members: seq<Expert>, heat: Expert -> real, state: Expert -> int)
    requires Distinct(members)
    ensures NoRepeats(Cold(members, heat, state)) && NoRepeats(Hot(members, heat, state))
  {
    if |members| > 0 {
      var n := |members| - 1;
      ColdDistinct(members[..n], heat, state);
      ColdIs(members[..n], heat, state);
      HotIs(members[..n], heat, state);
      assert members[n] !in members[..n];
      AppendDistinct(Cold(members[..n], heat, state), members[n], heat(members[n]));
      AppendDistinct(Hot(members[..n], heat, state), members[n], heat(members[n]));
    }
  }

  lemma AppendDistinct(xs: seq<Item>, e: Expert, heat: real)
    requires NoRepeats(xs) && forall x :: x in xs ==> x.expert != e
    ensures NoRepeats(xs) && NoRepeats(xs + []) && NoRepeats(xs + [Item(e, heat)])
  {
    assert xs + [] == xs;
  }

  // Sorting keeps experts distinct.
  lemma {:induction false} PermutedDistinct(xs: seq<Item>, ys: seq<Item>)
    requires NoRepeats(xs) && multiset(xs) == multiset(ys)
    ensures NoRepeats(ys)
  {
    forall i, j | 0 <= i < j < |ys|
      ensures ys[i].expert != ys[j].expert
    {
      Twice(ys, i, j);
      if ys[i].expert == ys[j].expert {
        assert ys[i] in multiset(ys) && ys[j] in multiset(ys);
        var a :| 0 <= a < |xs| && xs[a] == ys[i];
        var b :| 0 <= b < |xs| && xs[b] == ys[j];
        assert a == b;
        OnlyOnce(xs, a);
        assert false;
      }
    }
  }

  lemma Twice(ys: seq<Item>, i: nat, j: nat)
    requires i < j < |ys|
    ensures ys[i] == ys[j] ==> multiset(ys)[ys[i]] >= 2
  {
    assert ys == ys[..j] + [ys[j]] + ys[j + 1..];
    assert ys[i] in multiset(ys[..j]) by { assert ys[..j][i] == ys[i]; }
    assert multiset(ys) == multiset(ys[..j]) + multiset{ys[j]} + multiset(ys[j + 1..]);
  }

  lemma OnlyOnce(xs: seq<Item>, a: nat)
    requires NoRepeats(xs) && a < |xs|
    ensures multiset(xs)[xs[a]] == 1
  {
    assert xs == xs[..a] + [xs[a]] + xs[a + 1..];
    assert multiset(xs) == multiset(xs[..a]) + multiset{xs[a]} + multiset(xs[a + 1..]);
    assert xs[a] !in xs[..a] && xs[a] !in xs[a + 1..];
  }

  // The pairs of a group are one-to-one legal swaps, each worth at least 1.5, best first.
  lemma GroupIsSwapSet(members: seq<Expert>, heat: Expert -> real, state: Expert -> int)
    requires Distinct(members)
    ensures SwapSet(members, heat, state, GroupPairs(members, heat, state))
    ensures var pairs := GroupPairs(members, heat, state);
      && Paying(pairs)
      && (forall i, j :: 0 <= i < j < |pairs| ==> pairs[i].gain >= pairs[j].gain)
  {
    hide SortItems, Cold, Hot, Wanted, Resident;
    var cold, hot := SortedCold(members, heat, state), SortedHot(members, heat, state);
    SortedMembers(members, heat, state);
    SortedDistinct(members, heat, state);
    var pairs := GroupPairs(members, heat, state);
    forall i, j | 0 <= i < j < |pairs|
      ensures pairs[i].gain >= pairs[j].gain
    {
      HeatsFollow(cold, true, i, j);
      HeatsFollow(hot, false, i, j);
    }
    forall k | 0 <= k < |pairs|
      ensures Legal(members, heat, state, pairs[k])
    {
      assert cold[k] in cold && hot[k] in hot;
    }
  }

  lemma SortedDistinct(members: seq<Expert>, heat: Expert -> real, state: Expert -> int)
    requires Distinct(members)
    ensures NoRepeats(SortedCold(members, heat, state)) && NoRepeats(SortedHot(members, heat, state))
  {
    hide SortItems, Cold, Hot;
    ColdDistinct(members, heat, state);
    SortItemsSorts(Cold(members, heat, state), true);
    SortItemsSorts(Hot(members, heat, state), false);
    PermutedDistinct(Cold(members, heat, state), SortedCold(members, heat, state));
    PermutedDistinct(Hot(members, heat, state), SortedHot(members, heat, state));
  }

  // ----- the best swaps -----

  // Total gain beyond the 1.5 a swap must be worth.
  function Worth(pairs: seq<Pair>): real {
    if |pairs| == 0 then 0.0 else Worth(pairs[..|pairs| - 1]) + (pairs[|pairs| - 1].gain - 1.5)
  }

  predicate Descending(xs: seq<real>) { forall i, j :: 0 <= i <= j < |xs| ==> xs[i] >= xs[j] }

  // No choice of k entries sums to more than the k largest.
  lemma {:induction false} TopSum(xs: seq<real>, at: seq<nat>, n: nat)
    requires Descending(xs) && n <= |xs| && Positions(at, n)
    ensures |at| <= n && Sum(TakenAt(xs, at)) <= Sum(xs[..|at|])
    decreases n
  {
    hide Sum;
    PositionsFit(at, n);
    if |at| == 0 {
      assert TakenAt(xs, at) == xs[..0];
    } else if n - 1 in at {
      var k :| 0 <= k < |at| && at[k] == n - 1;
      var rest := at[..k] + at[k + 1..];
      DropPosition(at, n, k);
      TopSum(xs, rest, n - 1);
      SumWithout(TakenAt(xs, at), k);
      TakenWithout(xs, at, k);
      SumPrefix(xs, |at| - 1);
    } else {
      TopSum(xs, at, n - 1);
    }
  }

  lemma TakenWithout(xs: seq<real>, at: seq<nat>, k: nat)
    requires Positions(at, |xs|) && k < |at|
    ensures Positions(at[..k] + at[k + 1..], |xs|)
    ensures TakenAt(xs, at)[..k] + TakenAt(xs, at)[k + 1..] == TakenAt(xs, at[..k] + at[k + 1..])
  {
  }

  function Heats(xs: seq<Item>): (r: seq<real>)
    ensures |r| == |xs| && forall i :: 0 <= i < |r| ==> r[i] == xs[i].heat
  {
    seq(|xs|, i requires 0 <= i < |xs| => xs[i].heat)
  }

  function Negated(xs: seq<real>): (r: seq<real>)
    ensures |r| == |xs| && forall i :: 0 <= i < |r| ==> r[i] == -xs[i]
  {
    seq(|xs|, i requires 0 <= i < |xs| => -xs[i])
  }

  lemma SumNegated(xs: seq<real>)
    ensures Sum(Negated(xs)) == -Sum(xs)
  {
    SumScaled(xs, Negated(xs), -1.0);
  }

  // Where each pair's expert stands in the sorted list.
  lemma {:induction false} Locate(xs: seq<Item>, wanted: seq<Expert>, heat: Expert -> real) returns (at: seq<nat>)
    requires Distinct(wanted)
    requires forall k :: 0 <= k < |wanted| ==> Item(wanted[k], heat(wanted[k])) in xs
    ensures |at| == |wanted| && Positions(at, |xs|)
    ensures forall k :: 0 <= k < |at| ==> xs[at[k]] == Item(wanted[k], heat(wanted[k]))
  {
    at := [];
    for k := 0 to |wanted|
      invariant |at| == k && forall j :: 0 <= j < k ==> at[j] < |xs| && xs[at[j]] == Item(wanted[j], heat(wanted[j]))
    {
      var i: nat :| i < |xs| && xs[i] == Item(wanted[k], heat(wanted[k]));
      at := at + [i];
    }
    forall i, j | 0 <= i < j < |at|
      ensures at[i] != at[j]
    {
      assert wanted[i] != wanted[j];
    }
  }

  lemma {:induction false} WorthIs(pairs: seq<Pair>, ins: seq<real>, outs: seq<real>)
    requires |pairs| == |ins| == |outs|
    requires forall k :: 0 <= k < |pairs| ==> pairs[k].gain == ins[k] - outs[k]
    ensures Worth(pairs) == Sum(ins) - Sum(outs) - 1.5 * |pairs| as real
  {
    var n := |pairs| - 1;
    if n >= 0 {
      WorthIs(pairs[..n], ins[..n], outs[..n]);
    }
  }

  // The first k pairs of the sorted lists, whether or not they pay.
  lemma FirstWorth(cold: seq<Item>, hot: seq<Item>, k: nat)
    requires k <= |cold| && k <= |hot|
    ensures Worth(FirstPairs(cold, hot, k)) == Sum(Heats(cold)[..k]) - Sum(Heats(hot)[..k]) - 1.5 * k as real
  {
    hide Sum, Worth;
    WorthIs(FirstPairs(cold, hot, k), Heats(cold)[..k], Heats(hot)[..k]);
  }

  lemma MorePairs(cold: seq<Item>, hot: seq<Item>, k: nat)
    requires k < |cold| && k < |hot|
    ensures Worth(FirstPairs(cold, hot, k + 1)) == Worth(FirstPairs(cold, hot, k)) + (cold[k].heat - hot[k].heat - 1.5)
  {
    assert FirstPairs(cold, hot, k + 1)[..k] == FirstPairs(cold, hot, k);
  }

  // Gains only fall along the sorted lists, so stopping at the first poor pair is best.
  lemma {:induction false} StoppingIsBest(cold: seq<Item>, hot: seq<Item>, k: nat)
    requires InOrder(cold, true) && InOrder(hot, false) && k <= |cold| && k <= |hot|
    ensures Worth(FirstPairs(cold, hot, k)) <= Worth(FirstPairs(cold, hot, SwapCount(cold, hot, 0)))
    decreases var m := SwapCount(cold, hot, 0); if k < m then m - k else k - m
  {
    hide Worth, InOrder, FirstPairs;
    var m := SwapCount(cold, hot, 0);
    if k < m {
      MorePairs(cold, hot, k);
      StoppingIsBest(cold, hot, k + 1);
    } else if k > m {
      MorePairs(cold, hot, k - 1);
      HeatsFollow(cold, true, m, k - 1);
      HeatsFollow(hot, false, m, k - 1);
      StoppingIsBest(cold, hot, k - 1);
    }
  }

  // No one-to-one set of legal swaps in the group is worth more than the selected pairs.
  lemma GroupIsBest(members: seq<Expert>, heat: Expert -> real, state: Expert -> int, swaps: seq<Pair>)
    requires SwapSet(members, heat, state, swaps)
    ensures Worth(swaps) <= Worth(GroupPairs(members, heat, state))
  {
    hide Worth, Sum, SortItems, InOrder, SwapCount, Wanted, Resident;
    var cold, hot := SortedCold(members, heat, state), SortedHot(members, heat, state);
    SortedMembers(members, heat, state);
    var ins := Locate(cold, Incoming(swaps), heat);
    var outs := Locate(hot, Outgoing(swaps), heat);
    var k := |swaps|;
    WorthIs(swaps, TakenAt(Heats(cold), ins), TakenAt(Heats(hot), outs));
    BestOfCold(cold, ins);
    BestOfHot(hot, outs);
    FirstWorth(cold, hot, k);
    StoppingIsBest(cold, hot, k);
  }

  lemma BestOfCold(cold: seq<Item>, at: seq<nat>)
    requires InOrder(cold, true) && Positions(at, |cold|)
    ensures |at| <= |cold| && Sum(TakenAt(Heats(cold), at)) <= Sum(Heats(cold)[..|at|])
  {
    hide InOrder, Sum;
    forall i, j | 0 <= i <= j < |cold|
      ensures Heats(cold)[i] >= Heats(cold)[j]
    {
      HeatsFollow(cold, true, i, j);
    }
    TopSum(Heats(cold), at, |cold|);
  }

  lemma BestOfHot(hot: seq<Item>, at: seq<nat>)
    requires InOrder(hot, false) && Positions(at, |hot|)
    ensures |at| <= |hot| && Sum(TakenAt(Heats(hot), at)) >= Sum(Heats(hot)[..|at|])
  {
    hide InOrder, Sum;
    var ys := Negated(Heats(hot));
    forall i, j | 0 <= i <= j < |hot|
      ensures ys[i] >= ys[j]
    {
      HeatsFollow(hot, false, i, j);
    }
    TopSum(ys, at, |hot|);
    assert TakenAt(ys, at) == Negated(TakenAt(Heats(hot), at));
    assert ys[..|at|] == Negated(Heats(hot)[..|at|]);
    SumNegated(TakenAt(Heats(hot), at));
    SumNegated(Heats(hot)[..|at|]);
  }

  // ----- the most swaps -----

  predicate Paying(pairs: seq<Pair>) { forall k :: 0 <= k < |pairs| ==> pairs[k].gain >= 1.5 }

  // The n hottest absent experts against the n coldest resident ones, the hottest with the warmest.
  predicate Crossed(cold: seq<Item>, hot: seq<Item>, n: nat) {
    n <= |cold| && n <= |hot| && forall i :: 0 <= i < n ==> cold[i].heat - hot[n - 1 - i].heat >= 1.5
  }

  function CrossPairs(cold: seq<Item>, hot: seq<Item>, n: nat): (pairs: seq<Pair>)
    requires n <= |cold| && n <= |hot|
    ensures |pairs| == n
    ensures forall i :: 0 <= i < n ==>
      pairs[i] == Pair(cold[i].expert, hot[n - 1 - i].expert, cold[i].heat - hot[n - 1 - i].heat)
  {
    seq(n, i requires 0 <= i < n =>
      Pair(cold[i].expert, hot[n - 1 - i].expert, cold[i].heat - hot[n - 1 - i].heat))
  }

  // Fewer than n places lie before i among the first and before n - 1 - i among the second positions,
  // so one of n pairs of positions lies past both.
  lemma PastBoth(ins: seq<nat>, outs: seq<nat>, i: nat, c: nat, h: nat) returns (t: nat)
    requires |ins| == |outs| && i < |ins| && Positions(ins, c) && Positions(outs, h)
    ensures t < |ins| && ins[t] >= i && outs[t] >= |ins| - 1 - i
  {
    var n := |ins|;
    var codes: seq<nat> := seq(n, k requires 0 <= k < n => if ins[k] < i then ins[k] else i + outs[k]);
    if forall k :: 0 <= k < n ==> ins[k] < i || outs[k] < n - 1 - i {
      assert Positions(codes, n - 1);
      PositionsFit(codes, n - 1);
      assert false;
    }
    t :| 0 <= t < n && !(ins[t] < i || outs[t] < n - 1 - i);
  }

  // Whatever positions n paying swaps take up, the crossed ones pay too.
  lemma PositionsCross(cold: seq<Item>, hot: seq<Item>, ins: seq<nat>, outs: seq<nat>)
    requires InOrder(cold, true) && InOrder(hot, false)
    requires |ins| == |outs| && Positions(ins, |cold|) && Positions(outs, |hot|)
    requires forall t :: 0 <= t < |ins| ==> cold[ins[t]].heat - hot[outs[t]].heat >= 1.5
    ensures Crossed(cold, hot, |ins|)
  {
    hide InOrder;
    PositionsFit(ins, |cold|);
    PositionsFit(outs, |hot|);
    forall i | 0 <= i < |ins|
      ensures cold[i].heat - hot[|ins| - 1 - i].heat >= 1.5
    {
      var t := PastBoth(ins, outs, i, |cold|, |hot|);
      HeatsFollow(cold, true, i, ins[t]);
      HeatsFollow(hot, false, |ins| - 1 - i, outs[t]);
    }
  }

  lemma PayingCross(members: seq<Expert>, heat: Expert -> real, state: Expert -> int, swaps: seq<Pair>)
    requires SwapSet(members, heat, state, swaps) && Paying(swaps)
    ensures Crossed(SortedCold(members, heat, state), SortedHot(members, heat, state), |swaps|)
  {
    hide SortItems, InOrder, Wanted, Resident, Cold, Hot;
    var cold, hot := SortedCold(members, heat, state), SortedHot(members, heat, state);
    SortedMembers(members, heat, state);
    var ins := Locate(cold, Incoming(swaps), heat);
    var outs := Locate(hot, Outgoing(swaps), heat);
    PositionsCross(cold, hot, ins, outs);
  }

  lemma CrossPays(members: seq<Expert>, heat: Expert -> real, state: Expert -> int, n: nat)
    requires Distinct(members)
    requires Crossed(SortedCold(members, heat, state), SortedHot(members, heat, state), n)
    ensures var swaps := CrossPairs(SortedCold(members, heat, state), SortedHot(members, heat, state), n);
      SwapSet(members, heat, state, swaps) && Paying(swaps)
  {
    hide SortItems, InOrder, Cold, Hot, Wanted, Resident;
    var cold, hot := SortedCold(members, heat, state), SortedHot(members, heat, state);
    SortedMembers(members, heat, state);
    SortedDistinct(members, heat, state);
    var swaps := CrossPairs(cold, hot, n);
    forall k | 0 <= k < n
      ensures Legal(members, heat, state, swaps[k])
    {
      assert cold[k] in cold && hot[n - 1 - k] in hot;
    }
  }

  // n one-to-one legal swaps of gain 1.5 or more can be made exactly when the crossed ones are such.
  lemma PayingExactly(members: seq<Expert>, heat: Expert -> real, state: Expert -> int, n: nat)
    requires Distinct(members)
    ensures Crossed(SortedCold(members, heat, state), SortedHot(members, heat, state), n) <==>
      exists swaps :: SwapSet(members, heat, state, swaps) && Paying(swaps) && |swaps| == n
  {
    hide SwapSet, Paying, Crossed, SortedCold, SortedHot;
    var cold, hot := SortedCold(members, heat, state), SortedHot(members, heat, state);
    if Crossed(cold, hot, n) {
      CrossFits(cold, hot, n);
      CrossPays(members, heat, state, n);
      assert |CrossPairs(cold, hot, n)| == n;
    }
    if swaps :| SwapSet(members, heat, state, swaps) && Paying(swaps) && |swaps| == n {
      PayingCross(members, heat, state, swaps);
    }
  }

  lemma CrossFits(cold: seq<Item>, hot: seq<Item>, n: nat)
    requires Crossed(cold, hot, n)
    ensures n <= |cold| && n <= |hot|
  {
  }

  // More swaps that pay exist than are selected.
  ghost predicate FallsShort(members: seq<Expert>, heat: Expert -> real, state: Expert -> int) {
    exists swaps ::
      SwapSet(members, heat, state, swaps) && Paying(swaps) && |swaps| > |GroupPairs(members, heat, state)|
  }

  // The n-th pair straight across does not pay, yet the n crossed pairs do.
  predicate Detour(cold: seq<Item>, hot: seq<Item>, n: nat) {
    1 <= n <= |cold| && n <= |hot| && cold[n - 1].heat - hot[n - 1].heat < 1.5 && Crossed(cold, hot, n)
  }

  // The selection misses the most paying swaps exactly when there is such an n, for the sorted heats.
  lemma MostSwapsExactly(members: seq<Expert>, heat: Expert -> real, state: Expert -> int)
    requires Distinct(members)
    ensures FallsShort(members, heat, state) <==>
      exists n: nat :: Detour(SortedCold(members, heat, state), SortedHot(members, heat, state), n)
  {
    hide SwapSet, Paying, Crossed, SortedCold, SortedHot, InOrder, Wanted, Resident, FirstPairs;
    var cold, hot := SortedCold(members, heat, state), SortedHot(members, heat, state);
    SortedMembers(members, heat, state);
    var m := SwapCount(cold, hot, 0);
    if n: nat :| Detour(cold, hot, n) {
      PayingExactly(members, heat, state, n);
      assert n > m;
    }
    if FallsShort(members, heat, state) {
      var swaps :| SwapSet(members, heat, state, swaps) && Paying(swaps) && |swaps| > m;
      var n := |swaps|;
      PayingCross(members, heat, state, swaps);
      CrossFits(cold, hot, n);
      HeatsFollow(cold, true, m, n - 1);
      HeatsFollow(hot, false, m, n - 1);
      assert Detour(cold, hot, n);
    }
  }

  // Two swaps of gain over 1.5 exist, one is selected.
  lemma NotMostSwaps()
    ensures exists members: seq<Expert>, heat: Expert -> real, state: Expert -> int, swaps: seq<Pair> ::
      && SwapSet(members, heat, state, swaps) && Paying(swaps)
      && |swaps| > |GroupPairs(members, heat, state)|
  {
    var a, b, c, d := Expert(0, 0, -1), Expert(0, 1, -1), Expert(0, 2, -1), Expert(0, 3, -1);
    var heat: Expert -> real := e => if e == a then 10.0 else if e == b then 2.0 else if e == c then 0.0 else 0.9;
    var state: Expert -> int := e => if e == a || e == b then 0 else 1;
    var members := [a, b, c, d];
    var swaps := [Pair(a, d, 9.1), Pair(b, c, 2.0)];
    SwapSetOfTwo(members, heat, state, swaps);
    FewerSelected(members, heat, state, a, b, c, d);
  }

  lemma SwapSetOfTwo(members: seq<Expert>, heat: Expert -> real, state: Expert -> int, swaps: seq<Pair>)
    requires |swaps| == 2 && swaps[0].incoming != swaps[1].incoming && swaps[0].outgoing != swaps[1].outgoing
    requires Legal(members, heat, state, swaps[0]) && Legal(members, heat, state, swaps[1])
    ensures SwapSet(members, heat, state, swaps)
  {
  }

  lemma FewerSelected(members: seq<Expert>, heat: Expert -> real, state: Expert -> int, a: Expert, b: Expert,
      c: Expert, d: Expert)
    requires members == [a, b, c, d] && Distinct(members)
    requires heat(a) == 10.0 && heat(b) == 2.0 && heat(c) == 0.0 && heat(d) == 0.9
    requires state(a) == 0 && state(b) == 0 && state(c) == 1 && state(d) == 1
    ensures |GroupPairs(members, heat, state)| <= 1
  {
    hide SortItems, Cold, Hot, InOrder;
    var cold, hot := SortedCold(members, heat, state), SortedHot(members, heat, state);
    SortedMembers(members, heat, state);
    var pairs := GroupPairs(members, heat, state);
    GroupIsSwapSet(members, heat, state);
    if |pairs| > 1 {
      var p, q := pairs[0], pairs[1];
      assert Legal(members, heat, state, p) && Legal(members, heat, state, q);
      HeatsFollow(cold, true, 0, 1);
      HeatsFollow(hot, false, 0, 1);
      assert false;
    }
  }
}
