// Pairing rows by distance: each unmatched row with its nearest unmatched one in a given order, or
// the globally shortest disjoint edges. Both pair up every row when the number of rows is even.
module RowPairing {
  import opened Numeric
  import opened Options

  datatype Edge = Edge(a: nat, b: nat)

  // Both ends of every edge, in order.
  function Ends(edges: seq<Edge>): (xs: seq<nat>)
    ensures |xs| == 2 * |edges|
    ensures forall k :: 0 <= k < |edges| ==> xs[2 * k] == edges[k].a && xs[2 * k + 1] == edges[k].b
  {
    if |edges| == 0 then []
    else
      var n := |edges| - 1;
      Ends(edges[..n]) + [edges[n].a, edges[n].b]
  }

  lemma EndsSnoc(edges: seq<Edge>, e: Edge)
    ensures Ends(edges + [e]) == Ends(edges) + [e.a, e.b]
  {
    assert (edges + [e])[..|edges|] == edges;
  }

  // No row is an end twice.
  predicate Matching(edges: seq<Edge>, n: nat) { Positions(Ends(edges), n) }

  predicate Perfect(edges: seq<Edge>, n: nat) {
    Matching(edges, n) && 2 * |edges| == n && forall r: nat :: r < n ==> r in Ends(edges)
  }

  // A row is active while it is no end of a taken edge.
  predicate ActiveMeans(active: seq<bool>, edges: seq<Edge>) {
    forall r :: 0 <= r < |active| ==> (active[r] <==> r !in Ends(edges))
  }

  lemma TakeEdge(active: seq<bool>, edges: seq<Edge>, e: Edge)
    requires Matching(edges, |active|) && ActiveMeans(active, edges)
    requires e.a < |active| && e.b < |active| && e.a != e.b && active[e.a] && active[e.b]
    ensures Matching(edges + [e], |active|) && ActiveMeans(active[e.a := false][e.b := false], edges + [e])
  {
    EndsSnoc(edges, e);
    var xs := Ends(edges);
    var now := active[e.a := false][e.b := false];
    forall r | 0 <= r < |active|
      ensures now[r] <==> r !in xs + [e.a, e.b]
    {
    }
    hide Ends;
    AddTwo(xs, |active|, e.a, e.b);
  }

  lemma AddTwo(xs: seq<nat>, n: nat, a: nat, b: nat)
    requires Positions(xs, n) && a !in xs && b !in xs && a != b && a < n && b < n
    ensures Positions(xs + [a, b], n)
  {
  }

  lemma NoneActive(active: seq<bool>, edges: seq<Edge>)
    requires Matching(edges, |active|) && ActiveMeans(active, edges)
    ensures 2 * |edges| <= |active|
    ensures (forall r :: 0 <= r < |active| ==> !active[r]) <==> 2 * |edges| == |active|
    ensures (forall r :: 0 <= r < |active| ==> !active[r]) ==> Perfect(edges, |active|)
  {
    hide Ends;
    PositionsFit(Ends(edges), |active|);
    if forall r :: 0 <= r < |active| ==> !active[r] {
      PositionsCover(Ends(edges), |active|, |active|);
    } else {
      var r :| 0 <= r < |active| && active[r];
      LeftOut(Ends(edges), |active|, r);
    }
  }

  lemma LeftOut(xs: seq<nat>, n: nat, r: nat)
    requires Positions(xs, n) && r < n && r !in xs
    ensures |xs| < n
  {
    assert Positions(xs + [r], n);
    PositionsFit(xs + [r], n);
  }

  // ----- ordered nearest pairing -----

  // argmin over the active entries; None when every entry is masked with infinity.
  method NearestActive(active: array<bool>, distance: nat -> real) returns (second: Option<nat>)
    ensures second.None? <==> forall r :: 0 <= r < active.Length ==> !active[r]
    ensures second.Some? ==> second.value < active.Length && active[second.value]
    ensures second.Some? ==> forall r: nat :: r < active.Length && active[r] ==> distance(second.value) <= distance(r)
    ensures second.Some? ==> forall r: nat :: r < second.value && active[r] ==> distance(second.value) < distance(r)
  {
    second := None;
    for r := 0 to active.Length
      invariant second.None? <==> forall k :: 0 <= k < r ==> !active[k]
      invariant second.Some? ==> second.value < r && active[second.value]
      invariant second.Some? ==> forall k: nat :: k < r && active[k] ==> distance(second.value) <= distance(k)
      invariant second.Some? ==> forall k: nat :: k < second.value && active[k] ==> distance(second.value) < distance(k)
    {
      if active[r] && (second.None? || distance(r) < distance(second.value)) {
        second := Some(r);
      }
    }
  }

  type Distance = (nat, nat) -> real

  function Score(edges: seq<Edge>, distance: Distance): real {
    if |edges| == 0 then 0.0
    else Score(edges[..|edges| - 1], distance) + 0.5 * distance(edges[|edges| - 1].a, edges[|edges| - 1].b)
  }

  lemma ScoreSnoc(edges: seq<Edge>, e: Edge, distance: Distance)
    ensures Score(edges + [e], distance) == Score(edges, distance) + 0.5 * distance(e.a, e.b)
  {
    assert (edges + [e])[..|edges|] == edges;
  }

  // Edge k joins its first row to the nearest row no earlier edge has taken, the first of equals.
  predicate NearestSoFar(edges: seq<Edge>, n: nat, distance: Distance, k: nat)
    requires k < |edges|
  {
    forall r: nat :: r < n && r !in Ends(edges[..k]) && r != edges[k].a ==> Nearer(edges[k], r, distance)
  }

  predicate Nearer(e: Edge, r: nat, distance: Distance) {
    if r < e.b then distance(e.a, e.b) < distance(e.a, r) else distance(e.a, e.b) <= distance(e.a, r)
  }

  // Its first row is the first in order that no earlier edge has taken.
  predicate InTurn(edges: seq<Edge>, order: seq<nat>, k: nat)
    requires k < |edges|
  {
    exists i :: 0 <= i < |order| && order[i] == edges[k].a && TakenBefore(edges[..k], order, i)
  }

  predicate TakenBefore(edges: seq<Edge>, order: seq<nat>, i: nat)
    requires i <= |order|
  {
    forall j :: 0 <= j < i ==> order[j] in Ends(edges)
  }

  predicate AllInTurn(edges: seq<Edge>, order: seq<nat>) {
    forall k :: 0 <= k < |edges| ==> InTurn(edges, order, k)
  }

  lemma TurnSnoc(edges: seq<Edge>, e: Edge, order: seq<nat>, i: nat)
    requires AllInTurn(edges, order) && i < |order| && order[i] == e.a && TakenBefore(edges, order, i)
    ensures AllInTurn(edges + [e], order) && TakenBefore(edges + [e], order, i + 1)
  {
    EndsSnoc(edges, e);
    hide Ends;
    var more := edges + [e];
    assert more[..|edges|] == edges;
    forall k | 0 <= k < |more|
      ensures InTurn(more, order, k)
    {
      if k < |edges| {
        assert more[..k] == edges[..k];
        assert InTurn(edges, order, k);
      }
    }
  }

  predicate AllNearest(edges: seq<Edge>, n: nat, distance: Distance) {
    forall k :: 0 <= k < |edges| ==> NearestSoFar(edges, n, distance, k)
  }

  lemma NearestSnoc(edges: seq<Edge>, e: Edge, n: nat, distance: Distance)
    requires AllNearest(edges, n, distance)
    requires forall r: nat :: r < n && r !in Ends(edges) && r != e.a ==> Nearer(e, r, distance)
    ensures AllNearest(edges + [e], n, distance)
  {
    hide Nearer, Ends;
    var more := edges + [e];
    assert more[..|edges|] == edges;
    forall k | 0 <= k < |more|
      ensures NearestSoFar(more, n, distance, k)
    {
      if k < |edges| {
        assert more[..k] == edges[..k];
        assert NearestSoFar(edges, n, distance, k);
      }
    }
  }

  // Any order of the rows pairs all of them, unless their number is odd: then one is left unmatched.
  method OrderedNearestPairing(n: nat, distance: Distance, order: seq<nat>)
      returns (pairs: Option<seq<Edge>>, score: real)
    requires Positions(order, n) && |order| == n && forall r: nat :: r < n ==> r in order
    ensures pairs.Some? <==> n % 2 == 0
    ensures pairs.Some? ==> Perfect(pairs.value, n) && score == Score(pairs.value, distance)
    ensures pairs.Some? ==> AllNearest(pairs.value, n, distance) && AllInTurn(pairs.value, order)
  {
    hide Ends, Score, NearestSoFar, Positions, InTurn, Matching;
    var active := new bool[n](i => true);
    var taken: seq<Edge> := [];
    score := 0.0;
    Fresh(active[..], n, distance);
    for i := 0 to n
      invariant Matching(taken, n) && ActiveMeans(active[..], taken)
      invariant forall k :: 0 <= k < i && order[k] < n ==> !active[order[k]]
      invariant AllNearest(taken, n, distance) && score == Score(taken, distance)
      invariant AllInTurn(taken, order) && TakenBefore(taken, order, i)
    {
      var first := order[i];
      OrderInRange(order, n, i);
      if active[first] {
        ghost var was := active[..];
        active[first] := false;
        var second := NearestActive(active, (r: nat) => distance(first, r));
        assert forall r :: 0 <= r < n && r != first ==> active[r] == was[r];
        if second.None? {
          OneLeft(was, taken, first);
          return None, score;
        }
        forall r: nat | r < n && r !in Ends(taken) && r != first
          ensures Nearer(Edge(first, second.value), r, distance)
        {
          assert was[r] && active[r];
        }
        active[second.value] := false;
        assert active[..] == was[first := false][second.value := false];
        var e := Edge(first, second.value);
        TakeEdge(was, taken, e);
        NearestSnoc(taken, e, n, distance);
        TurnSnoc(taken, e, order, i);
        ScoreSnoc(taken, e, distance);
        taken := taken + [e];
        score := score + 0.5 * distance(first, second.value);
      }
    }
    AllInactive(order, n, active[..]);
    NoneActive(active[..], taken);
    pairs := Some(taken);
  }

  lemma Fresh(active: seq<bool>, n: nat, distance: Distance)
    requires |active| == n && forall r :: 0 <= r < n ==> active[r]
    ensures Matching([], n) && ActiveMeans(active, []) && AllNearest([], n, distance) && Score([], distance) == 0.0
  {
  }

  lemma OrderInRange(order: seq<nat>, n: nat, i: nat)
    requires Positions(order, n) && i < |order|
    ensures order[i] < n
  {
  }

  lemma AllInactive(order: seq<nat>, n: nat, active: seq<bool>)
    requires Positions(order, n) && |order| == n == |active| && forall r: nat :: r < n ==> r in order
    requires forall k :: 0 <= k < n && order[k] < n ==> !active[order[k]]
    ensures forall r :: 0 <= r < n ==> !active[r]
  {
    forall r | 0 <= r < n
      ensures !active[r]
    {
      assert r in order;
      var k :| 0 <= k < |order| && order[k] == r;
    }
  }

  // A lone active row means an odd number of rows.
  lemma OneLeft(active: seq<bool>, edges: seq<Edge>, first: nat)
    requires Matching(edges, |active|) && ActiveMeans(active, edges) && first < |active| && active[first]
    requires forall r :: 0 <= r < |active| && r != first ==> !active[r]
    ensures |active| == 2 * |edges| + 1
  {
    hide Ends;
    LeftOut(Ends(edges), |active|, first);
    PositionsCover(Ends(edges), |active|, first);
  }

  // ----- globally greedy pairing -----

  // np.triu_indices(n, k=1): one row's edges after another's.
  function RowEdges(a: nat, n: nat): (edges: seq<Edge>)
    requires a < n
    ensures |edges| == n - a - 1 && forall k :: 0 <= k < |edges| ==> edges[k] == Edge(a, a + 1 + k)
  {
    seq(n - a - 1, k requires 0 <= k < n - a - 1 => Edge(a, a + 1 + k))
  }

  function Triangle(m: nat, n: nat): seq<Edge>
    requires m <= n
  {
    if m == 0 then [] else Triangle(m - 1, n) + RowEdges(m - 1, n)
  }

  lemma {:induction false} TriangleIs(m: nat, n: nat)
    requires m <= n
    ensures forall e :: e in Triangle(m, n) <==> e.a < m && e.a < e.b < n
  {
    if m > 0 {
      TriangleIs(m - 1, n);
      var last := RowEdges(m - 1, n);
      forall e
        ensures e in last <==> e.a == m - 1 && e.a < e.b < n
      {
        if e.a == m - 1 && e.a < e.b < n {
          assert last[e.b - e.a - 1] == e;
        }
      }
    }
  }

  predicate Shorter(x: Edge, y: Edge, distance: Distance) { distance(x.a, x.b) < distance(y.a, y.b) }

  // A stable sort by distance.
  function InsertEdge(xs: seq<Edge>, e: Edge, distance: Distance): seq<Edge> {
    if |xs| == 0 || !Shorter(e, xs[|xs| - 1], distance) then xs + [e]
    else InsertEdge(xs[..|xs| - 1], e, distance) + [xs[|xs| - 1]]
  }

  function SortEdges(xs: seq<Edge>, distance: Distance): seq<Edge> {
    if |xs| == 0 then [] else InsertEdge(SortEdges(xs[..|xs| - 1], distance), xs[|xs| - 1], distance)
  }

  predicate Ascending(xs: seq<Edge>, distance: Distance) {
    forall i, j :: 0 <= i < j < |xs| ==> !Shorter(xs[j], xs[i], distance)
  }

  lemma {:induction false} InsertEdgeSorts(xs: seq<Edge>, e: Edge, distance: Distance)
    requires Ascending(xs, distance)
    ensures Ascending(InsertEdge(xs, e, distance), distance)
    ensures forall x :: x in InsertEdge(xs, e, distance) <==> x in xs || x == e
  {
    if |xs| > 0 && Shorter(e, xs[|xs| - 1], distance) {
      var n := |xs| - 1;
      InsertEdgeSorts(xs[..n], e, distance);
      assert xs == xs[..n] + [xs[n]];
      assert forall x :: x in xs <==> x in xs[..n] || x == xs[n];
      var front := InsertEdge(xs[..n], e, distance);
      forall k | 0 <= k < |front|
        ensures !Shorter(xs[n], front[k], distance)
      {
        assert front[k] in front;
      }
    }
  }

  lemma {:induction false} SortEdgesSorts(xs: seq<Edge>, distance: Distance)
    ensures Ascending(SortEdges(xs, distance), distance) && forall x :: x in SortEdges(xs, distance) <==> x in xs
  {
    if |xs| > 0 {
      var n := |xs| - 1;
      SortEdgesSorts(xs[..n], distance);
      InsertEdgeSorts(SortEdges(xs[..n], distance), xs[n], distance);
      assert xs == xs[..n] + [xs[n]];
    }
  }

  // All edges of n rows by distance, equal ones in triangle order.
  function EdgeOrder(n: nat, distance: Distance): (edges: seq<Edge>)
    ensures Ascending(edges, distance)
    ensures forall e :: e in edges <==> e.a < e.b < n
  {
    TriangleIs(n, n);
    SortEdgesSorts(Triangle(n, n), distance);
    SortEdges(Triangle(n, n), distance)
  }

  predicate Free(e: Edge, taken: seq<Edge>) { e.a !in Ends(taken) && e.b !in Ends(taken) }

  // Edge k is as short as any edge disjoint from the ones taken before it.
  ghost predicate ShortestFree(taken: seq<Edge>, n: nat, distance: Distance, k: nat)
    requires k < |taken|
  {
    && taken[k].a < taken[k].b < n
    && forall e: Edge :: e.a < e.b < n && Free(e, taken[..k]) ==> !Shorter(e, taken[k], distance)
  }

  ghost predicate Greedy(taken: seq<Edge>, n: nat, distance: Distance) {
    forall k :: 0 <= k < |taken| ==> ShortestFree(taken, n, distance, k)
  }

  lemma GreedySnoc(taken: seq<Edge>, e: Edge, n: nat, distance: Distance)
    requires Greedy(taken, n, distance) && e.a < e.b < n
    requires forall f: Edge :: f.a < f.b < n && Free(f, taken) ==> !Shorter(f, e, distance)
    ensures Greedy(taken + [e], n, distance)
  {
    hide Ends;
    var more := taken + [e];
    assert more[..|taken|] == taken;
    forall k | 0 <= k < |more|
      ensures ShortestFree(more, n, distance, k)
    {
      if k < |taken| {
        assert more[..k] == taken[..k];
        assert ShortestFree(taken, n, distance, k);
      }
    }
  }

  // No edge before position i is free.
  predicate Blocked(edges: seq<Edge>, taken: seq<Edge>, i: nat)
    requires i <= |edges|
  {
    forall k :: 0 <= k < i ==> !Free(edges[k], taken)
  }

  lemma StillBlocked(edges: seq<Edge>, taken: seq<Edge>, e: Edge, i: nat)
    requires i < |edges| && Blocked(edges, taken, i) && edges[i] == e
    ensures Blocked(edges, taken + [e], i + 1)
  {
    EndsSnoc(taken, e);
  }

  lemma FreeLater(n: nat, edges: seq<Edge>, taken: seq<Edge>, i: nat, distance: Distance)
    requires Ascending(edges, distance) && (forall e :: e in edges <==> e.a < e.b < n) && i < |edges|
    requires Blocked(edges, taken, i)
    ensures forall f: Edge :: f.a < f.b < n && Free(f, taken) ==> !Shorter(f, edges[i], distance)
  {
    hide Free;
    forall f: Edge | f.a < f.b < n && Free(f, taken)
      ensures !Shorter(f, edges[i], distance)
    {
      assert f in edges;
      var k :| 0 <= k < |edges| && edges[k] == f;
    }
  }

  // Shortest first, disjoint edges are taken until `limit` are or none is free. At most one row is
  // then left, so n / 2 edges can always be had.
  method TakeEdges(n: nat, distance: Distance, limit: nat) returns (taken: seq<Edge>, active: array<bool>)
    requires limit > 0 || n < 2
    ensures Matching(taken, n) && Greedy(taken, n, distance)
    ensures |taken| == Smaller(limit, n / 2)
    ensures fresh(active) && active.Length == n && ActiveMeans(active[..], taken)
  {
    hide Ends, ShortestFree, Free, EdgeOrder;
    var edges := EdgeOrder(n, distance);
    active := new bool[n](i => true);
    taken := [];
    NothingTaken(active[..], n, distance);
    assert |edges| > 0 ==> edges[0] in edges;
    assert n >= 2 ==> Edge(0, 1) in edges;
    for i := 0 to |edges|
      invariant active.Length == n
      invariant Matching(taken, n) && ActiveMeans(active[..], taken) && Greedy(taken, n, distance)
      invariant Blocked(edges, taken, i)
      invariant |taken| < limit || |edges| == 0
    {
      var e := edges[i];
      assert e in edges;
      FreeMeans(active[..], taken, e);
      if active[e.a] && active[e.b] {
        ghost var was := active[..];
        active[e.a] := false;
        active[e.b] := false;
        assert active[..] == was[e.a := false][e.b := false];
        FreeLater(n, edges, taken, i, distance);
        GreedySnoc(taken, e, n, distance);
        TakeEdge(was, taken, e);
        StillBlocked(edges, taken, e, i);
        taken := taken + [e];
        if |taken| == limit {
          NoneActive(active[..], taken);
          return;
        }
      }
    }
    AllBlocked(n, edges, active[..], taken);
    NoneActive(active[..], taken);
  }

  lemma NothingTaken(active: seq<bool>, n: nat, distance: Distance)
    requires |active| == n && forall r :: 0 <= r < n ==> active[r]
    ensures Matching([], n) && ActiveMeans(active, []) && Greedy([], n, distance)
  {
  }

  lemma FreeMeans(active: seq<bool>, taken: seq<Edge>, e: Edge)
    requires ActiveMeans(active, taken) && e.a < |active| && e.b < |active|
    ensures Free(e, taken) <==> active[e.a] && active[e.b]
  {
  }

  // With every edge blocked, two rows cannot both be active.
  lemma AllBlocked(n: nat, edges: seq<Edge>, active: seq<bool>, taken: seq<Edge>)
    requires (forall e :: e in edges <==> e.a < e.b < n) && |active| == n
    requires Matching(taken, n) && ActiveMeans(active, taken) && Blocked(edges, taken, |edges|)
    ensures |taken| == n / 2
  {
    hide Ends;
    NoneActive(active, taken);
    if r: nat :| r < n && active[r] {
      forall q: nat | q < n && q != r
        ensures q in Ends(taken)
      {
        var e := if q < r then Edge(q, r) else Edge(r, q);
        assert e in edges;
        var k :| 0 <= k < |edges| && edges[k] == e;
        assert !Free(edges[k], taken);
      }
      PositionsCover(Ends(taken), n, r);
    }
  }

  // Even numbers of rows are paired up completely, odd ones refused.
  method GloballyGreedyPairing(n: nat, distance: Distance) returns (pairs: Option<seq<Edge>>, score: real)
    ensures pairs.Some? <==> n % 2 == 0
    ensures pairs.Some? ==> Perfect(pairs.value, n) && Greedy(pairs.value, n, distance)
    ensures pairs.Some? ==> score == Score(pairs.value, distance)
  {
    hide Ends, ShortestFree, Score;
    var taken, active := TakeEdges(n, distance, n / 2);
    score := 0.0;
    NoScore(distance);
    NoneActive(active[..], taken);
    ghost var settled := active[..];
    for k := 0 to |taken|
      invariant score == Score(taken[..k], distance) && active[..] == settled
    {
      assert taken[..k + 1] == taken[..k] + [taken[k]];
      ScoreSnoc(taken[..k], taken[k], distance);
      score := score + 0.5 * distance(taken[k].a, taken[k].b);
    }
    assert taken[..|taken|] == taken;
    var left := exists r :: 0 <= r < n && active[r];
    pairs := if left || |taken| != n / 2 then None else Some(taken);
  }

  lemma NoScore(distance: Distance)
    ensures Score([], distance) == 0.0
  {
  }
}
