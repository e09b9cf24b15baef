// Seeding K row clusters: rows are paired, the closest pairs of pairs merged until exactly K groups
// of two or four rows remain, and the reported cost is the true within-group squared error.
module RowSeeding {
  import opened Numeric
  import opened RowPairing
  import opened Slices

  // ----- distances -----

  function SquaredDistance(x: seq<real>, y: seq<real>): real
    requires |x| == |y|
  {
    if |x| == 0 then 0.0
    else SquaredDistance(x[..|x| - 1], y[..|y| - 1]) + Square(x[|x| - 1] - y[|y| - 1])
  }

  function Dot(x: seq<real>, y: seq<real>): real
    requires |x| == |y|
  {
    if |x| == 0 then 0.0 else Dot(x[..|x| - 1], y[..|y| - 1]) + x[|x| - 1] * y[|y| - 1]
  }

  // norm + norm - 2 * dot, clamped at zero: the clamp never acts.
  function NormDistance(x: seq<real>, y: seq<real>): real
    requires |x| == |y|
  {
    Max(Dot(x, x) + Dot(y, y) - 2.0 * Dot(x, y), 0.0)
  }

  lemma {:induction false} Expanded(x: seq<real>, y: seq<real>)
    requires |x| == |y|
    ensures SquaredDistance(x, y) == Dot(x, x) + Dot(y, y) - 2.0 * Dot(x, y) >= 0.0
  {
    if |x| > 0 {
      var n := |x| - 1;
      Expanded(x[..n], y[..n]);
      SquareFacts(x[n] - y[n]);
      Binomial(x[n], y[n]);
    }
  }

  lemma Binomial(a: real, b: real)
    ensures Square(a - b) == a * a + b * b - 2.0 * (a * b)
  {
  }

  lemma NormForm(x: seq<real>, y: seq<real>)
    requires |x| == |y|
    ensures NormDistance(x, y) == SquaredDistance(x, y)
  {
    Expanded(x, y);
  }

  // ----- groups of rows -----

  predicate Rectangular(rows: seq<seq<real>>, columns: nat) { forall r :: 0 <= r < |rows| ==> |rows[r]| == columns }

  function Column(rows: seq<seq<real>>, columns: nat, group: seq<nat>, d: nat): (c: seq<real>)
    requires Rectangular(rows, columns) && d < columns && forall k :: 0 <= k < |group| ==> group[k] < |rows|
    ensures |c| == |group| && forall k :: 0 <= k < |c| ==> c[k] == rows[group[k]][d]
  {
    seq(|group|, k requires 0 <= k < |group| => rows[group[k]][d])
  }

  // sums / counts
  function Mean(rows: seq<seq<real>>, columns: nat, group: seq<nat>): (m: seq<real>)
    requires Rectangular(rows, columns) && |group| > 0 && forall k :: 0 <= k < |group| ==> group[k] < |rows|
    ensures |m| == columns && forall d :: 0 <= d < columns ==>
      m[d] == Sum(Column(rows, columns, group, d)) / |group| as real
  {
    seq(columns, d requires 0 <= d < columns => Sum(Column(rows, columns, group, d)) / |group| as real)
  }

  function Errors(rows: seq<seq<real>>, group: seq<nat>, center: seq<real>): (e: seq<real>)
    requires Rectangular(rows, |center|) && forall k :: 0 <= k < |group| ==> group[k] < |rows|
    ensures |e| == |group| && forall k :: 0 <= k < |e| ==> e[k] == SquaredDistance(rows[group[k]], center)
  {
    seq(|group|, k requires 0 <= k < |group| => SquaredDistance(rows[group[k]], center))
  }

  // Squared error of a group about its own mean.
  function WithinSse(rows: seq<seq<real>>, columns: nat, group: seq<nat>): real
    requires Rectangular(rows, columns) && |group| > 0 && forall k :: 0 <= k < |group| ==> group[k] < |rows|
  {
    Sum(Errors(rows, group, Mean(rows, columns, group)))
  }

  lemma SumOfTwo(xs: seq<real>)
    requires |xs| == 2
    ensures Sum(xs) == xs[0] + xs[1]
  {
    SumPrefix(xs, 0);
    SumPrefix(xs, 1);
    assert xs[..0] == [] && xs[..2] == xs;
  }

  lemma SumOfFour(xs: seq<real>)
    requires |xs| == 4
    ensures Sum(xs) == xs[0] + xs[1] + xs[2] + xs[3]
  {
    SumConcat(xs[..2], xs[2..]);
    assert xs == xs[..2] + xs[2..];
    SumOfTwo(xs[..2]);
    SumOfTwo(xs[2..]);
  }

  predicate Halfway(a: seq<real>, b: seq<real>, m: seq<real>) {
    |a| == |b| == |m| && forall d :: 0 <= d < |m| ==> m[d] == (a[d] + b[d]) / 2.0
  }

  lemma HalvesSquare(a: real, b: real)
    ensures Square(a - (a + b) / 2.0) + Square(b - (a + b) / 2.0) == Square(a - b) / 2.0
  {
    var h := (a - b) / 2.0;
    assert a - (a + b) / 2.0 == h && b - (a + b) / 2.0 == -h && a - b == h + h;
    SquareFacts(h);
    Doubled(h);
  }

  lemma Doubled(h: real)
    ensures Square(h + h) == 4.0 * Square(h)
  {
  }

  // Two rows about their midpoint.
  lemma {:induction false} PairCost(a: seq<real>, b: seq<real>, m: seq<real>)
    requires Halfway(a, b, m)
    ensures SquaredDistance(a, m) + SquaredDistance(b, m) == SquaredDistance(a, b) / 2.0
  {
    hide Square;
    if |m| > 0 {
      var n := |m| - 1;
      PairCost(a[..n], b[..n], m[..n]);
      HalvesSquare(a[n], b[n]);
    }
  }

  // Two points about the midpoint of another two with the same total: Ward's increase.
  lemma {:induction false} ShiftCost(a: seq<real>, b: seq<real>, m: seq<real>, c: seq<real>)
    requires Halfway(a, b, m) && |c| == |m|
    ensures SquaredDistance(a, c) + SquaredDistance(b, c)
      == SquaredDistance(a, m) + SquaredDistance(b, m) + 2.0 * SquaredDistance(m, c)
  {
    hide Square;
    if |m| > 0 {
      var n := |m| - 1;
      ShiftCost(a[..n], b[..n], m[..n], c[..n]);
      ShiftSquare(a[n], b[n], m[n], c[n]);
    }
  }

  lemma ShiftSquare(a: real, b: real, m: real, c: real)
    requires m == (a + b) / 2.0
    ensures Square(a - c) + Square(b - c) == Square(a - m) + Square(b - m) + 2.0 * Square(m - c)
  {
    var h, t := a - m, m - c;
    assert b - m == -h && a - c == h + t && b - c == t - h;
    SumAndDifference(h, t);
    SquareFacts(h);
  }

  lemma SumAndDifference(h: real, t: real)
    ensures Square(h + t) + Square(t - h) == 2.0 * Square(h) + 2.0 * Square(t)
  {
  }

  // Two pairs merged: their own costs and the squared distance of their centroids.
  lemma QuadCost(a: seq<real>, b: seq<real>, c: seq<real>, d: seq<real>, p: seq<real>, q: seq<real>, m: seq<real>)
    requires Halfway(a, b, p) && Halfway(c, d, q) && Halfway(p, q, m)
    ensures SquaredDistance(a, m) + SquaredDistance(b, m) + SquaredDistance(c, m) + SquaredDistance(d, m)
         == SquaredDistance(a, b) / 2.0 + SquaredDistance(c, d) / 2.0 + SquaredDistance(p, q)
  {
    hide SquaredDistance;
    ShiftCost(a, b, p, m);
    ShiftCost(c, d, q, m);
    PairCost(a, b, p);
    PairCost(c, d, q);
    PairCost(p, q, m);
  }

  predicate Inside(group: seq<nat>, n: nat) { |group| > 0 && forall k :: 0 <= k < |group| ==> group[k] < n }

  lemma PairGroup(rows: seq<seq<real>>, columns: nat, a: nat, b: nat)
    requires Rectangular(rows, columns) && a < |rows| && b < |rows|
    ensures WithinSse(rows, columns, [a, b]) == SquaredDistance(rows[a], rows[b]) / 2.0
    ensures Halfway(rows[a], rows[b], Mean(rows, columns, [a, b]))
  {
    hide SquaredDistance, Sum;
    var m := Mean(rows, columns, [a, b]);
    forall d | 0 <= d < columns
      ensures m[d] == (rows[a][d] + rows[b][d]) / 2.0
    {
      SumOfTwo(Column(rows, columns, [a, b], d));
    }
    SumOfTwo(Errors(rows, [a, b], m));
    PairCost(rows[a], rows[b], m);
  }

  lemma QuadMean(rows: seq<seq<real>>, columns: nat, a: nat, b: nat, c: nat, d: nat)
    requires Rectangular(rows, columns) && a < |rows| && b < |rows| && c < |rows| && d < |rows|
    ensures Halfway(Mean(rows, columns, [a, b]), Mean(rows, columns, [c, d]), Mean(rows, columns, [a, b, c, d]))
  {
    hide SquaredDistance, Sum;
    forall k | 0 <= k < columns
      ensures Mean(rows, columns, [a, b, c, d])[k]
        == (Mean(rows, columns, [a, b])[k] + Mean(rows, columns, [c, d])[k]) / 2.0
    {
      SumOfTwo(Column(rows, columns, [a, b], k));
      SumOfTwo(Column(rows, columns, [c, d], k));
      SumOfFour(Column(rows, columns, [a, b, c, d], k));
    }
  }

  // A merged group costs its two pairs plus the squared distance of their centroids.
  lemma QuadGroup(rows: seq<seq<real>>, columns: nat, a: nat, b: nat, c: nat, d: nat)
    requires Rectangular(rows, columns) && a < |rows| && b < |rows| && c < |rows| && d < |rows|
    ensures WithinSse(rows, columns, [a, b, c, d])
         == SquaredDistance(rows[a], rows[b]) / 2.0 + SquaredDistance(rows[c], rows[d]) / 2.0
            + SquaredDistance(Mean(rows, columns, [a, b]), Mean(rows, columns, [c, d]))
  {
    hide SquaredDistance, Sum, Mean;
    PairGroup(rows, columns, a, b);
    PairGroup(rows, columns, c, d);
    QuadMean(rows, columns, a, b, c, d);
    SumOfFour(Errors(rows, [a, b, c, d], Mean(rows, columns, [a, b, c, d])));
    QuadCost(rows[a], rows[b], rows[c], rows[d], Mean(rows, columns, [a, b]), Mean(rows, columns, [c, d]),
      Mean(rows, columns, [a, b, c, d]));
  }

  // ----- groups from pairs and merges -----

  predicate Below(xs: seq<nat>, n: nat) { forall k :: 0 <= k < |xs| ==> xs[k] < n }

  predicate PairsIn(pairs: seq<Edge>, n: nat) { forall k :: 0 <= k < |pairs| ==> pairs[k].a < n && pairs[k].b < n }

  function PairRows(p: Edge): seq<nat> { [p.a, p.b] }

  function MergedGroups(pairs: seq<Edge>, merged: seq<Edge>): (groups: seq<seq<nat>>)
    requires PairsIn(merged, |pairs|)
    ensures |groups| == |merged|
    ensures forall g :: 0 <= g < |groups| ==> groups[g] == PairRows(pairs[merged[g].a]) + PairRows(pairs[merged[g].b])
  {
    seq(|merged|, g requires 0 <= g < |merged| => PairRows(pairs[merged[g].a]) + PairRows(pairs[merged[g].b]))
  }

  function SingleGroups(pairs: seq<Edge>, rest: seq<nat>): (groups: seq<seq<nat>>)
    requires Below(rest, |pairs|)
    ensures |groups| == |rest| && forall g :: 0 <= g < |groups| ==> groups[g] == PairRows(pairs[rest[g]])
  {
    seq(|rest|, g requires 0 <= g < |rest| => PairRows(pairs[rest[g]]))
  }

  lemma {:induction false} EndsConcat(xs: seq<Edge>, ys: seq<Edge>)
    ensures Ends(xs + ys) == Ends(xs) + Ends(ys)
    decreases |ys|
  {
    hide Ends;
    if ys == [] {
      assert xs + ys == xs;
      NoEnds();
    } else {
      var n := |ys| - 1;
      EndsConcat(xs, ys[..n]);
      assert xs + ys == (xs + ys[..n]) + [ys[n]];
      EndsSnoc(xs + ys[..n], ys[n]);
      EndsSnoc(ys[..n], ys[n]);
      assert ys == ys[..n] + [ys[n]];
    }
  }

  lemma NoEnds()
    ensures Ends([]) == []
  {
  }

  lemma {:induction false} EndsBelow(merged: seq<Edge>, n: nat)
    requires PairsIn(merged, n)
    ensures Below(Ends(merged), n)
  {
    hide Ends;
    forall k | 0 <= k < |Ends(merged)|
      ensures Ends(merged)[k] < n
    {
      assert k == 2 * (k / 2) + k % 2;
      assert Ends(merged)[2 * (k / 2)] == merged[k / 2].a;
    }
  }

  lemma {:induction false} MergedFlat(pairs: seq<Edge>, merged: seq<Edge>)
    requires PairsIn(merged, |pairs|)
    ensures Below(Ends(merged), |pairs|)
    ensures Flatten(MergedGroups(pairs, merged)) == Ends(TakenAt(pairs, Ends(merged)))
  {
    hide Ends, PairRows, TakenAt;
    EndsBelow(merged, |pairs|);
    if |merged| == 0 {
      assert TakenAt(pairs, Ends(merged)) == [];
      NoEnds();
    } else {
      var n := |merged| - 1;
      var m := merged[n];
      MergedFlat(pairs, merged[..n]);
      assert merged == merged[..n] + [m];
      EndsSnoc(merged[..n], m);
      MergedSnoc(pairs, merged);
      PickTwo(pairs, Ends(merged[..n]), m.a, m.b);
    }
  }

  lemma MergedSnoc(pairs: seq<Edge>, merged: seq<Edge>)
    requires PairsIn(merged, |pairs|) && |merged| > 0
    ensures var m := merged[|merged| - 1];
      Flatten(MergedGroups(pairs, merged))
      == Flatten(MergedGroups(pairs, merged[..|merged| - 1])) + (PairRows(pairs[m.a]) + PairRows(pairs[m.b]))
  {
    hide PairRows;
    assert MergedGroups(pairs, merged)[..|merged| - 1] == MergedGroups(pairs, merged[..|merged| - 1]);
  }

  lemma PickTwo(pairs: seq<Edge>, at: seq<nat>, a: nat, b: nat)
    requires Below(at, |pairs|) && a < |pairs| && b < |pairs|
    ensures Ends(TakenAt(pairs, at + [a, b])) == Ends(TakenAt(pairs, at)) + (PairRows(pairs[a]) + PairRows(pairs[b]))
  {
    hide Ends;
    var front := TakenAt(pairs, at);
    assert TakenAt(pairs, at + [a, b]) == front + [pairs[a]] + [pairs[b]];
    EndsSnoc(front, pairs[a]);
    EndsSnoc(front + [pairs[a]], pairs[b]);
  }

  lemma {:induction false} SingleFlat(pairs: seq<Edge>, rest: seq<nat>)
    requires Below(rest, |pairs|)
    ensures Flatten(SingleGroups(pairs, rest)) == Ends(TakenAt(pairs, rest))
  {
    hide Ends;
    if |rest| == 0 {
      assert TakenAt(pairs, rest) == [];
      NoEnds();
    } else {
      var n := |rest| - 1;
      SingleFlat(pairs, rest[..n]);
      assert SingleGroups(pairs, rest)[..n] == SingleGroups(pairs, rest[..n]);
      assert TakenAt(pairs, rest) == TakenAt(pairs, rest[..n]) + [pairs[rest[n]]];
      EndsSnoc(TakenAt(pairs, rest[..n]), pairs[rest[n]]);
    }
  }

  // Taking the pairs in another order keeps all rows distinct.
  lemma PermutedEnds(pairs: seq<Edge>, order: seq<nat>, n: nat)
    requires Matching(pairs, n) && Positions(order, |pairs|)
    ensures Positions(Ends(TakenAt(pairs, order)), n)
  {
    hide Ends, TakenAt;
    var xs, was := Ends(TakenAt(pairs, order)), Ends(pairs);
    forall i | 0 <= i < |xs|
      ensures xs[i] < n
    {
      HalfAndRest(i);
      EndAt(pairs, order, i, i / 2, i % 2);
    }
    forall i, j | 0 <= i < j < |xs|
      ensures xs[i] != xs[j]
    {
      var p, q, s, t := i / 2, j / 2, i % 2, j % 2;
      HalfAndRest(i);
      HalfAndRest(j);
      EndAt(pairs, order, i, p, s);
      EndAt(pairs, order, j, q, t);
      if p != q { Apart(order, |pairs|, p, q); }
      Apart(was, n, 2 * order[p] + s, 2 * order[q] + t);
    }
  }

  lemma EndAt(pairs: seq<Edge>, order: seq<nat>, i: nat, k: nat, side: nat)
    requires Below(order, |pairs|) && k < |order| && side < 2 && i == 2 * k + side
    ensures i < |Ends(TakenAt(pairs, order))| && 2 * order[k] + side < 2 * |pairs|
    ensures Ends(TakenAt(pairs, order))[i] == Ends(pairs)[2 * order[k] + side]
  {
    hide Ends;
    EndsOf(pairs, order, k);
    assert side == 0 || side == 1;
  }

  lemma HalfAndRest(i: nat)
    ensures i == 2 * (i / 2) + i % 2 && 0 <= i % 2 < 2
  {
  }

  lemma EndsOf(pairs: seq<Edge>, order: seq<nat>, k: nat)
    requires Below(order, |pairs|) && k < |order|
    ensures var xs, was := Ends(TakenAt(pairs, order)), Ends(pairs);
      && |xs| == 2 * |order| && |was| == 2 * |pairs|
      && xs[2 * k] == was[2 * order[k]] && xs[2 * k + 1] == was[2 * order[k] + 1]
  {
    hide Ends;
    assert TakenAt(pairs, order)[k] == pairs[order[k]];
  }

  lemma Apart(xs: seq<nat>, n: nat, i: nat, j: nat)
    requires Positions(xs, n) && i < |xs| && j < |xs| && i != j
    ensures xs[i] != xs[j]
  {
  }

  // Every row lies in exactly one group.
  predicate Partition(groups: seq<seq<nat>>, n: nat) { Positions(Flatten(groups), n) && |Flatten(groups)| == n }

  predicate Order(merged: seq<Edge>, rest: seq<nat>, n: nat) {
    Positions(Ends(merged) + rest, n) && |Ends(merged) + rest| == n
  }

  lemma GroupsPartition(pairs: seq<Edge>, merged: seq<Edge>, rest: seq<nat>, n: nat)
    requires Perfect(pairs, n) && Order(merged, rest, |pairs|) && PairsIn(merged, |pairs|)
    requires Below(rest, |pairs|)
    ensures Partition(MergedGroups(pairs, merged) + SingleGroups(pairs, rest), n)
  {
    hide Ends, Flatten;
    var order := Ends(merged) + rest;
    MergedFlat(pairs, merged);
    SingleFlat(pairs, rest);
    FlattenConcat(MergedGroups(pairs, merged), SingleGroups(pairs, rest));
    assert TakenAt(pairs, order) == TakenAt(pairs, Ends(merged)) + TakenAt(pairs, rest);
    EndsConcat(TakenAt(pairs, Ends(merged)), TakenAt(pairs, rest));
    PermutedEnds(pairs, order, n);
  }

  // ----- the cost of the groups -----

  predicate AllInside(groups: seq<seq<nat>>, n: nat) { forall g :: 0 <= g < |groups| ==> Inside(groups[g], n) }

  function TotalSse(rows: seq<seq<real>>, columns: nat, groups: seq<seq<nat>>): real
    requires Rectangular(rows, columns) && AllInside(groups, |rows|)
  {
    if |groups| == 0 then 0.0
    else TotalSse(rows, columns, groups[..|groups| - 1]) + WithinSse(rows, columns, groups[|groups| - 1])
  }

  lemma {:induction false} TotalConcat(rows: seq<seq<real>>, columns: nat, xs: seq<seq<nat>>, ys: seq<seq<nat>>)
    requires Rectangular(rows, columns) && AllInside(xs, |rows|) && AllInside(ys, |rows|)
    ensures AllInside(xs + ys, |rows|)
    ensures TotalSse(rows, columns, xs + ys) == TotalSse(rows, columns, xs) + TotalSse(rows, columns, ys)
    decreases |ys|
  {
    hide WithinSse;
    if ys == [] {
      assert xs + ys == xs;
    } else {
      TotalConcat(rows, columns, xs, ys[..|ys| - 1]);
      assert (xs + ys)[..|xs + ys| - 1] == xs + ys[..|ys| - 1];
    }
  }

  function PairCosts(rows: seq<seq<real>>, columns: nat, pairs: seq<Edge>): (c: seq<real>)
    requires Rectangular(rows, columns) && PairsIn(pairs, |rows|)
    ensures |c| == |pairs| && forall k :: 0 <= k < |c| ==>
      c[k] == SquaredDistance(rows[pairs[k].a], rows[pairs[k].b]) / 2.0
  {
    seq(|pairs|, k requires 0 <= k < |pairs| => SquaredDistance(rows[pairs[k].a], rows[pairs[k].b]) / 2.0)
  }

  function Centroids(rows: seq<seq<real>>, columns: nat, pairs: seq<Edge>): (c: seq<seq<real>>)
    requires Rectangular(rows, columns) && PairsIn(pairs, |rows|)
    ensures |c| == |pairs| && Rectangular(c, columns)
    ensures forall k :: 0 <= k < |c| ==> c[k] == Mean(rows, columns, PairRows(pairs[k]))
  {
    seq(|pairs|, k requires 0 <= k < |pairs| => Mean(rows, columns, PairRows(pairs[k])))
  }

  function Between(points: seq<seq<real>>, columns: nat): Distance
    requires Rectangular(points, columns)
  {
    (i: nat, j: nat) => if i < |points| && j < |points| then NormDistance(points[i], points[j]) else 0.0
  }

  // Sum of the merged pairs' squared centroid distances.
  function Penalty(merged: seq<Edge>, distance: Distance): real {
    if |merged| == 0 then 0.0
    else Penalty(merged[..|merged| - 1], distance) + distance(merged[|merged| - 1].a, merged[|merged| - 1].b)
  }

  lemma {:induction false} ScoreIsCost(rows: seq<seq<real>>, columns: nat, pairs: seq<Edge>)
    requires Rectangular(rows, columns) && PairsIn(pairs, |rows|)
    ensures Score(pairs, Between(rows, columns)) == Sum(PairCosts(rows, columns, pairs))
  {
    hide SquaredDistance, NormDistance;
    if |pairs| > 0 {
      var n := |pairs| - 1;
      ScoreIsCost(rows, columns, pairs[..n]);
      NormForm(rows[pairs[n].a], rows[pairs[n].b]);
      assert PairCosts(rows, columns, pairs)[..n] == PairCosts(rows, columns, pairs[..n]);
    }
  }

  lemma {:induction false} MergedCost(rows: seq<seq<real>>, columns: nat, pairs: seq<Edge>, merged: seq<Edge>)
    requires Rectangular(rows, columns) && PairsIn(pairs, |rows|) && PairsIn(merged, |pairs|)
    ensures AllInside(MergedGroups(pairs, merged), |rows|)
    ensures Below(Ends(merged), |pairs|)
    ensures TotalSse(rows, columns, MergedGroups(pairs, merged))
         == Sum(TakenAt(PairCosts(rows, columns, pairs), Ends(merged)))
            + Penalty(merged, Between(Centroids(rows, columns, pairs), columns))
  {
    hide *;
    EndsBelow(merged, |pairs|);
    if |merged| == 0 {
      NoMerges(rows, columns, pairs, merged);
    } else {
      var n := |merged| - 1;
      var m, d := merged[n], Between(Centroids(rows, columns, pairs), columns);
      PairsAt(merged, |pairs|, n);
      EndsBelow(merged[..n], |pairs|);
      MergedCost(rows, columns, pairs, merged[..n]);
      assert merged == merged[..n] + [m];
      EndsSnoc(merged[..n], m);
      TwoMore(PairCosts(rows, columns, pairs), Ends(merged[..n]), m.a, m.b);
      OneMerge(rows, columns, pairs, m);
      MoreMerged(rows, columns, pairs, merged);
      PenaltySnoc(merged, d);
    }
  }

  lemma NoMerges(rows: seq<seq<real>>, columns: nat, pairs: seq<Edge>, merged: seq<Edge>)
    requires Rectangular(rows, columns) && PairsIn(pairs, |rows|) && merged == []
    ensures AllInside(MergedGroups(pairs, merged), |rows|)
    ensures TotalSse(rows, columns, MergedGroups(pairs, merged)) == 0.0
    ensures Sum(TakenAt(PairCosts(rows, columns, pairs), Ends(merged))) == 0.0
    ensures Penalty(merged, Between(Centroids(rows, columns, pairs), columns)) == 0.0
  {
  }

  lemma PairsAt(merged: seq<Edge>, n: nat, k: nat)
    requires PairsIn(merged, n) && k < |merged|
    ensures merged[k].a < n && merged[k].b < n && PairsIn(merged[..k], n)
  {
  }

  lemma PenaltySnoc(merged: seq<Edge>, d: Distance)
    requires |merged| > 0
    ensures Penalty(merged, d) == Penalty(merged[..|merged| - 1], d) + d(merged[|merged| - 1].a, merged[|merged| - 1].b)
  {
  }

  lemma MoreMerged(rows: seq<seq<real>>, columns: nat, pairs: seq<Edge>, merged: seq<Edge>)
    requires Rectangular(rows, columns) && PairsIn(pairs, |rows|) && PairsIn(merged, |pairs|) && |merged| > 0
    requires AllInside(MergedGroups(pairs, merged[..|merged| - 1]), |rows|)
    ensures var m := merged[|merged| - 1];
            var group := PairRows(pairs[m.a]) + PairRows(pairs[m.b]);
      && AllInside(MergedGroups(pairs, merged), |rows|) && Inside(group, |rows|)
      && TotalSse(rows, columns, MergedGroups(pairs, merged))
           == TotalSse(rows, columns, MergedGroups(pairs, merged[..|merged| - 1])) + WithinSse(rows, columns, group)
  {
    hide WithinSse;
    assert MergedGroups(pairs, merged)[..|merged| - 1] == MergedGroups(pairs, merged[..|merged| - 1]);
  }

  lemma TwoMore(costs: seq<real>, at: seq<nat>, a: nat, b: nat)
    requires Below(at, |costs|) && a < |costs| && b < |costs|
    ensures Below(at + [a, b], |costs|)
    ensures Sum(TakenAt(costs, at + [a, b])) == Sum(TakenAt(costs, at)) + costs[a] + costs[b]
  {
    hide Sum;
    assert TakenAt(costs, at + [a, b]) == TakenAt(costs, at) + [costs[a]] + [costs[b]];
    SumSnoc(TakenAt(costs, at), costs[a]);
    SumSnoc(TakenAt(costs, at) + [costs[a]], costs[b]);
  }

  lemma OneMerge(rows: seq<seq<real>>, columns: nat, pairs: seq<Edge>, m: Edge)
    requires Rectangular(rows, columns) && PairsIn(pairs, |rows|) && m.a < |pairs| && m.b < |pairs|
    ensures var costs := PairCosts(rows, columns, pairs);
            var group := PairRows(pairs[m.a]) + PairRows(pairs[m.b]);
      && Inside(group, |rows|)
      && WithinSse(rows, columns, group)
        == costs[m.a] + costs[m.b] + Between(Centroids(rows, columns, pairs), columns)(m.a, m.b)
  {
    hide SquaredDistance, NormDistance, WithinSse, Mean, Sum;
    var p, q := pairs[m.a], pairs[m.b];
    assert PairRows(p) + PairRows(q) == [p.a, p.b, q.a, q.b];
    QuadGroup(rows, columns, p.a, p.b, q.a, q.b);
    NormForm(Mean(rows, columns, PairRows(p)), Mean(rows, columns, PairRows(q)));
  }

  lemma {:induction false} SingleCost(rows: seq<seq<real>>, columns: nat, pairs: seq<Edge>, rest: seq<nat>)
    requires Rectangular(rows, columns) && PairsIn(pairs, |rows|) && Below(rest, |pairs|)
    ensures AllInside(SingleGroups(pairs, rest), |rows|)
    ensures TotalSse(rows, columns, SingleGroups(pairs, rest)) == Sum(TakenAt(PairCosts(rows, columns, pairs), rest))
  {
    hide SquaredDistance, WithinSse, Sum;
    var costs := PairCosts(rows, columns, pairs);
    if |rest| == 0 {
      assert TakenAt(costs, rest) == Zeros(0);
      SumZeros(Zeros(0));
    } else {
      var n := |rest| - 1;
      SingleCost(rows, columns, pairs, rest[..n]);
      assert SingleGroups(pairs, rest)[..n] == SingleGroups(pairs, rest[..n]);
      assert TakenAt(costs, rest) == TakenAt(costs, rest[..n]) + [costs[rest[n]]];
      SumSnoc(TakenAt(costs, rest[..n]), costs[rest[n]]);
      PairGroup(rows, columns, pairs[rest[n]].a, pairs[rest[n]].b);
    }
  }

  // base_pair_sse + merge_penalty is the squared error of the groups about their means.
  lemma ReportedCost(rows: seq<seq<real>>, columns: nat, pairs: seq<Edge>, merged: seq<Edge>, rest: seq<nat>)
    requires Rectangular(rows, columns) && PairsIn(pairs, |rows|) && PairsIn(merged, |pairs|)
    requires Order(merged, rest, |pairs|) && Below(rest, |pairs|)
    ensures AllInside(MergedGroups(pairs, merged) + SingleGroups(pairs, rest), |rows|)
    ensures TotalSse(rows, columns, MergedGroups(pairs, merged) + SingleGroups(pairs, rest))
         == Score(pairs, Between(rows, columns)) + Penalty(merged, Between(Centroids(rows, columns, pairs), columns))
  {
    hide *;
    var costs := PairCosts(rows, columns, pairs);
    MergedCost(rows, columns, pairs, merged);
    SingleCost(rows, columns, pairs, rest);
    TotalConcat(rows, columns, MergedGroups(pairs, merged), SingleGroups(pairs, rest));
    CostsReordered(costs, merged, rest);
    ScoreIsCost(rows, columns, pairs);
  }

  lemma CostsReordered(costs: seq<real>, merged: seq<Edge>, rest: seq<nat>)
    requires Order(merged, rest, |costs|) && Below(rest, |costs|) && Below(Ends(merged), |costs|)
    ensures Sum(TakenAt(costs, Ends(merged))) + Sum(TakenAt(costs, rest)) == Sum(costs)
  {
    hide Sum, Ends;
    SumPermuted(costs, Ends(merged) + rest);
    assert TakenAt(costs, Ends(merged) + rest) == TakenAt(costs, Ends(merged)) + TakenAt(costs, rest);
    SumConcat(TakenAt(costs, Ends(merged)), TakenAt(costs, rest));
  }

  // ----- the seeding -----

  datatype Outcome =
    | Seeded(groups: seq<seq<nat>>, means: seq<seq<real>>, sse: real, candidate: nat)
    | BadSizes
    | BadRestarts
    | CannotMerge
    | NoRows

  // The guard on the sizes; its division drops remainders.
  predicate Accepted(n: nat, entries: int) { n % 2 == 0 && n / 4 <= entries <= n / 2 }

  datatype Candidate = Candidate(pairs: seq<Edge>, score: real)

  // The global pairing first, then one ordered pairing for each order.
  ghost predicate CandidatesOk(candidates: seq<Candidate>, n: nat, distance: Distance, orders: seq<seq<nat>>) {
    && 0 < |candidates| <= 1 + |orders|
    && (forall c :: 0 <= c < |candidates| ==>
          Perfect(candidates[c].pairs, n) && candidates[c].score == Score(candidates[c].pairs, distance))
    && Greedy(candidates[0].pairs, n, distance)
    && (forall c :: 0 < c < |candidates| ==>
          AllNearest(candidates[c].pairs, n, distance) && AllInTurn(candidates[c].pairs, orders[c - 1]))
  }

  // min(candidates, key=score): the first candidate of least score.
  function LeastCandidate(candidates: seq<Candidate>): (c: nat)
    requires candidates != []
    ensures c < |candidates|
    ensures forall i :: 0 <= i < |candidates| ==> candidates[c].score <= candidates[i].score
    ensures forall i :: 0 <= i < c ==> candidates[c].score < candidates[i].score
  {
    ArgMin(Scores(candidates))
  }

  function Scores(candidates: seq<Candidate>): (xs: seq<real>)
    ensures |xs| == |candidates| && forall i :: 0 <= i < |xs| ==> xs[i] == candidates[i].score
  {
    seq(|candidates|, i requires 0 <= i < |candidates| => candidates[i].score)
  }

  method Candidates(n: nat, distance: Distance, orders: seq<seq<nat>>) returns (candidates: seq<Candidate>)
    requires n % 2 == 0
    requires forall k :: 0 <= k < |orders| ==> IsOrder(orders[k], n)
    ensures CandidatesOk(candidates, n, distance, orders) && |candidates| == 1 + |orders|
  {
    hide Perfect, Score, AllNearest, AllInTurn, Greedy;
    var global, globalScore := GloballyGreedyPairing(n, distance);
    candidates := [Candidate(global.value, globalScore)];
    for k := 0 to |orders|
      invariant CandidatesOk(candidates, n, distance, orders) && |candidates| == 1 + k
    {
      assert IsOrder(orders[k], n);
      var pairs, score := OrderedNearestPairing(n, distance, orders[k]);
      candidates := candidates + [Candidate(pairs.value, score)];
    }
  }

  predicate IsOrder(order: seq<nat>, n: nat) {
    Positions(order, n) && |order| == n && forall r: nat :: r < n ==> r in order
  }

  // np.flatnonzero
  function Remaining(active: seq<bool>): (rest: seq<nat>)
    ensures Below(rest, |active|)
  {
    if |active| == 0 then []
    else
      var n := |active| - 1;
      Remaining(active[..n]) + if active[n] then [n] else []
  }

  lemma {:induction false} RemainingAre(active: seq<bool>)
    ensures Positions(Remaining(active), |active|)
    ensures forall r: nat :: r in Remaining(active) <==> r < |active| && active[r]
  {
    if |active| > 0 {
      var n := |active| - 1;
      RemainingAre(active[..n]);
      assert forall r: nat :: r < n ==> active[..n][r] == active[r];
    }
  }

  // Merged pairs and remaining ones together are all pairs, once each.
  lemma AllPairs(active: seq<bool>, merged: seq<Edge>)
    requires Matching(merged, |active|) && ActiveMeans(active, merged)
    ensures PairsIn(merged, |active|) && Order(merged, Remaining(active), |active|)
    ensures |Remaining(active)| == |active| - 2 * |merged|
  {
    hide Ends, Remaining;
    RemainingAre(active);
    var xs, rest := Ends(merged), Remaining(active);
    assert forall k :: 0 <= k < |merged| ==> merged[k].a == xs[2 * k] && merged[k].b == xs[2 * k + 1];
    Together(xs, rest, |active|);
    forall r: nat | r < |active|
      ensures r in xs + rest
    {
      assert r in xs || r in rest;
    }
    PositionsCover(xs + rest, |active|, |active|);
  }

  lemma Together(xs: seq<nat>, ys: seq<nat>, n: nat)
    requires Positions(xs, n) && Positions(ys, n) && forall r :: r in ys ==> r !in xs
    ensures Positions(xs + ys, n)
  {
    forall i, j | 0 <= i < j < |xs + ys|
      ensures (xs + ys)[i] != (xs + ys)[j]
    {
      if i < |xs| <= j {
        assert ys[j - |xs|] in ys && xs[i] in xs;
      }
    }
  }

  // The closest pairs of pairs, with the flags of those left alone.
  method MergePairs(n: nat, distance: Distance, wanted: nat) returns (merged: seq<Edge>, rest: seq<nat>, penalty: real)
    ensures Matching(merged, n) && Greedy(merged, n, distance) && |merged| == Smaller(wanted, n / 2)
    ensures PairsIn(merged, n) && Order(merged, rest, n) && Below(rest, n) && |rest| == n - 2 * |merged|
    ensures penalty == Penalty(merged, distance)
  {
    hide Ends, ShortestFree, Penalty, Remaining, Order;
    merged, penalty := [], 0.0;
    NoPenalty(distance);
    if wanted == 0 {
      var active: seq<bool> := seq(n, i => true);
      NothingTaken(active, n, distance);
      AllPairs(active, []);
      rest := Remaining(active);
      return;
    }
    var taken, active := TakeEdges(n, distance, wanted);
    AllPairs(active[..], taken);
    rest := Remaining(active[..]);
    for k := 0 to |taken|
      invariant penalty == Penalty(taken[..k], distance)
    {
      assert taken[..k + 1][..k] == taken[..k];
      PenaltySnoc(taken[..k + 1], distance);
      penalty := penalty + distance(taken[k].a, taken[k].b);
    }
    assert taken[..|taken|] == taken;
    merged := taken;
  }

  lemma NoPenalty(distance: Distance)
    ensures Penalty([], distance) == 0.0
  {
  }

  // The groups are the pairs, the shortest merges of their centroids taken greedily, and the cost is
  // the pairs' score and the merges' penalty.
  ghost predicate Clustered(rows: seq<seq<real>>, columns: nat, pairs: seq<Edge>, groups: seq<seq<nat>>, sse: real)
    requires Rectangular(rows, columns) && PairsIn(pairs, |rows|)
  {
    exists merged, rest :: ClusteredBy(rows, columns, pairs, groups, sse, merged, rest)
  }

  ghost predicate ClusteredBy(rows: seq<seq<real>>, columns: nat, pairs: seq<Edge>, groups: seq<seq<nat>>, sse: real,
      merged: seq<Edge>, rest: seq<nat>)
    requires Rectangular(rows, columns) && PairsIn(pairs, |rows|)
  {
    var d := Between(Centroids(rows, columns, pairs), columns);
    && PairsIn(merged, |pairs|) && Below(rest, |pairs|) && Order(merged, rest, |pairs|) && Greedy(merged, |pairs|, d)
    && groups == MergedGroups(pairs, merged) + SingleGroups(pairs, rest)
    && sse == Score(pairs, Between(rows, columns)) + Penalty(merged, d)
  }

  // Exactly `entries` groups of two or four rows, every row in one of them, each mean its group's,
  // and the reported cost the true one, from the least-scoring candidate pairing. The guard lets
  // through one family it cannot serve: an odd number of pairs merged to its half rounded down.
  method Seed(rows: seq<seq<real>>, columns: nat, entries: int, orders: seq<seq<nat>>)
      returns (o: Outcome, candidates: seq<Candidate>)
    requires Rectangular(rows, columns) && forall k :: 0 <= k < |orders| ==> IsOrder(orders[k], |rows|)
    ensures o.BadSizes? <==> !Accepted(|rows|, entries)
    ensures o.BadRestarts? <==> Accepted(|rows|, entries) && orders == []
    ensures o.CannotMerge? <==> Accepted(|rows|, entries) && orders != [] && |rows| % 4 == 2 && entries == |rows| / 4
    ensures o.NoRows? <==> Accepted(|rows|, entries) && orders != [] && |rows| == 0
    ensures o.Seeded? ==> |o.groups| == |o.means| == entries && Partition(o.groups, |rows|)
    ensures o.Seeded? ==> SizesAre(o.groups, |rows| / 2 - entries)
    ensures o.Seeded? ==> AllInside(o.groups, |rows|) && o.sse == TotalSse(rows, columns, o.groups)
    ensures o.Seeded? ==> forall g :: 0 <= g < entries ==> o.means[g] == Mean(rows, columns, o.groups[g])
    ensures o.Seeded? ==>
      && CandidatesOk(candidates, |rows|, Between(rows, columns), orders) && |candidates| == 1 + |orders|
      && o.candidate == LeastCandidate(candidates)
      && PairsIn(candidates[o.candidate].pairs, |rows|)
      && Clustered(rows, columns, candidates[o.candidate].pairs, o.groups, o.sse)
  {
    hide *;
    candidates := [];
    if !Accepted(|rows|, entries) {
      return BadSizes, candidates;
    }
    if orders == [] {
      return BadRestarts, candidates;
    }
    var n := |rows|;
    AcceptedEven(n, entries);
    candidates := Candidates(n, Between(rows, columns), orders);
    SomeCandidate(candidates, n, Between(rows, columns), orders);
    var candidate := LeastCandidate(candidates);
    var pairs, base := candidates[candidate].pairs, candidates[candidate].score;
    CandidatePerfect(candidates, n, Between(rows, columns), orders, candidate);
    PerfectPairs(pairs, n);
    var wanted := |pairs| - entries;
    var merged, rest, penalty := MergePairs(|pairs|, Between(Centroids(rows, columns, pairs), columns), wanted);
    HalfOf(n, entries, wanted);
    if |merged| != wanted {
      return CannotMerge, candidates;
    }
    if n == 0 {
      return NoRows, candidates;
    }
    var groups := MergedGroups(pairs, merged) + SingleGroups(pairs, rest);
    GroupsPartition(pairs, merged, rest, n);
    ReportedCost(rows, columns, pairs, merged, rest);
    GroupSizes(pairs, merged, rest);
    var means := Means(rows, columns, groups);
    o := Seeded(groups, means, base + penalty, candidate);
    AreClustered(rows, columns, pairs, groups, base + penalty, merged, rest);
  }

  lemma AcceptedEven(n: nat, entries: int)
    requires Accepted(n, entries)
    ensures n % 2 == 0 && 0 <= entries <= n / 2
  {
  }

  lemma SomeCandidate(candidates: seq<Candidate>, n: nat, distance: Distance, orders: seq<seq<nat>>)
    requires CandidatesOk(candidates, n, distance, orders)
    ensures candidates != []
  {
  }

  lemma CandidatePerfect(candidates: seq<Candidate>, n: nat, distance: Distance, orders: seq<seq<nat>>, c: nat)
    requires CandidatesOk(candidates, n, distance, orders) && c < |candidates|
    ensures Perfect(candidates[c].pairs, n) && candidates[c].score == Score(candidates[c].pairs, distance)
  {
    hide Perfect, Score;
  }

  lemma AreClustered(rows: seq<seq<real>>, columns: nat, pairs: seq<Edge>, groups: seq<seq<nat>>, sse: real,
      merged: seq<Edge>, rest: seq<nat>)
    requires Rectangular(rows, columns) && PairsIn(pairs, |rows|) && PairsIn(merged, |pairs|) && Below(rest, |pairs|)
    requires Order(merged, rest, |pairs|) && Greedy(merged, |pairs|, Between(Centroids(rows, columns, pairs), columns))
    requires groups == MergedGroups(pairs, merged) + SingleGroups(pairs, rest)
    requires sse == Score(pairs, Between(rows, columns))
      + Penalty(merged, Between(Centroids(rows, columns, pairs), columns))
    ensures Clustered(rows, columns, pairs, groups, sse)
  {
    hide Order, Greedy, MergedGroups, SingleGroups, Score, Penalty, Between, Centroids, PairsIn, Below;
    assert ClusteredBy(rows, columns, pairs, groups, sse, merged, rest);
  }

  lemma PerfectPairs(pairs: seq<Edge>, n: nat)
    requires Perfect(pairs, n)
    ensures PairsIn(pairs, n) && 2 * |pairs| == n
  {
    hide Ends;
    var xs := Ends(pairs);
    assert forall k :: 0 <= k < |pairs| ==> pairs[k].a == xs[2 * k] && pairs[k].b == xs[2 * k + 1];
  }

  // When as many merges as wanted exist.
  lemma HalfOf(n: nat, entries: int, wanted: int)
    requires Accepted(n, entries) && wanted == n / 2 - entries
    ensures Smaller(wanted, n / 2 / 2) != wanted <==> n % 4 == 2 && entries == n / 4
  {
  }

  // The first `fours` groups have four rows, the others two.
  predicate SizesAre(groups: seq<seq<nat>>, fours: int) {
    forall g :: 0 <= g < |groups| ==> |groups[g]| == if g < fours then 4 else 2
  }

  lemma GroupSizes(pairs: seq<Edge>, merged: seq<Edge>, rest: seq<nat>)
    requires PairsIn(merged, |pairs|) && Below(rest, |pairs|)
    ensures SizesAre(MergedGroups(pairs, merged) + SingleGroups(pairs, rest), |merged|)
    ensures |MergedGroups(pairs, merged) + SingleGroups(pairs, rest)| == |merged| + |rest|
  {
  }

  function Means(rows: seq<seq<real>>, columns: nat, groups: seq<seq<nat>>): (m: seq<seq<real>>)
    requires Rectangular(rows, columns) && AllInside(groups, |rows|)
    ensures |m| == |groups| && forall g :: 0 <= g < |m| ==> m[g] == Mean(rows, columns, groups[g])
  {
    seq(|groups|, g requires 0 <= g < |groups| => Mean(rows, columns, groups[g]))
  }

  // With the sizes accepted, fewer merges exist than are wanted exactly when K is below N / 4 proper,
  // as for six rows and one cluster.
  lemma GuardIsLoose(n: nat, entries: int)
    ensures Accepted(6, 1) && Smaller(6 / 2 - 1, 6 / 2 / 2) < 6 / 2 - 1
    ensures Accepted(n, entries) ==> 0 <= n / 2 - entries
    ensures Accepted(n, entries) ==> (Smaller(n / 2 - entries, n / 2 / 2) < n / 2 - entries <==> 4 * entries < n)
    ensures Accepted(n, entries) ==> (4 * entries < n <==> n % 4 == 2 && entries == n / 4)
  {
    var q, r := n / 4, n % 4;
    assert n == 4 * q + r;
  }
}
