// Byte and bit budgets of the synthetic TQ model: proportional shares that add up exactly.
module TqBudget {
  import opened Numeric

  // ----- proportional spans -----

  // Bits owed to the first `rows` rows: total * rows // all.
  function Span(total: nat, all: nat, rows: nat): nat
    requires all > 0
  {
    total * rows / all
  }

  function Budget(total: nat, all: nat, start: nat, count: nat): int
    requires all > 0
  {
    Span(total, all, start + count) - Span(total, all, start)
  }

  lemma QuotientIs(x: int, d: int, q: int)
    requires d > 0 && q * d <= x < q * d + d
    ensures x / d == q
  {
    var p := x / d;
    assert p * d <= x < p * d + d;
    if p < q {
      Slide(p + 1, q, d);
    } else if p > q {
      Slide(q + 1, p, d);
    }
  }

  lemma DivMonotone(x: int, y: int, d: int)
    requires d > 0 && x <= y
    ensures x / d <= y / d
  {
    var p, q := x / d, y / d;
    assert p * d <= x && y < q * d + d;
    if p > q {
      Slide(q + 1, p, d);
    }
  }

  lemma DivShift(x: int, k: int, d: int)
    requires d > 0
    ensures (x + k * d) / d == x / d + k
  {
    var q := x / d;
    assert q * d <= x < q * d + d;
    assert (q + k) * d == q * d + k * d;
    QuotientIs(x + k * d, d, q + k);
  }

  // One to eight bits for every row of any range.
  lemma BudgetBounds(total: nat, all: nat, start: nat, count: nat)
    requires all > 0 && all <= total <= 8 * all
    ensures count <= Budget(total, all, start, count) <= 8 * count
  {
    SharedBits(total, all, count);
    BudgetIs(total, all, start, count, total * start, total * count);
    DivBounds(total * start, total * count, count, all, count * all);
  }

  lemma SharedBits(total: nat, all: nat, count: nat)
    requires all <= total <= 8 * all
    ensures count * all <= total * count <= 8 * (count * all)
  {
    Slide(all, total, count);
    Slide(total, 8 * all, count);
    Reordered(all, count);
  }

  lemma Reordered(all: int, count: int)
    ensures all * count == count * all && (8 * all) * count == 8 * (count * all)
  {
  }

  lemma BudgetIs(total: nat, all: nat, start: nat, count: nat, a: nat, b: nat)
    requires all > 0 && a == total * start && b == total * count
    ensures Budget(total, all, start, count) == (a + b) / all - a / all
  {
    assert total * (start + count) == a + b;
  }

  // Adding between count and 8 * count times `all` raises the quotient by as much.
  lemma DivBounds(a: int, b: int, count: int, all: int, product: int)
    requires all > 0 && product == count * all && product <= b <= 8 * product
    ensures count <= (a + b) / all - a / all <= 8 * count
  {
    DivShift(a, count, all);
    DivShift(a, 8 * count, all);
    Reordered(count, all);
    DivMonotone(a + product, a + b, all);
    DivMonotone(a + b, a + 8 * product, all);
  }

  lemma SpanEnds(total: nat, all: nat)
    requires all > 0
    ensures Span(total, all, 0) == 0 && Span(total, all, all) == total
  {
    DivShift(0, total, all);
    QuotientIs(0, all, 0);
  }

  // Budgets of consecutive ranges of `size` rows.
  function BlockCount(rows: nat, size: nat, block: nat): nat
    requires size > 0
  {
    if (block + 1) * size <= rows then size else if block * size < rows then rows - block * size else 0
  }

  function BlockStart(rows: nat, size: nat, block: nat): nat {
    if block * size <= rows then block * size else rows
  }

  function BlockBudgets(total: nat, all: nat, size: nat, blocks: nat): int
    requires all > 0 && size > 0
  {
    if blocks == 0 then 0
    else
      var start, count := BlockStart(all, size, blocks - 1), BlockCount(all, size, blocks - 1);
      BlockBudgets(total, all, size, blocks - 1) + Budget(total, all, start, count)
  }

  lemma NextStart(rows: nat, size: nat, block: nat)
    requires size > 0
    ensures BlockStart(rows, size, block) + BlockCount(rows, size, block) == BlockStart(rows, size, block + 1)
  {
    assert (block + 1) * size == block * size + size;
  }

  // Ranges of any size tile the rows and their budgets sum to the span they cover.
  lemma {:induction false} BudgetsTelescope(total: nat, all: nat, size: nat, blocks: nat)
    requires all > 0 && size > 0
    ensures BlockBudgets(total, all, size, blocks) == Span(total, all, BlockStart(all, size, blocks))
  {
    hide Span;
    if blocks == 0 {
      SpanEnds(total, all);
    } else {
      BudgetsTelescope(total, all, size, blocks - 1);
      NextStart(all, size, blocks - 1);
    }
  }

  lemma BudgetsSumToTotal(total: nat, all: nat, size: nat, blocks: nat)
    requires all > 0 && size > 0 && blocks * size >= all
    ensures BlockBudgets(total, all, size, blocks) == total
  {
    BudgetsTelescope(total, all, size, blocks);
    SpanEnds(total, all);
    assert BlockStart(all, size, blocks) == all;
  }

  // ----- the stored histogram keys -----

  const BLOCK := 4096

  // divmod of one full block's share, plus the short tail
  function StoredKeys(total: nat, rows: nat): set<(nat, int)>
    requires rows > 0
  {
    var share := total * BLOCK;
    var base, remainder := share / rows, share % rows;
    var tail := rows % BLOCK;
    (if rows / BLOCK > 0 then {(BLOCK, base)} + (if remainder != 0 then {(BLOCK, base + 1)} else {}) else {})
      + (if tail != 0 then {(tail, total - Span(total, rows, rows - tail))} else {})
  }

  // Two consecutive floors differ by the floor of the step, or one more when the step is not whole.
  lemma FloorStep(x: nat, step: nat, d: nat)
    requires d > 0
    ensures var diff := (x + step) / d - x / d;
      diff == step / d || (step % d != 0 && diff == step / d + 1)
  {
    var p, q := x / d, step / d;
    var r, s := x - p * d, step - q * d;
    assert 0 <= r < d && 0 <= s < d && s == step % d;
    assert (p + q) * d == p * d + q * d;
    if r + s < d {
      QuotientIs(x + step, d, p + q);
    } else {
      assert (p + q + 1) * d == p * d + q * d + d;
      QuotientIs(x + step, d, p + q + 1);
    }
  }

  // Every block the reader asks for finds its histogram among the at most three stored ones.
  lemma LookupNeverFails(total: nat, rows: nat, block: nat)
    requires rows > 0 && block * BLOCK < rows
    ensures var count := BlockCount(rows, BLOCK, block);
      (count, Budget(total, rows, block * BLOCK, count)) in StoredKeys(total, rows)
  {
    hide StoredKeys, Budget;
    if BlockCount(rows, BLOCK, block) == BLOCK {
      FullBlockKey(total, rows, block * BLOCK);
    } else {
      LastBlockKey(total, rows, block);
    }
  }

  lemma FullBlockKey(total: nat, rows: nat, start: nat)
    requires rows > 0 && start + BLOCK <= rows
    ensures (BLOCK, Budget(total, rows, start, BLOCK)) in StoredKeys(total, rows)
  {
    assert total * (start + BLOCK) == total * start + total * BLOCK;
    FloorStep(total * start, total * BLOCK, rows);
    assert rows / BLOCK > 0;
  }

  lemma LastBlockKey(total: nat, rows: nat, block: nat)
    requires rows > 0 && block * BLOCK < rows && BlockCount(rows, BLOCK, block) != BLOCK
    ensures var count := BlockCount(rows, BLOCK, block);
      (count, Budget(total, rows, block * BLOCK, count)) in StoredKeys(total, rows)
  {
    hide BlockCount, Span;
    LastCount(rows, block);
    SpanEnds(total, rows);
    TailKey(total, rows);
  }

  // The short last block holds what whole blocks leave.
  lemma LastCount(rows: nat, block: nat)
    requires block * BLOCK < rows && BlockCount(rows, BLOCK, block) != BLOCK
    ensures block * BLOCK + BlockCount(rows, BLOCK, block) == rows
    ensures BlockCount(rows, BLOCK, block) == rows % BLOCK > 0
  {
  }

  lemma TailKey(total: nat, rows: nat)
    requires rows % BLOCK > 0
    ensures (rows % BLOCK, total - Span(total, rows, rows - rows % BLOCK)) in StoredKeys(total, rows)
  {
    hide Span;
  }

  // ----- the exact-sum histogram -----

  function RowsOf(counts: seq<int>): int
    requires |counts| == 8
  {
    counts[0] + counts[1] + counts[2] + counts[3] + counts[4] + counts[5] + counts[6] + counts[7]
  }

  function LevelSum(counts: seq<int>): int
    requires |counts| == 8
  {
    counts[0] + 2 * counts[1] + 3 * counts[2] + 4 * counts[3] + 5 * counts[4] + 6 * counts[5] + 7 * counts[6]
      + 8 * counts[7]
  }

  predicate Counts(counts: seq<int>) {
    |counts| == 8 && forall i :: 0 <= i < 8 ==> counts[i] >= 0
  }

  // Levels a row can be moved away from: not the last one going up, not the first one going down.
  function Movable(counts: seq<int>, up: bool): (levels: seq<nat>)
    requires Counts(counts)
    ensures forall k :: 0 <= k < |levels| ==> levels[k] < 8 && counts[levels[k]] > 0
    ensures forall k :: 0 <= k < |levels| ==> if up then levels[k] < 7 else levels[k] > 0
    ensures forall i :: 0 <= i < 8 && counts[i] > 0 && (if up then i < 7 else i > 0) ==> i in levels
  {
    MovableUpTo(counts, up, 8)
  }

  function MovableUpTo(counts: seq<int>, up: bool, n: nat): (levels: seq<nat>)
    requires Counts(counts) && n <= 8
    ensures forall k :: 0 <= k < |levels| ==> levels[k] < n && CanMove(counts, up, levels[k])
    ensures forall i: nat :: i < n && CanMove(counts, up, i) ==> i in levels
  {
    if n == 0 then []
    else
      var front := MovableUpTo(counts, up, n - 1);
      if CanMove(counts, up, n - 1) then front + [n - 1] else front
  }

  predicate CanMove(counts: seq<int>, up: bool, level: nat)
    requires Counts(counts) && level < 8
  {
    counts[level] > 0 && if up then level < 7 else level > 0
  }

  // While the sum is off, some row can still move towards it.
  lemma CandidateExists(counts: seq<int>, up: bool)
    requires Counts(counts)
    requires if up then LevelSum(counts) < 8 * RowsOf(counts) else LevelSum(counts) > RowsOf(counts)
    ensures |Movable(counts, up)| > 0
  {
    if up {
      var i :| 0 <= i < 7 && counts[i] > 0;
      assert i in Movable(counts, up);
    } else {
      var i :| 1 <= i < 8 && counts[i] > 0;
      assert i in Movable(counts, up);
    }
  }

  function Moved(counts: seq<int>, index: nat, up: bool): seq<int>
    requires |counts| == 8 && index < 8 && (if up then index < 7 else index > 0)
  {
    var next := if up then index + 1 else index - 1;
    var taken := counts[index := counts[index] - 1];
    taken[next := taken[next] + 1]
  }

  lemma MovedOne(counts: seq<int>, index: nat, up: bool)
    requires Counts(counts) && index < 8 && counts[index] > 0 && (if up then index < 7 else index > 0)
    ensures Counts(Moved(counts, index, up)) && RowsOf(Moved(counts, index, up)) == RowsOf(counts)
    ensures LevelSum(Moved(counts, index, up)) == LevelSum(counts) + (if up then 1 else -1)
  {
  }

  // The repair loop: one row moves one level per step until the bit sum is exact.
  method Repair(start: seq<int>, bitSum: int) returns (counts: seq<int>)
    requires Counts(start) && RowsOf(start) <= bitSum <= 8 * RowsOf(start)
    ensures Counts(counts) && RowsOf(counts) == RowsOf(start) && LevelSum(counts) == bitSum
  {
    hide RowsOf, LevelSum, Movable, Moved;
    counts := start;
    var delta := bitSum - LevelSum(counts);
    while delta != 0
      invariant Counts(counts) && RowsOf(counts) == RowsOf(start) && delta == bitSum - LevelSum(counts)
      decreases if delta < 0 then -delta else delta
    {
      var up := delta > 0;
      CandidateExists(counts, up);
      var candidates := Movable(counts, up);
      var index := candidates[|candidates| / 2];
      MovedOne(counts, index, up);
      counts := Moved(counts, index, up);
      delta := delta + (if up then -1 else 1);
    }
  }

  function SumReal(xs: seq<real>): real
    requires |xs| == 8
  {
    xs[0] + xs[1] + xs[2] + xs[3] + xs[4] + xs[5] + xs[6] + xs[7]
  }

  // Indices of the k largest fractions, largest first, earlier index first among equals.
  function Largest(fractions: seq<real>, k: nat): (order: seq<nat>)
    requires |fractions| == 8 && k <= 8
    ensures |order| == k
    ensures forall i :: 0 <= i < k ==> order[i] < 8
    ensures forall i, j :: 0 <= i < j < k ==> order[i] != order[j]
  {
    if k == 0 then []
    else
      var front := Largest(fractions, k - 1);
      LevelLeft(front);
      front + [FirstLargest(fractions, front, 8)]
  }

  lemma LevelLeft(taken: seq<nat>)
    requires |taken| < 8
    ensures exists i :: 0 <= i < 8 && i !in taken
  {
    var i := Missing(taken, 8);
  }

  function FirstLargest(fractions: seq<real>, taken: seq<nat>, n: nat): (k: nat)
    requires |fractions| == 8 && n <= 8 && exists i :: 0 <= i < n && i !in taken
    ensures k < n && k !in taken
    ensures forall i :: 0 <= i < n && i !in taken ==> fractions[i] <= fractions[k]
    ensures forall i :: 0 <= i < k && i !in taken ==> fractions[i] < fractions[k]
  {
    if i :| 0 <= i < n - 1 && i !in taken then
      var k := FirstLargest(fractions, taken, n - 1);
      if n - 1 !in taken && fractions[n - 1] > fractions[k] then n - 1 else k
    else n - 1
  }

  // Rounding the expected counts: floors, then one more row for the largest fractions.
  method RoundExpected(expected: seq<real>, rows: nat) returns (counts: seq<int>)
    requires |expected| == 8 && (forall i :: 0 <= i < 8 ==> expected[i] >= 0.0) && SumReal(expected) == rows as real
    ensures Counts(counts) && RowsOf(counts) == rows
    ensures forall i :: 0 <= i < 8 ==> expected[i].Floor <= counts[i] <= expected[i].Floor + 1
  {
    var floors := seq(8, i requires 0 <= i < 8 => expected[i].Floor);
    var fractions := seq(8, i requires 0 <= i < 8 => expected[i] - (expected[i].Floor as real));
    counts := floors;
    var missing := rows - RowsOf(counts);
    FloorsMissFew(expected, floors, rows);
    var order := Largest(fractions, missing);
    for k := 0 to missing
      invariant Counts(counts) && RowsOf(counts) == RowsOf(floors) + k
      invariant forall i :: 0 <= i < 8 ==> floors[i] <= counts[i] <= floors[i] + 1
      invariant forall j :: k <= j < missing ==> counts[order[j]] == floors[order[j]]
    {
      counts := counts[order[k] := counts[order[k]] + 1];
    }
  }

  lemma FloorsMissFew(expected: seq<real>, floors: seq<int>, rows: nat)
    requires |expected| == 8 == |floors| && (forall i :: 0 <= i < 8 ==> expected[i] >= 0.0)
    requires SumReal(expected) == rows as real
    requires forall i :: 0 <= i < 8 ==> floors[i] == expected[i].Floor
    ensures 0 <= rows - RowsOf(floors) < 8
    ensures forall i :: 0 <= i < 8 ==> floors[i] >= 0
  {
    forall i | 0 <= i < 8
      ensures (floors[i] as real) <= expected[i] < (floors[i] as real) + 1.0 && floors[i] >= 0
    {
    }
    assert (RowsOf(floors) as real) <= (rows as real) < (RowsOf(floors) as real) + 8.0;
  }

  // A histogram with exactly the asked rows and bits, for any expected counts.
  method Histogram(rows: nat, bitSum: nat, expected: seq<real>) returns (counts: seq<int>)
    requires rows > 0 && rows <= bitSum <= 8 * rows
    requires |expected| == 8 && (forall i :: 0 <= i < 8 ==> expected[i] >= 0.0) && SumReal(expected) == rows as real
    ensures Counts(counts) && RowsOf(counts) == rows && LevelSum(counts) == bitSum
  {
    if bitSum == rows || bitSum == rows * 8 {
      var level := bitSum / rows - 1;
      assert level == if bitSum == rows then 0 else 7 by {
        if bitSum == rows { QuotientIs(bitSum, rows, 1); } else { QuotientIs(bitSum, rows, 8); }
      }
      counts := seq(8, i => 0);
      counts := counts[level := rows];
      return;
    }
    var rounded := RoundExpected(expected, rows);
    counts := Repair(rounded, bitSum);
  }

  // ----- apportioning the reference bytes -----

  // Python's round() of num / den: half goes to the even neighbour.
  function Round(num: int, den: int): int
    requires den > 0
  {
    var q, r := num / den, num % den;
    if 2 * r < den then q else if 2 * r > den then q + 1 else if q % 2 == 0 then q else q + 1
  }

  // Rounding respects whole bounds.
  lemma RoundWithin(num: int, den: int, lo: int, hi: int)
    requires den > 0 && lo * den <= num <= hi * den
    ensures lo <= Round(num, den) <= hi
  {
    var q, r := num / den, num % den;
    assert num == q * den + r && 0 <= r < den;
    assert (q + 1) * den == q * den + den;
    if q < lo {
      Slide(q + 1, lo, den);
      assert false;
    }
    if q > hi {
      AfterHigh(num, den, hi, q);
      assert false;
    }
    if q == hi {
      assert r == 0;
    }
  }

  lemma AfterHigh(num: int, den: int, hi: int, q: int)
    requires den > 0 && num <= hi * den && q > hi
    ensures q * den > num
  {
    Slide(hi + 1, q, den);
    assert (hi + 1) * den == hi * den + den;
  }

  // One share: never more than its own capacity, and what is left still fits the other capacities.
  lemma ShareFits(remaining: nat, capacity: nat, all: nat)
    requires remaining <= all && capacity <= all && all > 0
    ensures var amount := Round(remaining * capacity, all);
      && 0 <= amount <= capacity && amount <= remaining
      && remaining - amount <= all - capacity
  {
    var num := remaining * capacity;
    ShareBounds(remaining, capacity, all);
    RoundWithin(num, all, 0, capacity);
    RoundWithin(num, all, 0, remaining);
    RoundWithin(num, all, remaining - (all - capacity), capacity);
  }

  lemma ShareBounds(remaining: nat, capacity: nat, all: nat)
    requires remaining <= all && capacity <= all
    ensures 0 * all <= remaining * capacity <= capacity * all
    ensures remaining * capacity <= remaining * all
    ensures (remaining - (all - capacity)) * all <= remaining * capacity
  {
    var a, b := all - capacity, all - remaining;
    Slide(0, a, b);
    Slide(0, b, capacity);
    Slide(0, a, remaining);
    Slide(0, remaining, capacity);
    Product(all, a, b);
  }

  lemma Product(all: int, a: int, b: int)
    ensures (all - b) * (all - a) - ((all - b) - a) * all == a * b
    ensures (all - a) * all - (all - b) * (all - a) == b * (all - a)
    ensures (all - b) * all - (all - b) * (all - a) == a * (all - b)
  {
  }

  datatype Item = Item(original: nat, minimum: nat, maximum: nat)

  predicate Items(items: seq<Item>) {
    forall i :: 0 <= i < |items| ==> items[i].minimum <= items[i].maximum
  }

  // min(max(original, minimum), maximum)
  function Clipped(item: Item): (t: int)
    requires item.minimum <= item.maximum
    ensures item.minimum <= t <= item.maximum
  {
    var raised := if item.original < item.minimum then item.minimum else item.original;
    if raised > item.maximum then item.maximum else raised
  }

  function Originals(items: seq<Item>): (xs: seq<int>)
    ensures |xs| == |items| && forall i :: 0 <= i < |xs| ==> xs[i] == items[i].original
  {
    seq(|items|, i requires 0 <= i < |items| => items[i].original)
  }

  function Minima(items: seq<Item>): (xs: seq<int>)
    ensures |xs| == |items| && forall i :: 0 <= i < |xs| ==> xs[i] == items[i].minimum
  {
    seq(|items|, i requires 0 <= i < |items| => items[i].minimum)
  }

  function Maxima(items: seq<Item>): (xs: seq<int>)
    ensures |xs| == |items| && forall i :: 0 <= i < |xs| ==> xs[i] == items[i].maximum
  {
    seq(|items|, i requires 0 <= i < |items| => items[i].maximum)
  }

  function Targets(items: seq<Item>): (xs: seq<int>)
    requires Items(items)
    ensures |xs| == |items| && forall i :: 0 <= i < |xs| ==> xs[i] == Clipped(items[i])
  {
    seq(|items|, i requires 0 <= i < |items| => Clipped(items[i]))
  }

  // Room to grow, or to shrink.
  function Capacities(items: seq<Item>, grow: bool): (xs: seq<int>)
    requires Items(items)
    ensures |xs| == |items|
    ensures forall i :: 0 <= i < |xs| ==>
      xs[i] == (if grow then items[i].maximum - Clipped(items[i]) else Clipped(items[i]) - items[i].minimum) >= 0
  {
    seq(|items|, i requires 0 <= i < |items| =>
      if grow then items[i].maximum - Clipped(items[i]) else Clipped(items[i]) - items[i].minimum)
  }

  lemma {:induction false} SumDifference(xs: seq<int>, ys: seq<int>, zs: seq<int>)
    requires |xs| == |ys| == |zs| && forall i :: 0 <= i < |xs| ==> zs[i] == xs[i] - ys[i]
    ensures SumInt(zs) == SumInt(xs) - SumInt(ys)
  {
    if |xs| > 0 {
      var n := |xs| - 1;
      SumDifference(xs[..n], ys[..n], zs[..n]);
    }
  }

  // The rest of a list of capacities.
  function Tail(xs: seq<int>, i: nat): int
    requires i <= |xs|
  {
    SumInt(xs[i..])
  }

  lemma TailStep(xs: seq<int>, i: nat)
    requires i < |xs| && forall k :: 0 <= k < |xs| ==> xs[k] >= 0
    ensures Tail(xs, i) == xs[i] + Tail(xs, i + 1) && Tail(xs, i + 1) >= 0
  {
    assert xs[i..] == [xs[i]] + xs[i + 1..];
    SumIntConcat([xs[i]], xs[i + 1..]);
    assert SumInt([xs[i]]) == xs[i];
    SumIntBounds0(xs[i + 1..]);
  }

  lemma {:induction false} SumIntBounds0(xs: seq<int>)
    requires forall i :: 0 <= i < |xs| ==> xs[i] >= 0
    ensures SumInt(xs) >= 0
  {
    if |xs| > 0 { SumIntBounds0(xs[..|xs| - 1]); }
  }

  datatype Apportioned = Unrepresentable | Unassigned | Assigned(targets: seq<int>)

  function Magnitude(x: int): nat { if x < 0 then -x else x }

  // Fails exactly when the reference total is outside the summed bounds; the loop always assigns
  // every byte, inside every tensor's bounds and all in one direction.
  method Apportion(items: seq<Item>) returns (r: Apportioned)
    requires Items(items)
    ensures r.Unrepresentable? <==> !(SumInt(Minima(items)) <= SumInt(Originals(items)) <= SumInt(Maxima(items)))
    ensures !r.Unassigned?
    ensures r.Assigned? ==>
      && |r.targets| == |items| && SumInt(r.targets) == SumInt(Originals(items))
      && (forall i :: 0 <= i < |items| ==> items[i].minimum <= r.targets[i] <= items[i].maximum)
      && ((forall i :: 0 <= i < |items| ==> Clipped(items[i]) <= r.targets[i])
        || (forall i :: 0 <= i < |items| ==> r.targets[i] <= Clipped(items[i])))
  {
    hide SumInt, Tail, Round, Clipped;
    var total := SumInt(Originals(items));
    if !(SumInt(Minima(items)) <= total <= SumInt(Maxima(items))) {
      return Unrepresentable;
    }
    var targets := Targets(items);
    var delta := total - SumInt(targets);
    var grow := delta > 0;
    var capacities := Capacities(items, grow);
    var remainingCapacity := SumInt(capacities);
    var remaining := Magnitude(delta);
    CapacityCovers(items, grow);
    assert capacities[0..] == capacities;
    WholeTail(capacities);
    for i := 0 to |items|
      invariant |targets| == |items| && remainingCapacity == Tail(capacities, i)
      invariant 0 <= remaining <= remainingCapacity
      invariant forall k :: i <= k < |items| ==> targets[k] == Clipped(items[k])
      invariant forall k :: 0 <= k < |items| ==> items[k].minimum <= targets[k] <= items[k].maximum
      invariant forall k :: 0 <= k < |items| ==>
        if grow then Clipped(items[k]) <= targets[k] else targets[k] <= Clipped(items[k])
      invariant total - SumInt(targets) == if grow then remaining else -remaining
    {
      TailStep(capacities, i);
      var capacity := capacities[i];
      var amount := 0;
      if remainingCapacity != 0 {
        ShareFits(remaining, capacity, remainingCapacity);
        amount := Round(remaining * capacity, remainingCapacity);
      }
      var updated := targets[i] + (if grow then amount else -amount);
      SumIntUpdate(targets, i, updated);
      targets := targets[i := updated];
      remaining := remaining - amount;
      remainingCapacity := remainingCapacity - capacity;
    }
    EmptyTail(capacities);
    if remaining != 0 {
      return Unassigned;
    }
    r := Assigned(targets);
  }

  lemma WholeTail(xs: seq<int>)
    ensures Tail(xs, 0) == SumInt(xs)
  {
    assert xs[0..] == xs;
  }

  lemma EmptyTail(xs: seq<int>)
    ensures Tail(xs, |xs|) == 0
  {
  }

  // The clipped targets miss the total by no more than the room there is on that side.
  lemma CapacityCovers(items: seq<Item>, grow: bool)
    requires Items(items) && SumInt(Minima(items)) <= SumInt(Originals(items)) <= SumInt(Maxima(items))
    requires grow == (SumInt(Originals(items)) - SumInt(Targets(items)) > 0)
    ensures Magnitude(SumInt(Originals(items)) - SumInt(Targets(items))) <= SumInt(Capacities(items, grow))
  {
    hide SumInt, Clipped;
    if grow {
      SumDifference(Maxima(items), Targets(items), Capacities(items, grow));
    } else {
      SumDifference(Targets(items), Minima(items), Capacities(items, grow));
    }
  }
}
