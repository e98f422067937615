/**
 * Flood fill over a grid held in place: the queue-based `floodfill` of
 * arcUtils.js (also `_floodfill` of useARCTaskLogic.js, the same algorithm)
 * and the stack-based `_floodfill` of useArcExperiment.js, both proved
 * against one specification: the 4-connected region of the start cell's
 * symbol, and nothing else, takes the new symbol.
 */
module RegionFill {
  import opened ArcUtils

  /** A cell position (row x, column y); the source's `"x,y"` keys and `[x, y]` pairs. */
  type Pos = (int, int)

  predicate InGrid(g: Cells, p: Pos) {
    0 <= p.0 < |g| && 0 <= p.1 < |g[p.0]|
  }

  function At(g: Cells, p: Pos): int
    requires InGrid(g, p)
  {
    g[p.0][p.1]
  }

  /** Up, down, left or right: the von Neumann neighbourhood. */
  predicate Adjacent(p: Pos, q: Pos) {
    || (p.0 == q.0 && (q.1 == p.1 + 1 || q.1 == p.1 - 1))
    || (p.1 == q.1 && (q.0 == p.0 + 1 || q.0 == p.0 - 1))
  }

  /** The source's `directions` list: [0, 1], [0, -1], [1, 0], [-1, 0]. */
  const Directions: seq<Pos> := [(0, 1), (0, -1), (1, 0), (-1, 0)]

  function Step(p: Pos, d: int): Pos
    requires 0 <= d < 4
  {
    (p.0 + Directions[d].0, p.1 + Directions[d].1)
  }

  lemma StepValues(p: Pos)
    ensures Step(p, 0) == (p.0, p.1 + 1) && Step(p, 1) == (p.0, p.1 - 1)
    ensures Step(p, 2) == (p.0 + 1, p.1) && Step(p, 3) == (p.0 - 1, p.1)
  {
  }

  lemma StepIsAdjacent(p: Pos, d: int)
    requires 0 <= d < 4
    ensures Adjacent(p, Step(p, d))
  {
  }

  /** A walk of in-grid cells, each holding `target`, each step to an adjacent cell. */
  ghost predicate IsPath(g: Cells, target: int, path: seq<Pos>) {
    && |path| >= 1
    && (forall k :: 0 <= k < |path| ==> InGrid(g, path[k]) && At(g, path[k]) == target)
    && (forall k :: 0 <= k < |path| - 1 ==> Adjacent(path[k], path[k + 1]))
  }

  /** `to` is reachable from `from` through cells holding `target`. */
  ghost predicate Reachable(g: Cells, target: int, from: Pos, to: Pos) {
    exists path :: IsPath(g, target, path) && path[0] == from && path[|path| - 1] == to
  }

  /**
   * `after` is `before` with the 4-connected region of (x, y)'s symbol set to
   * `s`: every cell reachable from (x, y) through cells of the original symbol
   * holds `s`, and every other cell is unchanged.
   */
  ghost predicate IsFill(before: Cells, after: Cells, x: int, y: int, s: int)
    requires InGrid(before, (x, y))
  {
    && |after| == |before|
    && (forall i :: 0 <= i < |before| ==> |after[i]| == |before[i]|)
    && forall i, j :: 0 <= i < |before| && 0 <= j < |before[i]| ==>
         after[i][j] == if Reachable(before, before[x][y], (x, y), (i, j)) then s else before[i][j]
  }

  // ---------------------------------------------------------------------------
  // Facts about reachability
  // ---------------------------------------------------------------------------

  lemma ReachSelf(g: Cells, p: Pos)
    requires InGrid(g, p)
    ensures Reachable(g, At(g, p), p, p)
  {
    assert IsPath(g, At(g, p), [p]);
  }

  lemma ReachStep(g: Cells, target: int, from: Pos, c: Pos, n: Pos)
    requires Reachable(g, target, from, c)
    requires Adjacent(c, n) && InGrid(g, n) && At(g, n) == target
    ensures Reachable(g, target, from, n)
  {
    var path :| IsPath(g, target, path) && path[0] == from && path[|path| - 1] == c;
    var longer := path + [n];
    assert IsPath(g, target, longer);
  }

  lemma ReachableHoldsTarget(g: Cells, target: int, from: Pos, c: Pos)
    requires Reachable(g, target, from, c)
    ensures InGrid(g, c) && At(g, c) == target
  {
    var path :| IsPath(g, target, path) && path[0] == from && path[|path| - 1] == c;
    assert InGrid(g, path[|path| - 1]);
  }

  /** No cell of `region` has an adjacent target cell outside it. */
  ghost predicate Closed(g: Cells, target: int, region: set<Pos>) {
    forall c, n :: c in region && Adjacent(c, n) && InGrid(g, n) && At(g, n) == target ==> n in region
  }

  /** A closed region that holds the start holds everything reachable from it. */
  lemma {:induction false} ClosedHoldsReachable(g: Cells, target: int, from: Pos, region: set<Pos>, c: Pos)
    requires from in region && Closed(g, target, region)
    requires Reachable(g, target, from, c)
    ensures c in region
  {
    var path :| IsPath(g, target, path) && path[0] == from && path[|path| - 1] == c;
    var k := 0;
    while k < |path| - 1
      invariant 0 <= k <= |path| - 1
      invariant path[k] in region
    {
      assert Adjacent(path[k], path[k + 1]) && InGrid(g, path[k + 1]);
      k := k + 1;
    }
  }

  /** The neighbour of `c` in direction d is accounted for: outside the grid, not a target cell, or in `region`. */
  ghost predicate Handled(g: Cells, target: int, n: Pos, region: set<Pos>) {
    InGrid(g, n) && At(g, n) == target ==> n in region
  }

  lemma HandledGrow(g: Cells, target: int, n: Pos, r1: set<Pos>, r2: set<Pos>)
    requires Handled(g, target, n, r1) && r1 <= r2
    ensures Handled(g, target, n, r2)
  {
  }

  ghost predicate NeighboursHandled(g: Cells, target: int, c: Pos, region: set<Pos>) {
    forall d :: 0 <= d < 4 ==> Handled(g, target, Step(c, d), region)
  }

  lemma NeighboursHandledGrow(g: Cells, target: int, c: Pos, r1: set<Pos>, r2: set<Pos>)
    requires NeighboursHandled(g, target, c, r1) && r1 <= r2
    ensures NeighboursHandled(g, target, c, r2)
  {
    forall d | 0 <= d < 4 ensures Handled(g, target, Step(c, d), r2) {
      assert Handled(g, target, Step(c, d), r1);
    }
  }

  /** A region whose every cell has its four neighbours handled is closed. */
  lemma AllHandledClosed(g: Cells, target: int, region: set<Pos>)
    requires forall c :: c in region ==> NeighboursHandled(g, target, c, region)
    ensures Closed(g, target, region)
  {
    forall c, n | c in region && Adjacent(c, n) && InGrid(g, n) && At(g, n) == target
      ensures n in region
    {
      assert NeighboursHandled(g, target, c, region);
      assert Handled(g, target, Step(c, 0), region);
      assert Handled(g, target, Step(c, 1), region);
      assert Handled(g, target, Step(c, 2), region);
      assert Handled(g, target, Step(c, 3), region);
    }
  }

  /** The region that is reachable from (x, y) is exactly `region` when it is closed, holds the start and only reachable cells. */
  lemma RegionIsComponent(g: Cells, x: int, y: int, region: set<Pos>)
    requires InGrid(g, (x, y)) && (x, y) in region
    requires Closed(g, g[x][y], region)
    requires forall c :: c in region ==> Reachable(g, g[x][y], (x, y), c)
    ensures forall c :: Reachable(g, g[x][y], (x, y), c) <==> c in region
  {
    forall c | Reachable(g, g[x][y], (x, y), c) ensures c in region {
      ClosedHoldsReachable(g, g[x][y], (x, y), region, c);
    }
  }

  // ---------------------------------------------------------------------------
  // Every in-grid position, for termination and the queue bound
  // ---------------------------------------------------------------------------

  /** Positions (r, 0) .. (r, cols - 1). */
  ghost function RowOf(r: int, cols: nat): set<Pos> {
    if cols == 0 then {} else RowOf(r, cols - 1) + {(r, cols - 1)}
  }

  /** Positions (i, j) with 0 <= i < rows and 0 <= j < cols. */
  ghost function Box(rows: nat, cols: nat): set<Pos> {
    if rows == 0 then {} else Box(rows - 1, cols) + RowOf(rows - 1, cols)
  }

  lemma {:induction false} InRowOf(r: int, cols: nat, p: Pos)
    ensures p in RowOf(r, cols) <==> p.0 == r && 0 <= p.1 < cols
  {
    if cols > 0 {
      InRowOf(r, cols - 1, p);
    }
  }

  lemma {:induction false} InBox(rows: nat, cols: nat, p: Pos)
    ensures p in Box(rows, cols) <==> 0 <= p.0 < rows && 0 <= p.1 < cols
  {
    if rows > 0 {
      InBox(rows - 1, cols, p);
      InRowOf(rows - 1, cols, p);
    }
  }

  lemma {:induction false} RowOfSize(r: int, cols: nat)
    ensures |RowOf(r, cols)| == cols
  {
    if cols > 0 {
      RowOfSize(r, cols - 1);
      InRowOf(r, cols - 1, (r, cols - 1));
    }
  }

  lemma BoxRowDisjoint(r: nat, cols: nat)
    ensures Box(r, cols) !! RowOf(r, cols)
  {
    forall p | p in RowOf(r, cols) ensures p !in Box(r, cols) {
      InRowOf(r, cols, p);
      InBox(r, cols, p);
    }
  }

  lemma BoxAddsRow(rows: nat, cols: nat)
    requires rows > 0
    ensures |Box(rows, cols)| == |Box(rows - 1, cols)| + cols
  {
    RowOfSize(rows - 1, cols);
    BoxRowDisjoint(rows - 1, cols);
    assert Box(rows - 1, cols) * RowOf(rows - 1, cols) == {};
  }

  lemma NextRowArea(rows: nat, cols: nat)
    requires rows > 0
    ensures (rows - 1) * cols + cols == rows * cols
  {
  }

  /** There are exactly rows * cols in-grid positions. */
  lemma {:induction false} BoxSize(rows: nat, cols: nat)
    ensures |Box(rows, cols)| == rows * cols
  {
    if rows > 0 {
      BoxSize(rows - 1, cols);
      BoxAddsRow(rows, cols);
      NextRowArea(rows, cols);
    }
  }

  lemma {:induction false} SubsetSize<T>(small: set<T>, big: set<T>)
    requires small <= big
    ensures |small| <= |big|
  {
    if small != {} {
      var e :| e in small;
      SubsetSize(small - {e}, big - {e});
    }
  }

  // ---------------------------------------------------------------------------
  // Properties of the fill specification
  // ---------------------------------------------------------------------------

  /** The fill is maximal: no cell next to a filled cell still holds the old symbol. */
  lemma FillLeavesNoTargetNeighbour(before: Cells, after: Cells, x: int, y: int, s: int, c: Pos, n: Pos)
    requires InGrid(before, (x, y)) && before[x][y] != s
    requires IsFill(before, after, x, y, s)
    requires Reachable(before, before[x][y], (x, y), c)
    requires Adjacent(c, n) && InGrid(before, n)
    ensures after[n.0][n.1] != before[x][y]
  {
    var t := before[x][y];
    if At(before, n) == t {
      ReachStep(before, t, (x, y), c, n);
    } else if Reachable(before, t, (x, y), n) {
      ReachableHoldsTarget(before, t, (x, y), n);
    }
  }

  /** Filling again from the same cell with the same symbol changes nothing. */
  lemma FillTwiceIsFillOnce(g0: Cells, g1: Cells, g2: Cells, x: int, y: int, s: int)
    requires InGrid(g0, (x, y))
    requires IsFill(g0, g1, x, y, s) && IsFill(g1, g2, x, y, s)
    ensures g2 == g1
  {
    ReachSelf(g0, (x, y));
    assert g1[x][y] == s;
    assert InGrid(g1, (x, y));
    forall i | 0 <= i < |g1| ensures g2[i] == g1[i] {
      forall j | 0 <= j < |g1[i]| ensures g2[i][j] == g1[i][j] {
        if Reachable(g1, s, (x, y), (i, j)) {
          ReachableHoldsTarget(g1, s, (x, y), (i, j));
        }
      }
    }
  }

  /** Only the start cell's symbol decides whether anything changes. */
  lemma FillNoOpWhenSameSymbol(before: Cells, after: Cells, x: int, y: int)
    requires InGrid(before, (x, y))
    requires IsFill(before, after, x, y, before[x][y])
    ensures after == before
  {
    forall i | 0 <= i < |before| ensures after[i] == before[i] {
      forall j | 0 <= j < |before[i]| ensures after[i][j] == before[i][j] {
        if Reachable(before, before[x][y], (x, y), (i, j)) {
          ReachableHoldsTarget(before, before[x][y], (x, y), (i, j));
        }
      }
    }
  }

  // ---------------------------------------------------------------------------
  // floodfill (arcUtils.js): breadth-first, a cell is overwritten when enqueued
  // ---------------------------------------------------------------------------

  /** The array holds `s` on `region` and `g` everywhere else. */
  ghost predicate Painted(a: array2<int>, g: Cells, region: set<Pos>, s: int)
    reads a
  {
    && IsRect(g, a.Length0, a.Length1)
    && forall i, j :: 0 <= i < a.Length0 && 0 <= j < a.Length1 ==>
         a[i, j] == if (i, j) in region then s else g[i][j]
  }

  /** Paints one more cell: the single array write both fills share. */
  method Paint(a: array2<int>, ghost g: Cells, ghost region: set<Pos>, s: int, p: Pos)
    requires 0 <= p.0 < a.Length0 && 0 <= p.1 < a.Length1
    requires Painted(a, g, region, s)
    modifies a
    ensures Painted(a, g, region + {p}, s)
  {
    a[p.0, p.1] := s;
  }

  /** Before any write, the array is its own contents painted on the empty region. */
  lemma ContentsPainted(a: array2<int>, s: int)
    ensures Painted(a, Contents(a), {}, s)
  {
  }

  /** An in-grid cell that still holds the old symbol is unpainted and held it originally. */
  lemma Unpainted(a: array2<int>, g: Cells, region: set<Pos>, s: int, target: int, n: Pos)
    requires Painted(a, g, region, s) && s != target
    requires 0 <= n.0 < a.Length0 && 0 <= n.1 < a.Length1 && a[n.0, n.1] == target
    ensures n !in region && InGrid(g, n) && At(g, n) == target
  {
  }

  /** A position outside the grid, or one not holding the old symbol, needs no more work. */
  lemma PaintedHandled(a: array2<int>, g: Cells, region: set<Pos>, s: int, target: int, n: Pos)
    requires Painted(a, g, region, s) && s != target
    requires !(0 <= n.0 < a.Length0 && 0 <= n.1 < a.Length1 && a[n.0, n.1] == target)
    ensures Handled(g, target, n, region)
  {
    if InGrid(g, n) {
      assert a[n.0, n.1] == if (n.0, n.1) in region then s else g[n.0][n.1];
    }
  }

  /** Every cell of `region` is in the grid and reachable from (x, y) through `target` cells. */
  ghost predicate WithinComponent(g: Cells, target: int, x: int, y: int, region: set<Pos>) {
    forall c :: c in region ==> InGrid(g, c) && At(g, c) == target && Reachable(g, target, (x, y), c)
  }

  /** Once the region is closed, the painted array is the specified fill. */
  lemma PaintedIsFill(a: array2<int>, g: Cells, x: int, y: int, region: set<Pos>, s: int)
    requires Painted(a, g, region, s) && InGrid(g, (x, y)) && (x, y) in region
    requires WithinComponent(g, g[x][y], x, y, region) && Closed(g, g[x][y], region)
    ensures IsFill(g, Contents(a), x, y, s)
  {
    RegionIsComponent(g, x, y, region);
  }

  /** When the start already holds the new symbol, the unchanged grid is the specified fill. */
  lemma SameSymbolIsFill(g: Cells, x: int, y: int)
    requires InGrid(g, (x, y))
    ensures IsFill(g, g, x, y, g[x][y])
  {
    forall c | Reachable(g, g[x][y], (x, y), c) ensures InGrid(g, c) && At(g, c) == g[x][y] {
      ReachableHoldsTarget(g, g[x][y], (x, y), c);
    }
  }

  /** The search starts from an in-grid cell of a rectangular grid. */
  ghost predicate Start(g: Cells, target: int, x: int, y: int, rows: nat, cols: nat) {
    IsRect(g, rows, cols) && InGrid(g, (x, y)) && g[x][y] == target
  }

  /**
   * Returns false and changes nothing when the start cell already holds
   * `newSymbol`; otherwise fills the 4-connected region in place and returns
   * true. `enqueued` counts the queue's entries, at most rows * cols.
   */
  method Fill(a: array2<int>, x: int, y: int, newSymbol: int) returns (changed: bool, ghost enqueued: nat)
    requires 0 <= x < a.Length0 && 0 <= y < a.Length1
    modifies a
    ensures changed <==> old(a[x, y]) != newSymbol
    ensures !changed ==> unchanged(a)
    ensures IsFill(old(Contents(a)), Contents(a), x, y, newSymbol)
    ensures enqueued <= a.Length0 * a.Length1
  {
    ghost var g := Contents(a);
    var target := a[x, y];
    if target == newSymbol {
      SameSymbolIsFill(g, x, y);
      return false, 0;
    }
    ContentsPainted(a, newSymbol);
    ghost var region;
    region, enqueued := BreadthFirst(a, g, x, y, target, newSymbol);
    PaintedIsFill(a, g, x, y, region, newSymbol);
    changed := true;
  }

  /** The queue loop's invariant: `seen` is exactly the queue, and its first `head` entries are expanded. */
  ghost predicate QueueInv(g: Cells, target: int, x: int, y: int, rows: nat, cols: nat,
                           queue: seq<Pos>, head: int, seen: set<Pos>)
  {
    && Start(g, target, x, y, rows, cols)
    && 0 <= head <= |queue|
    && (forall c :: c in queue <==> c in seen)
    && |queue| == |seen| && seen <= Box(rows, cols)
    && (x, y) in seen
    && WithinComponent(g, target, x, y, seen)
    && forall k :: 0 <= k < head ==> NeighboursHandled(g, target, queue[k], seen)
  }

  /** The direction loop's invariant while expanding `cur`, the entry at head - 1 of `queue0`. */
  ghost predicate ScanInv(g: Cells, target: int, x: int, y: int, rows: nat, cols: nat,
                          queue0: seq<Pos>, seen0: set<Pos>, head: int, cur: Pos, d: int,
                          queue: seq<Pos>, seen: set<Pos>)
  {
    && Start(g, target, x, y, rows, cols)
    && 1 <= head <= |queue0| && queue0[head - 1] == cur && 0 <= d <= 4
    && queue0 <= queue && seen0 <= seen && (seen == seen0 ==> queue == queue0)
    && (forall c :: c in queue <==> c in seen)
    && |queue| == |seen| && seen <= Box(rows, cols)
    && (x, y) in seen0 && cur in seen0
    && WithinComponent(g, target, x, y, seen)
    && (forall k :: 0 <= k < head - 1 ==> NeighboursHandled(g, target, queue0[k], seen0))
    && forall d' :: 0 <= d' < d ==> Handled(g, target, Step(cur, d'), seen)
  }

  lemma QueueStart(g: Cells, target: int, x: int, y: int, rows: nat, cols: nat)
    requires Start(g, target, x, y, rows, cols)
    ensures QueueInv(g, target, x, y, rows, cols, [(x, y)], 0, {(x, y)})
    ensures 1 <= rows * cols
  {
    ReachSelf(g, (x, y));
    InBox(rows, cols, (x, y));
    BoxSize(rows, cols);
    SubsetSize({(x, y)}, Box(rows, cols));
  }

  lemma ScanStart(g: Cells, target: int, x: int, y: int, rows: nat, cols: nat,
                  queue: seq<Pos>, head: int, seen: set<Pos>)
    requires QueueInv(g, target, x, y, rows, cols, queue, head, seen) && head < |queue|
    ensures ScanInv(g, target, x, y, rows, cols, queue, seen, head + 1, queue[head], 0, queue, seen)
  {
  }

  lemma ScanEnqueue(g: Cells, target: int, x: int, y: int, rows: nat, cols: nat,
                    queue0: seq<Pos>, seen0: set<Pos>, head: int, cur: Pos, d: int,
                    queue: seq<Pos>, seen: set<Pos>)
    requires ScanInv(g, target, x, y, rows, cols, queue0, seen0, head, cur, d, queue, seen) && d < 4
    requires InGrid(g, Step(cur, d)) && At(g, Step(cur, d)) == target && Step(cur, d) !in seen
    ensures ScanInv(g, target, x, y, rows, cols, queue0, seen0, head, cur, d + 1,
                    queue + [Step(cur, d)], seen + {Step(cur, d)})
  {
    var next := Step(cur, d);
    StepIsAdjacent(cur, d);
    ReachStep(g, target, (x, y), cur, next);
    InBox(rows, cols, next);
    forall d' | 0 <= d' < d ensures Handled(g, target, Step(cur, d'), seen + {next}) {
      HandledGrow(g, target, Step(cur, d'), seen, seen + {next});
    }
  }

  lemma ScanSkip(g: Cells, target: int, x: int, y: int, rows: nat, cols: nat,
                 queue0: seq<Pos>, seen0: set<Pos>, head: int, cur: Pos, d: int,
                 queue: seq<Pos>, seen: set<Pos>)
    requires ScanInv(g, target, x, y, rows, cols, queue0, seen0, head, cur, d, queue, seen) && d < 4
    requires Handled(g, target, Step(cur, d), seen)
    ensures ScanInv(g, target, x, y, rows, cols, queue0, seen0, head, cur, d + 1, queue, seen)
  {
  }

  /** After the four directions the queue invariant holds again, and the search made progress. */
  lemma ScanEnd(g: Cells, target: int, x: int, y: int, rows: nat, cols: nat,
                queue0: seq<Pos>, seen0: set<Pos>, head: int, cur: Pos,
                queue: seq<Pos>, seen: set<Pos>)
    requires ScanInv(g, target, x, y, rows, cols, queue0, seen0, head, cur, 4, queue, seen)
    ensures QueueInv(g, target, x, y, rows, cols, queue, head, seen)
    ensures |queue| <= rows * cols
    ensures |queue0| < |queue| || queue == queue0
  {
    ExpandedPrefix(g, target, queue0, seen0, head, cur, queue, seen);
    BoxSize(rows, cols);
    SubsetSize(seen, Box(rows, cols));
  }

  lemma ExpandedPrefix(g: Cells, target: int, queue0: seq<Pos>, seen0: set<Pos>, head: int, cur: Pos,
                       queue: seq<Pos>, seen: set<Pos>)
    requires 1 <= head <= |queue0| && queue0[head - 1] == cur && queue0 <= queue && seen0 <= seen
    requires forall k :: 0 <= k < head - 1 ==> NeighboursHandled(g, target, queue0[k], seen0)
    requires forall d' :: 0 <= d' < 4 ==> Handled(g, target, Step(cur, d'), seen)
    ensures forall k :: 0 <= k < head ==> NeighboursHandled(g, target, queue[k], seen)
  {
    assert NeighboursHandled(g, target, cur, seen);
    forall k | 0 <= k < head ensures NeighboursHandled(g, target, queue[k], seen) {
      if k < head - 1 {
        assert queue[k] == queue0[k];
        NeighboursHandledGrow(g, target, queue0[k], seen0, seen);
      }
    }
  }

  lemma QueueDone(g: Cells, target: int, x: int, y: int, rows: nat, cols: nat,
                  queue: seq<Pos>, seen: set<Pos>)
    requires QueueInv(g, target, x, y, rows, cols, queue, |queue|, seen)
    ensures Closed(g, target, seen) && |seen| <= rows * cols
  {
    forall c | c in seen ensures NeighboursHandled(g, target, c, seen) {
      var k :| 0 <= k < |queue| && queue[k] == c;
    }
    AllHandledClosed(g, target, seen);
    BoxSize(rows, cols);
    SubsetSize(seen, Box(rows, cols));
  }

  /** The direction loop of `floodfill`: paints and enqueues each neighbour of `cur` that holds the old symbol. */
  method Expand(a: array2<int>, ghost g: Cells, x: int, y: int, target: int, newSymbol: int,
                queue0: seq<Pos>, ghost seen0: set<Pos>, head: int, cur: Pos)
    returns (queue: seq<Pos>, ghost seen: set<Pos>)
    requires target != newSymbol && a.Length0 == |g| && Painted(a, g, seen0, newSymbol)
    requires ScanInv(g, target, x, y, a.Length0, a.Length1, queue0, seen0, head, cur, 0, queue0, seen0)
    modifies a
    ensures Painted(a, g, seen, newSymbol)
    ensures ScanInv(g, target, x, y, a.Length0, a.Length1, queue0, seen0, head, cur, 4, queue, seen)
  {
    var rows, cols := a.Length0, a.Length1;
    queue, seen := queue0, seen0;
    for d := 0 to 4
      invariant Painted(a, g, seen, newSymbol)
      invariant ScanInv(g, target, x, y, rows, cols, queue0, seen0, head, cur, d, queue, seen)
    {
      var next := Step(cur, d);
      var nx, ny := next.0, next.1;
      if nx >= 0 && nx < rows && ny >= 0 && ny < cols && a[nx, ny] == target {
        Unpainted(a, g, seen, newSymbol, target, next);
        ScanEnqueue(g, target, x, y, rows, cols, queue0, seen0, head, cur, d, queue, seen);
        Paint(a, g, seen, newSymbol, next);
        queue := queue + [next];
        seen := seen + {next};
      } else {
        PaintedHandled(a, g, seen, newSymbol, target, next);
        ScanSkip(g, target, x, y, rows, cols, queue0, seen0, head, cur, d, queue, seen);
      }
    }
  }

  /** The queue loop of `floodfill`: paints the component of (x, y) and returns it. */
  method BreadthFirst(a: array2<int>, ghost g: Cells, x: int, y: int, target: int, newSymbol: int)
    returns (ghost seen: set<Pos>, ghost enqueued: nat)
    requires Painted(a, g, {}, newSymbol) && InGrid(g, (x, y))
    requires g[x][y] == target && target != newSymbol
    modifies a
    ensures Painted(a, g, seen, newSymbol) && (x, y) in seen
    ensures WithinComponent(g, target, x, y, seen) && Closed(g, target, seen)
    ensures enqueued == |seen| <= a.Length0 * a.Length1
  {
    var rows, cols := a.Length0, a.Length1;
    var queue: seq<Pos> := [(x, y)];
    seen := {(x, y)};
    Paint(a, g, {}, newSymbol, (x, y));
    QueueStart(g, target, x, y, rows, cols);
    var head := 0;
    while head < |queue|
      invariant Painted(a, g, seen, newSymbol)
      invariant QueueInv(g, target, x, y, rows, cols, queue, head, seen)
      invariant |queue| <= rows * cols
      decreases rows * cols - |queue|, |queue| - head
    {
      var cur := queue[head];
      ScanStart(g, target, x, y, rows, cols, queue, head, seen);
      head := head + 1;
      var queue0 := queue;
      ghost var seen0 := seen;
      queue, seen := Expand(a, g, x, y, target, newSymbol, queue0, seen0, head, cur);
      ScanEnd(g, target, x, y, rows, cols, queue0, seen0, head, cur, queue, seen);
    }
    QueueDone(g, target, x, y, rows, cols, queue, seen);
    enqueued := |queue|;
  }

  // ---------------------------------------------------------------------------
  // _floodfill (useArcExperiment.js): depth-first, a cell is checked when popped
  // ---------------------------------------------------------------------------

  /**
   * Does nothing when the start cell already holds `newSymbol`; otherwise
   * pops positions off a stack, overwrites each in-grid cell that still holds
   * the old symbol and pushes its four neighbours unchecked.
   */
  method StackFill(a: array2<int>, x: int, y: int, newSymbol: int)
    requires 0 <= x < a.Length0 && 0 <= y < a.Length1
    modifies a
    ensures old(a[x, y]) == newSymbol ==> unchanged(a)
    ensures IsFill(old(Contents(a)), Contents(a), x, y, newSymbol)
  {
    ghost var g := Contents(a);
    var target := a[x, y];
    if target == newSymbol {
      SameSymbolIsFill(g, x, y);
      return;
    }
    ContentsPainted(a, newSymbol);
    ghost var region := DepthFirst(a, g, x, y, target, newSymbol);
    PaintedIsFill(a, g, x, y, region, newSymbol);
  }

  /**
   * `_floodfill` run on a deep copy of the grid's rows: the copy comes back
   * filled and the grid itself is left as it is.
   */
  method FilledCopy(a: array2<int>, x: int, y: int, newSymbol: int) returns (b: array2<int>)
    requires 0 <= x < a.Length0 && 0 <= y < a.Length1
    ensures fresh(b) && b.Length0 == a.Length0 && b.Length1 == a.Length1
    ensures IsFill(Contents(a), Contents(b), x, y, newSymbol)
  {
    BuildGridClones(Contents(a));
    b := NewGrid(a.Length0, a.Length1, Contents(a));
    StackFill(b, x, y, newSymbol);
  }

  /** The four positions `_floodfill` pushes after painting p, in its order. */
  function Around(p: Pos): seq<Pos> {
    [(p.0 + 1, p.1), (p.0 - 1, p.1), (p.0, p.1 + 1), (p.0, p.1 - 1)]
  }

  /** Each neighbour of `c` is handled or still waiting on the stack. */
  ghost predicate Pending(g: Cells, target: int, c: Pos, region: set<Pos>, stack: seq<Pos>) {
    forall d :: 0 <= d < 4 ==> Handled(g, target, Step(c, d), region) || Step(c, d) in stack
  }

  /** Pending survives when the region grows and every dropped stack entry is handled. */
  lemma PendingMoves(g: Cells, target: int, c: Pos, r1: set<Pos>, s1: seq<Pos>, r2: set<Pos>, s2: seq<Pos>)
    requires Pending(g, target, c, r1, s1) && r1 <= r2
    requires forall e :: e in s1 ==> e in s2 || Handled(g, target, e, r2)
    ensures Pending(g, target, c, r2, s2)
  {
    forall d | 0 <= d < 4 ensures Handled(g, target, Step(c, d), r2) || Step(c, d) in s2 {
      if !(Step(c, d) in s1) {
        HandledGrow(g, target, Step(c, d), r1, r2);
      }
    }
  }

  /** The stack loop's invariant: painted cells are in the component, and their neighbours are handled or pending. */
  ghost predicate StackInv(g: Cells, target: int, x: int, y: int, rows: nat, cols: nat,
                           filled: set<Pos>, stack: seq<Pos>)
  {
    && Start(g, target, x, y, rows, cols)
    && filled <= Box(rows, cols)
    && ((x, y) in filled || (x, y) in stack)
    && WithinComponent(g, target, x, y, filled)
    && (forall c :: c in stack && InGrid(g, c) && At(g, c) == target ==> Reachable(g, target, (x, y), c))
    && forall c :: c in filled ==> Pending(g, target, c, filled, stack)
  }

  lemma LastSplit(stack: seq<Pos>)
    requires |stack| > 0
    ensures stack == stack[..|stack| - 1] + [stack[|stack| - 1]]
  {
  }

  lemma StackStart(g: Cells, target: int, x: int, y: int, rows: nat, cols: nat)
    requires Start(g, target, x, y, rows, cols)
    ensures StackInv(g, target, x, y, rows, cols, {}, [(x, y)])
  {
    ReachSelf(g, (x, y));
  }

  /** A popped position that needs no work is dropped. */
  lemma StackSkip(g: Cells, target: int, x: int, y: int, rows: nat, cols: nat,
                  filled: set<Pos>, rest: seq<Pos>, cur: Pos)
    requires StackInv(g, target, x, y, rows, cols, filled, rest + [cur])
    requires Handled(g, target, cur, filled)
    ensures StackInv(g, target, x, y, rows, cols, filled, rest)
  {
    forall c | c in filled ensures Pending(g, target, c, filled, rest) {
      PendingMoves(g, target, c, filled, rest + [cur], filled, rest);
    }
  }

  /** A popped cell of the old symbol is painted and its four neighbours pushed. */
  lemma StackPaint(g: Cells, target: int, x: int, y: int, rows: nat, cols: nat,
                   filled: set<Pos>, rest: seq<Pos>, cur: Pos)
    requires StackInv(g, target, x, y, rows, cols, filled, rest + [cur])
    requires InGrid(g, cur) && At(g, cur) == target && cur !in filled
    ensures StackInv(g, target, x, y, rows, cols, filled + {cur}, rest + Around(cur))
    ensures |filled| < |filled + {cur}| <= rows * cols
  {
    var filled', stack' := filled + {cur}, rest + Around(cur);
    InBox(rows, cols, cur);
    BoxSize(rows, cols);
    SubsetSize(filled', Box(rows, cols));
    StackPaintReach(g, target, x, y, rest, cur);
    PendingAround(g, target, cur, filled', rest);
    forall c | c in filled ensures Pending(g, target, c, filled', stack') {
      PendingMoves(g, target, c, filled, rest + [cur], filled', stack');
    }
  }

  lemma StackPaintReach(g: Cells, target: int, x: int, y: int, rest: seq<Pos>, cur: Pos)
    requires forall c :: c in rest + [cur] && InGrid(g, c) && At(g, c) == target ==> Reachable(g, target, (x, y), c)
    requires InGrid(g, cur) && At(g, cur) == target
    ensures forall n :: n in rest + Around(cur) && InGrid(g, n) && At(g, n) == target ==> Reachable(g, target, (x, y), n)
  {
    assert cur in rest + [cur];
    forall n | n in rest + Around(cur) && InGrid(g, n) && At(g, n) == target
      ensures Reachable(g, target, (x, y), n)
    {
      if n !in rest {
        assert n in rest + [cur] || n in Around(cur);
        ReachStep(g, target, (x, y), cur, n);
      } else {
        assert n in rest + [cur];
      }
    }
  }

  lemma PendingAround(g: Cells, target: int, cur: Pos, region: set<Pos>, rest: seq<Pos>)
    ensures Pending(g, target, cur, region, rest + Around(cur))
  {
    var stack := rest + Around(cur);
    StepValues(cur);
    assert Step(cur, 0) == stack[|rest| + 2] && Step(cur, 1) == stack[|rest| + 3];
    assert Step(cur, 2) == stack[|rest|] && Step(cur, 3) == stack[|rest| + 1];
  }

  lemma StackDone(g: Cells, target: int, x: int, y: int, rows: nat, cols: nat, filled: set<Pos>)
    requires StackInv(g, target, x, y, rows, cols, filled, [])
    ensures (x, y) in filled && Closed(g, target, filled)
  {
    forall c | c in filled ensures NeighboursHandled(g, target, c, filled) {
      assert Pending(g, target, c, filled, []);
    }
    AllHandledClosed(g, target, filled);
  }

  /** The stack loop of `_floodfill`: paints the component of (x, y) and returns it. */
  method DepthFirst(a: array2<int>, ghost g: Cells, x: int, y: int, target: int, newSymbol: int)
    returns (ghost filled: set<Pos>)
    requires Painted(a, g, {}, newSymbol) && InGrid(g, (x, y))
    requires g[x][y] == target && target != newSymbol
    modifies a
    ensures Painted(a, g, filled, newSymbol) && (x, y) in filled
    ensures WithinComponent(g, target, x, y, filled) && Closed(g, target, filled)
  {
    var rows, cols := a.Length0, a.Length1;
    var stack: seq<Pos> := [(x, y)];
    filled := {};
    StackStart(g, target, x, y, rows, cols);
    BoxSize(rows, cols);
    while |stack| > 0
      invariant Painted(a, g, filled, newSymbol)
      invariant StackInv(g, target, x, y, rows, cols, filled, stack)
      invariant |filled| <= rows * cols
      decreases rows * cols - |filled|, |stack|
    {
      var cur := stack[|stack| - 1];
      LastSplit(stack);
      stack := stack[..|stack| - 1];
      var curX, curY := cur.0, cur.1;
      if curX >= 0 && curX < rows && curY >= 0 && curY < cols && a[curX, curY] == target {
        Unpainted(a, g, filled, newSymbol, target, cur);
        StackPaint(g, target, x, y, rows, cols, filled, stack, cur);
        Paint(a, g, filled, newSymbol, cur);
        filled := filled + {cur};
        stack := stack + Around(cur);
      } else {
        PaintedHandled(a, g, filled, newSymbol, target, cur);
        StackSkip(g, target, x, y, rows, cols, filled, stack, cur);
      }
    }
    StackDone(g, target, x, y, rows, cols, filled);
  }
}
