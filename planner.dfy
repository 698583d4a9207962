// The value-level pieces of the Python load-balancing planner: which edges of
// a partition may move, the minimum-size test, how an edge move changes the
// bounds, the boid histogram and its row/column sums, and the specification
// functions the imperative planner (Partitions) is proved against.
module Planner {
  import opened Common
  import opened Migration

  /** Edges of a partition: 0 top, 1 right, 2 bottom, 3 left. */
  const TOP := 0
  const RIGHT := 1
  const BOTTOM := 2
  const LEFT := 3

  predicate IsEdge(e: int) { 0 <= e < 4 }

  /** The load-balancing settings of the simulation's configuration. */
  datatype Config = Config(
    stepSize: int,          // pixels per step of an edge move
    minBoidCpuSize: int,    // smallest allowed width or height
    widthInBoidCpus: int,   // partitions per row (and per column)
    boidThreshold: int,     // a partition with this many boids is overloaded
    boidsToRelease: int,    // boids an overloaded partition tries to shed
    loadBalanceType: int)   // 1 naive, 2 distribution, 3 negotiated

  /**
   * boidsToRelease: the threshold minus the rounded-down number of boids
   * that remain after removing the given fraction. Evaluated exactly here.
   */
  function BoidsToRelease(threshold: int, fraction: real): (r: int)
    ensures (r - 1) as real < threshold as real * fraction <= r as real
  {
    threshold - (threshold as real * (1.0 - fraction)).Floor
  }

  /** With a threshold of 30 and 15% to remove, five boids are released. */
  lemma DefaultRelease()
    ensures BoidsToRelease(30, 0.15) == 5
  {
    assert 30.0 * 0.15 == 4.5;
  }

  /** edge_to_coord: the slot of the bounds an edge move changes. */
  function EdgeToCoord(e: int): (i: int)
    requires IsEdge(e)
    ensures 0 <= i < 4
    ensures e == TOP ==> i == Y_MIN
    ensures e == RIGHT ==> i == X_MAX
    ensures e == BOTTOM ==> i == Y_MAX
    ensures e == LEFT ==> i == X_MIN
  {
    (e + 1) % 4
  }

  /** Distinct edges own distinct slots. */
  lemma EdgeToCoordInjective(e1: int, e2: int)
    requires IsEdge(e1) && IsEdge(e2) && e1 != e2
    ensures EdgeToCoord(e1) != EdgeToCoord(e2)
  {
  }

  /**
   * valid_edge: which edges of the partition at (row, col) may move, in a
   * square grid `width` partitions wide.
   */
  function ValidEdges(row: int, col: int, width: int): (r: seq<bool>)
    ensures |r| == 4
  {
    if col == 0 && row == 0 then [false, true, true, false]
    else if col == width - 1 && row == width - 1 then [true, false, false, true]
    else if col == 0 && row == width - 1 then [true, true, false, false]
    else if col == width - 1 && row == 0 then [false, false, true, true]
    else if col == 0 then [true, true, true, false]
    else if row == 0 then [false, true, true, true]
    else if col == width - 1 then [true, false, true, true]
    else if row == width - 1 then [true, true, false, true]
    else [true, true, true, true]
  }

  predicate ValidEdge(row: int, col: int, width: int, e: int)
    requires IsEdge(e)
  {
    ValidEdges(row, col, width)[e]
  }

  /** An edge may move exactly when it does not lie on the outer boundary. */
  lemma ValidEdgeOffBoundary(row: int, col: int, width: int, e: int)
    requires 2 <= width && 0 <= row < width && 0 <= col < width && IsEdge(e)
    ensures ValidEdge(row, col, width, e) <==>
      (e == TOP ==> row != 0) && (e == RIGHT ==> col != width - 1) &&
      (e == BOTTOM ==> row != width - 1) && (e == LEFT ==> col != 0)
  {
  }

  function CountTrue(s: seq<bool>): nat
  {
    if |s| == 0 then 0 else (if s[0] then 1 else 0) + CountTrue(s[1..])
  }

  /** Corners have two movable edges, border partitions three, inner ones four. */
  lemma ValidEdgeCount(row: int, col: int, width: int)
    requires 2 <= width && 0 <= row < width && 0 <= col < width
    ensures CountTrue(ValidEdges(row, col, width)) ==
      (if row == 0 || row == width - 1 then 1 else 2) + (if col == 0 || col == width - 1 then 1 else 2)
  {
    var v := ValidEdges(row, col, width);
    assert CountTrue(v[4..]) == 0;
    assert v[3..][0] == v[3] && v[3..][1..] == v[4..];
    assert CountTrue(v[3..]) == (if v[3] then 1 else 0) + CountTrue(v[4..]);
    assert v[2..][0] == v[2] && v[2..][1..] == v[3..];
    assert CountTrue(v[2..]) == (if v[2] then 1 else 0) + CountTrue(v[3..]);
    assert v[1..][0] == v[1] && v[1..][1..] == v[2..];
    assert CountTrue(v[1..]) == (if v[1] then 1 else 0) + CountTrue(v[2..]);
    assert v[0..][0] == v[0] && v[0..][1..] == v[1..];
    assert CountTrue(v[0..]) == (if v[0] then 1 else 0) + CountTrue(v[1..]);
    assert v[0..] == v;
    ValidEdgeOffBoundary(row, col, width, 0);
    ValidEdgeOffBoundary(row, col, width, 1);
    ValidEdgeOffBoundary(row, col, width, 2);
    ValidEdgeOffBoundary(row, col, width, 3);
  }

  /** Height of a bounds rectangle [xmin, ymin, xmax, ymax]. */
  function Height(c: seq<int>): int requires |c| == 4 { c[Y_MAX] - c[Y_MIN] }
  function Width(c: seq<int>): int requires |c| == 4 { c[X_MAX] - c[X_MIN] }

  /**
   * move_edge: the bounds after moving edge e by `steps` steps, inwards when
   * `decrease` holds and outwards otherwise. Only the edge's own slot moves.
   */
  function MovedEdge(c: seq<int>, e: int, decrease: bool, steps: int, step: int): (r: seq<int>)
    requires |c| == 4 && IsEdge(e)
    ensures |r| == 4
    ensures forall i :: 0 <= i < 4 && i != EdgeToCoord(e) ==> r[i] == c[i]
    ensures e == TOP || e == BOTTOM ==>
      Width(r) == Width(c) && Height(r) == Height(c) + (if decrease then -step * steps else step * steps)
    ensures e == LEFT || e == RIGHT ==>
      Height(r) == Height(c) && Width(r) == Width(c) + (if decrease then -step * steps else step * steps)
  {
    var change := step * steps;
    var i := EdgeToCoord(e);
    if e == TOP then c[i := if decrease then c[i] + change else c[i] - change]
    else if e == RIGHT then c[i := if decrease then c[i] - change else c[i] + change]
    else if e == BOTTOM then c[i := if decrease then c[i] - change else c[i] + change]
    else c[i := if decrease then c[i] + change else c[i] - change]
  }

  /** Moving an edge in and then out by the same amount restores the bounds. */
  lemma MovedEdgeBack(c: seq<int>, e: int, steps: int, step: int)
    requires |c| == 4 && IsEdge(e)
    ensures MovedEdge(MovedEdge(c, e, true, steps, step), e, false, steps, step) == c
  {
  }

  /** Moves of different edges commute. */
  lemma MovedEdgeCommute(c: seq<int>, e1: int, d1: bool, s1: int, e2: int, d2: bool, s2: int, step: int)
    requires |c| == 4 && IsEdge(e1) && IsEdge(e2) && e1 != e2
    ensures MovedEdge(MovedEdge(c, e1, d1, s1, step), e2, d2, s2, step) ==
            MovedEdge(MovedEdge(c, e2, d2, s2, step), e1, d1, s1, step)
  {
  }

  /**
   * change_bounds: the direction an edge moves. Top and bottom edges move
   * inwards in the overloaded partition's row and outwards in every other
   * row; right and left edges likewise with the overloaded partition's column.
   */
  predicate Shrinks(e: int, row: int, col: int, overRow: int, overCol: int)
    requires IsEdge(e)
  {
    if e == TOP || e == BOTTOM then row == overRow else col == overCol
  }

  /** The dimension an edge move changes: height for top/bottom, width otherwise. */
  function Span(c: seq<int>, e: int): int
    requires |c| == 4 && IsEdge(e)
  {
    if e == TOP || e == BOTTOM then Height(c) else Width(c)
  }

  /**
   * min_size_enforced: moving edge e in by `proposed` steps keeps the span it
   * changes at least the minimum size. The bounds themselves are untouched.
   */
  function MinSizeEnforced(c: seq<int>, e: int, proposed: int, cfg: Config): (ok: bool)
    requires |c| == 4 && IsEdge(e)
    ensures ok <==> Span(MovedEdge(c, e, true, proposed, cfg.stepSize), e) >= cfg.minBoidCpuSize
  {
    var change := cfg.stepSize * proposed;
    var size := if e == TOP || e == BOTTOM then Height(c) - change else Width(c) - change;
    size >= cfg.minBoidCpuSize
  }

  /** A move that is too large stays too large when the bounds shrink. */
  lemma MinSizeMonotone(c: seq<int>, c': seq<int>, e: int, p: int, p': int, cfg: Config)
    requires |c| == 4 && |c'| == 4 && IsEdge(e) && 0 < cfg.stepSize
    requires Span(c', e) <= Span(c, e) && p <= p'
    requires !MinSizeEnforced(c, e, p, cfg)
    ensures !MinSizeEnforced(c', e, p', cfg)
  {
    MulMonotone(cfg.stepSize, p, p');
  }

  lemma MulMonotone(a: int, b: int, b': int)
    requires 0 <= a
    ensures b <= b' ==> a * b <= a * b'
  {
  }

  // ---------------------------------------------------------------------
  // The boid histogram of create_boid_distribution.

  /** Upper bound of segment k of an axis that starts at `origin`. */
  function SegmentEnd(k: int, step: int, origin: int): real
  {
    ((k + 1) * step + origin) as real
  }

  /**
   * Index of the first segment k < count whose upper bound
   * (k + 1) * step + origin exceeds v, searching from segment `from`.
   */
  function FirstSegment(v: real, origin: int, step: int, count: int, from: nat): (r: Option<int>)
    requires step > 0
    decreases count - from
    ensures r.Some? ==> from <= r.value < count && v < SegmentEnd(r.value, step, origin)
    ensures r.Some? ==> forall k :: from <= k < r.value ==> v >= SegmentEnd(k, step, origin)
    ensures r.None? ==> forall k :: from <= k < count ==> v >= SegmentEnd(k, step, origin)
  {
    if from >= count then None
    else if v < SegmentEnd(from, step, origin) then Some(from)
    else FirstSegment(v, origin, step, count, from + 1)
  }

  /** The cell (row, column) a boid is counted in, if any. */
  function CellOf(b: Boid, c: seq<int>, step: int, rows: int, cols: int): (r: Option<(int, int)>)
    requires |c| == 4 && step > 0
    ensures r.Some? ==> 0 <= r.value.0 < rows && 0 <= r.value.1 < cols
  {
    match (FirstSegment(b.y, c[Y_MIN], step, rows, 0), FirstSegment(b.x, c[X_MIN], step, cols, 0))
    case (Some(h), Some(w)) => Some((h, w))
    case _ => None
  }

  function Zeros(rows: nat, cols: nat): (d: seq<seq<int>>)
    ensures IsGrid(d, rows, cols)
  {
    seq(rows, _ => seq(cols, _ => 0))
  }

  predicate IsGrid(d: seq<seq<int>>, rows: int, cols: int)
  {
    |d| == rows && forall h :: 0 <= h < |d| ==> |d[h]| == cols
  }

  function Increment(d: seq<seq<int>>, h: int, w: int): (r: seq<seq<int>>)
    requires 0 <= h < |d| && 0 <= w < |d[h]|
  {
    d[h := d[h][w := d[h][w] + 1]]
  }

  /** The histogram of a list of boids over the step-sized cells. */
  function Histogram(bs: seq<Boid>, c: seq<int>, step: int, rows: nat, cols: nat): (d: seq<seq<int>>)
    requires |c| == 4 && step > 0
    ensures IsGrid(d, rows, cols)
  {
    if |bs| == 0 then Zeros(rows, cols)
    else
      var d := Histogram(bs[..|bs| - 1], c, step, rows, cols);
      match CellOf(bs[|bs| - 1], c, step, rows, cols)
      case Some((h, w)) => Increment(d, h, w)
      case None => d
  }

  function RowSum(r: seq<int>): int
  {
    if |r| == 0 then 0 else RowSum(r[..|r| - 1]) + r[|r| - 1]
  }

  function ColumnSum(d: seq<seq<int>>, w: int): int
    requires 0 <= w && forall h :: 0 <= h < |d| ==> w < |d[h]|
  {
    if |d| == 0 then 0 else ColumnSum(d[..|d| - 1], w) + d[|d| - 1][w]
  }

  function Total(d: seq<seq<int>>): int
  {
    if |d| == 0 then 0 else Total(d[..|d| - 1]) + RowSum(d[|d| - 1])
  }

  /** Number of boids of the list whose cell satisfies `p`. */
  function CountCells(bs: seq<Boid>, c: seq<int>, step: int, rows: int, cols: int, p: (int, int) -> bool): nat
    requires |c| == 4 && step > 0
  {
    if |bs| == 0 then 0
    else
      var last := match CellOf(bs[|bs| - 1], c, step, rows, cols)
        case Some(cell) => if p(cell.0, cell.1) then 1 else 0
        case None => 0;
      CountCells(bs[..|bs| - 1], c, step, rows, cols, p) + last
  }

  lemma {:induction false} RowSumIncrement(r: seq<int>, w: int)
    requires 0 <= w < |r|
    ensures RowSum(r[w := r[w] + 1]) == RowSum(r) + 1
  {
    if w < |r| - 1 {
      assert r[w := r[w] + 1][..|r| - 1] == r[..|r| - 1][w := r[w] + 1];
      RowSumIncrement(r[..|r| - 1], w);
    } else {
      assert r[w := r[w] + 1][..|r| - 1] == r[..|r| - 1];
    }
  }

  lemma {:induction false} ColumnSumIncrement(d: seq<seq<int>>, h: int, w: int, w': int)
    requires 0 <= h < |d| && 0 <= w && 0 <= w' && forall k :: 0 <= k < |d| ==> w < |d[k]| && w' < |d[k]|
    ensures ColumnSum(Increment(d, h, w), w') == ColumnSum(d, w') + (if w == w' then 1 else 0)
  {
    var d' := Increment(d, h, w);
    if h < |d| - 1 {
      assert d'[..|d| - 1] == Increment(d[..|d| - 1], h, w);
      ColumnSumIncrement(d[..|d| - 1], h, w, w');
    } else {
      assert d'[..|d| - 1] == d[..|d| - 1];
    }
  }

  /**
   * Row h of the histogram counts the boids whose cell lies in row h: the
   * boids in the band [ymin + h * step, ymin + (h + 1) * step).
   */
  lemma {:induction false} HistogramRow(bs: seq<Boid>, c: seq<int>, step: int, rows: nat, cols: nat, h: int)
    requires |c| == 4 && step > 0 && 0 <= h < rows
    ensures RowSum(Histogram(bs, c, step, rows, cols)[h]) ==
            CountCells(bs, c, step, rows, cols, (r, _) => r == h)
  {
    if |bs| == 0 {
      ZeroRow(cols);
    } else {
      var d := Histogram(bs[..|bs| - 1], c, step, rows, cols);
      HistogramRow(bs[..|bs| - 1], c, step, rows, cols, h);
      match CellOf(bs[|bs| - 1], c, step, rows, cols)
      case Some((h', w')) =>
        if h' == h { RowSumIncrement(d[h], w'); }
      case None =>
    }
  }

  /** Column w of the histogram counts the boids whose cell lies in column w. */
  lemma {:induction false} HistogramColumn(bs: seq<Boid>, c: seq<int>, step: int, rows: nat, cols: nat, w: int)
    requires |c| == 4 && step > 0 && 0 <= w < cols
    ensures ColumnSum(Histogram(bs, c, step, rows, cols), w) ==
            CountCells(bs, c, step, rows, cols, (_, k) => k == w)
  {
    if |bs| == 0 {
      ZeroColumn(rows, cols, w);
    } else {
      var d := Histogram(bs[..|bs| - 1], c, step, rows, cols);
      HistogramColumn(bs[..|bs| - 1], c, step, rows, cols, w);
      match CellOf(bs[|bs| - 1], c, step, rows, cols)
      case Some((h', w')) => ColumnSumIncrement(d, h', w', w);
      case None =>
    }
  }

  /** The cells hold every boid at most once: the total is at most the boid count. */
  lemma {:induction false} HistogramTotal(bs: seq<Boid>, c: seq<int>, step: int, rows: nat, cols: nat)
    requires |c| == 4 && step > 0
    ensures Total(Histogram(bs, c, step, rows, cols)) == CountCells(bs, c, step, rows, cols, (_, _) => true)
    ensures Total(Histogram(bs, c, step, rows, cols)) <= |bs|
  {
    if |bs| == 0 {
      ZeroTotal(rows, cols);
    } else {
      var d := Histogram(bs[..|bs| - 1], c, step, rows, cols);
      HistogramTotal(bs[..|bs| - 1], c, step, rows, cols);
      match CellOf(bs[|bs| - 1], c, step, rows, cols)
      case Some((h', w')) => TotalIncrement(d, h', w');
      case None =>
    }
  }

  lemma {:induction false} TotalIncrement(d: seq<seq<int>>, h: int, w: int)
    requires 0 <= h < |d| && 0 <= w < |d[h]|
    ensures Total(Increment(d, h, w)) == Total(d) + 1
  {
    var d' := Increment(d, h, w);
    if h < |d| - 1 {
      assert d'[..|d| - 1] == Increment(d[..|d| - 1], h, w);
      TotalIncrement(d[..|d| - 1], h, w);
    } else {
      assert d'[..|d| - 1] == d[..|d| - 1];
      RowSumIncrement(d[h], w);
    }
  }

  lemma {:induction false} ZeroRow(n: nat)
    ensures RowSum(seq(n, _ => 0)) == 0
  {
    if n > 0 {
      assert seq(n, _ => 0)[..n - 1] == seq(n - 1, _ => 0);
      ZeroRow(n - 1);
    }
  }

  lemma {:induction false} ZeroColumn(rows: nat, cols: nat, w: int)
    requires 0 <= w < cols
    ensures ColumnSum(Zeros(rows, cols), w) == 0
  {
    if rows > 0 {
      assert Zeros(rows, cols)[..rows - 1] == Zeros(rows - 1, cols);
      ZeroColumn(rows - 1, cols, w);
    }
  }

  lemma {:induction false} ZeroTotal(rows: nat, cols: nat)
    ensures Total(Zeros(rows, cols)) == 0
  {
    if rows > 0 {
      assert Zeros(rows, cols)[..rows - 1] == Zeros(rows - 1, cols);
      ZeroTotal(rows - 1, cols);
      ZeroRow(cols);
    }
  }

  /**
   * get_distribution_row_col: the boids freed by the bound-th step of an
   * edge, i.e. the row or column of cells next to that edge. The bound must
   * index a row (top, bottom) or column (right, left) of the histogram.
   */
  function RowCol(d: seq<seq<int>>, rows: int, cols: int, e: int, bound: int): int
    requires IsGrid(d, rows, cols) && IsEdge(e)
    requires e == TOP || e == BOTTOM ==> 0 <= bound < rows
    requires e == LEFT || e == RIGHT ==> 0 <= bound < cols
  {
    if e == TOP then RowSum(d[bound])
    else if e == RIGHT then ColumnSum(d, cols - 1 - bound)
    else if e == BOTTOM then RowSum(d[rows - 1 - bound])
    else ColumnSum(d, bound)
  }

  /**
   * On a histogram of the partition's own boids, the bound-th step of an edge
   * frees the boids of the band of cells that step uncovers: for the top edge
   * band `bound` from the top, for the right edge band `bound` from the right,
   * and so on.
   */
  lemma RowColCountsBand(bs: seq<Boid>, c: seq<int>, step: int, rows: nat, cols: nat, e: int, bound: int)
    requires |c| == 4 && step > 0 && IsEdge(e)
    requires e == TOP || e == BOTTOM ==> 0 <= bound < rows
    requires e == LEFT || e == RIGHT ==> 0 <= bound < cols
    ensures RowCol(Histogram(bs, c, step, rows, cols), rows, cols, e, bound) ==
      if e == TOP then CountCells(bs, c, step, rows, cols, (r, _) => r == bound)
      else if e == RIGHT then CountCells(bs, c, step, rows, cols, (_, k) => k == cols - 1 - bound)
      else if e == BOTTOM then CountCells(bs, c, step, rows, cols, (r, _) => r == rows - 1 - bound)
      else CountCells(bs, c, step, rows, cols, (_, k) => k == bound)
  {
    if e == TOP { HistogramRow(bs, c, step, rows, cols, bound); }
    else if e == RIGHT { HistogramColumn(bs, c, step, rows, cols, cols - 1 - bound); }
    else if e == BOTTOM { HistogramRow(bs, c, step, rows, cols, rows - 1 - bound); }
    else { HistogramColumn(bs, c, step, rows, cols, bound); }
  }

  // ---------------------------------------------------------------------
  // Specification of analyse_boid_distribution.

  /** 1 + 2 + ... + k: an edge advanced k times has moved k(k+1)/2 steps. */
  function Tri(k: nat): nat
  {
    if k == 0 then 0 else Tri(k - 1) + k
  }

  /**
   * The tentative bounds after each edge e has advanced changes[e] times,
   * each advance p moving the edge p steps further in.
   */
  function Shrunk(c: seq<int>, changes: seq<nat>, step: int): (r: seq<int>)
    requires |c| == 4 && |changes| == 4
    ensures |r| == 4
  {
    [c[X_MIN] + step * Tri(changes[LEFT]), c[Y_MIN] + step * Tri(changes[TOP]),
     c[X_MAX] - step * Tri(changes[RIGHT]), c[Y_MAX] - step * Tri(changes[BOTTOM])]
  }

  /** Advancing edge e once more moves it (changes[e] + 1) steps further in. */
  lemma ShrunkAdvance(c: seq<int>, changes: seq<nat>, step: int, e: int)
    requires |c| == 4 && |changes| == 4 && IsEdge(e)
    ensures Shrunk(c, changes[e := changes[e] + 1], step) ==
            MovedEdge(Shrunk(c, changes, step), e, true, changes[e] + 1, step)
  {
    assert step * Tri(changes[e] + 1) == step * Tri(changes[e]) + step * (changes[e] + 1);
  }

  /** The histogram has at least k bands along the axis edge e moves on. */
  predicate FitsBands(rows: int, cols: int, e: int, k: int)
    requires IsEdge(e)
  {
    (e == TOP || e == BOTTOM ==> k <= rows) && (e == LEFT || e == RIGHT ==> k <= cols)
  }

  /** Boids freed by advancing edge e from 0 to k steps: its first k bands. */
  function ReleasedByEdge(d: seq<seq<int>>, rows: int, cols: int, e: int, k: nat): int
    requires IsGrid(d, rows, cols) && IsEdge(e) && FitsBands(rows, cols, e, k)
  {
    if k == 0 then 0 else ReleasedByEdge(d, rows, cols, e, k - 1) + RowCol(d, rows, cols, e, k - 1)
  }

  /** Boids freed by a vector of edge advances. */
  function Released(d: seq<seq<int>>, rows: int, cols: int, changes: seq<nat>): int
    requires IsGrid(d, rows, cols) && |changes| == 4
    requires forall e :: IsEdge(e) ==> FitsBands(rows, cols, e, changes[e])
  {
    ReleasedByEdge(d, rows, cols, TOP, changes[TOP]) + ReleasedByEdge(d, rows, cols, RIGHT, changes[RIGHT]) +
    ReleasedByEdge(d, rows, cols, BOTTOM, changes[BOTTOM]) + ReleasedByEdge(d, rows, cols, LEFT, changes[LEFT])
  }
}
