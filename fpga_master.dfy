// The BoidMaster core of the FPGA generation: discovery of BoidCPUs from
// ping replies, the initial split of boids, the grid shape and its tiling of
// the 1280 x 720 area, toroidal neighbour lists and distinct-neighbour
// counts, the phase machine driven by ACKs, and the naive load balancer that
// encodes edge changes as signed 4-bit fields.
module FpgaMaster {
  import opened Common
  import opened Wire
  import Topology
  import FpgaBoidCpu

  const MAX_BOIDCPUS := 32
  const SIMULATION_WIDTH := 1280
  const SIMULATION_HEIGHT := 720

  // Layout of the body of a CMD_SIM_SETUP command.
  const CMD_SETUP_NEWID_IDX := 0
  const CMD_SETUP_BDCNT_IDX := 1
  const CMD_SETUP_COORD_IDX := 2
  const CMD_SETUP_NBCNT_IDX := 6
  const CMD_SETUP_BNBRS_IDX := 7
  const CMD_SETUP_SIMWH_IDX := 15
  const SETUP_DATA_LENGTH := 17

  /** Storing into an unsigned 12-bit variable. */
  function U12(x: int): int { x % 0x1000 }

  // ---------------------------------------------------------------------
  // The initial boid split.

  /**
   * setupSimulation's initial boid counts: boidCount / n each, the last
   * BoidCPU also taking the remainder; the share and the remainder are
   * 12-bit values and each count an 8-bit one.
   */
  function Shares(total: int, n: int): (r: seq<int>)
    requires 1 <= n
    ensures |r| == n
  {
    var per := U12(total / n);
    var rem := U12(U32(total - per * n));
    seq(n, i requires 0 <= i < n => if i == n - 1 then U8(per + rem) else U8(per))
  }

  /**
   * When the last count fits in its 8-bit field, every BoidCPU but the last
   * gets the quotient, the last also the remainder, and no boid is lost or
   * made up.
   */
  lemma SharesSum(total: int, n: int)
    requires 1 <= n && 0 <= total && total / n + total % n < TWO8
    ensures forall i :: 0 <= i < n - 1 ==> Shares(total, n)[i] == total / n
    ensures Shares(total, n)[n - 1] == total / n + total % n
    ensures Sum(Shares(total, n)) == total
  {
    var per, rem := total / n, total % n;
    SharesShape(total, n);
    SumAppend(Repeat(per, n - 1), [per + rem]);
    assert Sum([per + rem]) == per + rem;
    RepeatedShares(total, n);
  }

  /** n - 1 quotients, one more quotient and the remainder make up the total. */
  lemma RepeatedShares(total: int, n: int)
    requires 1 <= n && 0 <= total
    ensures Sum(Repeat(total / n, n - 1)) + total / n + total % n == total
  {
    var per := total / n;
    SumRepeat(per, n - 1);
    assert per * (n - 1) + per == per * n;
    QuotRem(total, n);
  }

  /** With no wrap-around, the counts are n - 1 quotients and then quotient plus remainder. */
  lemma SharesShape(total: int, n: int)
    requires 1 <= n && 0 <= total && total / n + total % n < TWO8
    ensures Shares(total, n) == Repeat(total / n, n - 1) + [total / n + total % n]
  {
    var per, rem := total / n, total % n;
    SharesFit(total, n);
    var r := Shares(total, n);
    forall i | 0 <= i < n
      ensures r[i] == (Repeat(per, n - 1) + [per + rem])[i]
    {
    }
  }

  lemma QuotRem(total: int, n: int)
    requires 1 <= n && 0 <= total
    ensures total - (total / n) * n == total % n && 0 <= total / n <= total && 0 <= total % n
  {
  }

  /** When the last count fits in 8 bits, none of the truncations in the split changes a value. */
  lemma SharesFit(total: int, n: int)
    requires 1 <= n && 0 <= total && total / n + total % n < TWO8
    ensures U12(total / n) == total / n && U12(U32(total - U12(total / n) * n)) == total % n
    ensures U8(total / n) == total / n && U8(total / n + total % n) == total / n + total % n
  {
    var per, rem := total / n, total % n;
    QuotRem(total, n);
    DivModUnique(per, 0x1000, 0, per);
    DivModUnique(per, TWO8, 0, per);
    DivModUnique(per + rem, TWO8, 0, per + rem);
    DivModUnique(rem, TWO32, 0, rem);
    DivModUnique(rem, 0x1000, 0, rem);
  }

  function Repeat(v: int, k: nat): (r: seq<int>)
    ensures |r| == k && forall i :: 0 <= i < k ==> r[i] == v
  {
    seq(k, _ => v)
  }

  lemma {:induction false} SumRepeat(v: int, k: nat)
    ensures Sum(Repeat(v, k)) == v * k
  {
    if k > 0 {
      assert Repeat(v, k)[..k - 1] == Repeat(v, k - 1);
      SumRepeat(v, k - 1);
    }
  }

  // ---------------------------------------------------------------------
  // The grid shape.

  /** h rows of w BoidCPUs hold exactly n, and the grid is at least as wide as it is high. */
  predicate FactorPair(n: int, h: int, w: int)
  {
    1 <= h <= w && h * w == n
  }

  /** The pair kept so far: one has been found once the uint8 difference is below 255. */
  predicate Kept(n: int, h: int, w: int, difference: int)
  {
    difference <= TWO8 - 1 && (difference < TWO8 - 1 ==> FactorPair(n, h, w) && difference == w - h)
  }

  /**
   * closestMultiples: of the factor pairs of n, the one whose two factors
   * are closest; the larger is the width. The difference lives in a uint8
   * that starts at 255.
   */
  method ClosestMultiples(n: int) returns (h: int, w: int)
    requires 1 <= n < TWO8
    ensures FactorPair(n, h, w)
    ensures forall i, j :: FactorPair(n, i, j) ==> w - h <= j - i
  {
    var difference := TWO8 - 1;
    h, w := 0, 0;
    for i := 1 to n + 1
      invariant Kept(n, h, w, difference)
      invariant forall a, b :: FactorPair(n, a, b) && a < i ==> difference <= b - a
    {
      h, w, difference := ScanColumn(n, i, h, w, difference);
    }
    assert FactorPair(n, 1, n);
  }

  /**
   * The inner loop of closestMultiples: j counts down from n while it is
   * not below i, and a product equal to n with a smaller difference
   * replaces the kept pair.
   */
  method ScanColumn(n: int, i: int, h0: int, w0: int, d0: int) returns (h: int, w: int, difference: int)
    requires 1 <= i && Kept(n, h0, w0, d0)
    ensures Kept(n, h, w, difference) && difference <= d0
    ensures forall b :: FactorPair(n, i, b) ==> difference <= b - i
  {
    h, w, difference := h0, w0, d0;
    var j := n;
    ScanStart(n, i, d0);
    while j > 0 && i <= j
      invariant j <= n
      invariant Kept(n, h, w, difference) && difference <= d0
      invariant ScannedAbove(n, i, j, difference)
    {
      ghost var d := difference;
      if i * j == n && j - i < difference {
        h, w := i, j;
        difference := j - i;
      }
      ScanStep(n, i, j, d, difference);
      j := j - 1;
    }
    ScanDone(n, i, j, difference);
  }

  /** No factor pair (i, b) has b above n. */
  lemma ScanStart(n: int, i: int, d: int)
    requires 1 <= i
    ensures ScannedAbove(n, i, n, d)
  {
    forall b | FactorPair(n, i, b)
      ensures b <= n
    {
      Common.MulAtLeast(i, b);
    }
  }

  /** Once j is below i (or 0), every factor pair (i, b) has been scanned. */
  lemma ScanDone(n: int, i: int, j: int, d: int)
    requires 1 <= i && (j <= 0 || j < i) && ScannedAbove(n, i, j, d)
    ensures forall b :: FactorPair(n, i, b) ==> d <= b - i
  {
  }

  lemma ScanStep(n: int, i: int, j: int, d: int, d': int)
    requires ScannedAbove(n, i, j, d) && d' <= d && (i * j == n ==> d' <= j - i)
    ensures ScannedAbove(n, i, j - 1, d')
  {
    forall b | FactorPair(n, i, b) && j - 1 < b
      ensures d' <= b - i
    {
      if b == j {
        assert i * j == n;
      }
    }
  }

  /** Every factor pair (i, b) with b above j is at least as far apart as the kept pair. */
  ghost predicate ScannedAbove(n: int, i: int, j: int, difference: int)
  {
    forall b :: FactorPair(n, i, b) && j < b ==> difference <= b - i
  }

  /** The factor pair with the closest factors is unique: the grid shape is determined by n. */
  lemma ClosestPairUnique(n: int, h1: int, w1: int, h2: int, w2: int)
    requires FactorPair(n, h1, w1) && FactorPair(n, h2, w2) && w1 - h1 == w2 - h2
    ensures h1 == h2 && w1 == w2
  {
    if h1 < h2 {
      MulLt(h1, h2, w1);
      Topology.MulLe(w1, w2, h2);
      assert false;
    } else if h2 < h1 {
      MulLt(h2, h1, w2);
      Topology.MulLe(w2, w1, h1);
      assert false;
    }
  }

  lemma MulLt(a: int, b: int, c: int)
    requires a < b && 0 < c
    ensures a * c < b * c
  {
    assert b * c == a * c + (b - a) * c;
  }

  // ---------------------------------------------------------------------
  // Tiling the simulation area.

  /** The lower pixel bound of cell i of an axis of `total` pixels cut into `cells`. */
  function Lo(i: int, cells: int, total: int): int
    requires 0 < cells
  {
    i * (total / cells)
  }

  /** The upper pixel bound: one cell size on, the last cell adding the division remainder. */
  function Hi(i: int, cells: int, total: int): int
    requires 0 < cells
  {
    var size := total / cells;
    if i == cells - 1 then Lo(i, cells, total) + size + (total - size * cells)
    else Lo(i, cells, total) + size
  }

  /** The bounds of the BoidCPU in row `row` and column `col`: [xmin, ymin, xmax, ymax]. */
  function CellCoords(row: int, col: int, rows: int, cols: int): (c: seq<int>)
    requires 0 < rows && 0 < cols
    ensures |c| == 4
  {
    [Lo(col, cols, SIMULATION_WIDTH), Lo(row, rows, SIMULATION_HEIGHT),
     Hi(col, cols, SIMULATION_WIDTH), Hi(row, rows, SIMULATION_HEIGHT)]
  }

  /**
   * The cells of an axis tile it: the first starts at 0, the last ends at
   * the full size, each ends where the next starts, and none is empty.
   */
  lemma Tiles(cells: int, total: int)
    requires 0 < cells <= total
    ensures Lo(0, cells, total) == 0 && Hi(cells - 1, cells, total) == total
    ensures forall i :: 0 <= i < cells - 1 ==> Hi(i, cells, total) == Lo(i + 1, cells, total)
    ensures forall i :: 0 <= i < cells ==> 0 <= Lo(i, cells, total) < Hi(i, cells, total) <= total
  {
    var size := total / cells;
    assert size >= 1;
    assert (cells - 1) * size + size == cells * size;
    forall i | 0 <= i < cells
      ensures 0 <= Lo(i, cells, total) < Hi(i, cells, total) <= total
    {
      Topology.MulLe(i + 1, cells, size);
      assert (i + 1) * size == i * size + size;
    }
    forall i | 0 <= i < cells - 1
      ensures Hi(i, cells, total) == Lo(i + 1, cells, total)
    {
      assert (i + 1) * size == i * size + size;
    }
  }

  /** Every boid position of the area lies in exactly one BoidCPU's column and row interval. */
  lemma CellOwnsPoint(cells: int, total: int, p: int, i: int, j: int)
    requires 0 < cells <= total && 0 <= i < cells && 0 <= j < cells
    requires Lo(i, cells, total) <= p < Hi(i, cells, total)
    requires Lo(j, cells, total) <= p < Hi(j, cells, total)
    ensures i == j
  {
    Tiles(cells, total);
    if i < j {
      LoMonotone(cells, total, i + 1, j);
    } else if j < i {
      LoMonotone(cells, total, j + 1, i);
    }
  }

  lemma LoMonotone(cells: int, total: int, a: int, b: int)
    requires 0 < cells && a <= b && 0 <= total
    ensures Lo(a, cells, total) <= Lo(b, cells, total)
  {
    Topology.MulLe(a, b, total / cells);
  }

  // ---------------------------------------------------------------------
  // Neighbour lists.

  /** The grid numbering: the BoidCPU in row r, column c has the (r * cols + c)-th id. */
  predicate Numbered(grid: seq<seq<int>>, rows: int, cols: int)
  {
    |grid| == rows && (forall r :: 0 <= r < rows ==> |grid[r]| == cols) &&
    forall r, c :: 0 <= r < rows && 0 <= c < cols ==> grid[r][c] == FIRST_BOIDCPU_ID + r * cols + c
  }

  /**
   * The eight entries setupSimulation reads around (x, y), NW first and
   * clockwise, each index stepping with wrap-around.
   */
  function Around(grid: seq<seq<int>>, rows: int, cols: int, x: int, y: int): (r: seq<int>)
    requires |grid| == rows && forall k :: 0 <= k < rows ==> |grid[k]| == cols
    requires 0 <= x < cols && 0 <= y < rows
    ensures |r| == 8
  {
    seq(8, d requires 0 <= d < 8 =>
      grid[Topology.WrapStep(y, RowStep(d), rows)][Topology.WrapStep(x, ColStep(d), cols)])
  }

  /** The body of the neighbour loop: the eight grid entries around (x, y), wrapping at the edges. */
  method NeighbourIds(grid: seq<seq<int>>, rows: int, cols: int, x: int, y: int) returns (nb: seq<int>)
    requires |grid| == rows && forall k :: 0 <= k < rows ==> |grid[k]| == cols
    requires 0 <= x < cols && 0 <= y < rows
    ensures nb == Around(grid, rows, cols, x, y)
  {
    var xMinusOne := if x == 0 then cols - 1 else x - 1;
    var xPlusOne := if x == cols - 1 then 0 else x + 1;
    var yMinusOne := if y == 0 then rows - 1 else y - 1;
    var yPlusOne := if y == rows - 1 then 0 else y + 1;
    nb := [grid[yMinusOne][xMinusOne], grid[yMinusOne][x], grid[yMinusOne][xPlusOne], grid[y][xPlusOne],
           grid[yPlusOne][xPlusOne], grid[yPlusOne][x], grid[yPlusOne][xMinusOne], grid[y][xMinusOne]];
  }

  /** Read off the numbered grid, the entries are the toroidal neighbours' ids. */
  lemma AroundIsTorus(grid: seq<seq<int>>, rows: int, cols: int, x: int, y: int)
    requires Numbered(grid, rows, cols) && 0 <= x < cols && 0 <= y < rows
    ensures forall d :: 0 <= d < 8 ==>
      Around(grid, rows, cols, x, y)[d] == FIRST_BOIDCPU_ID + Topology.TorusNeighbour(rows, cols, y, x, d)
  {
  }

  // ---------------------------------------------------------------------
  // Distinct neighbours.

  /** The first index holding v, or the length. */
  function Position(s: seq<int>, v: int): (k: nat)
    ensures k <= |s| && (k < |s| ==> s[k] == v)
    ensures forall j :: 0 <= j < k ==> s[j] != v
  {
    if |s| == 0 then 0 else if s[0] == v then 0 else 1 + Position(s[1..], v)
  }

  /** The number of entries that repeat an earlier entry. */
  function Repeats(s: seq<int>): (k: nat)
    ensures k <= |s|
  {
    if |s| == 0 then 0
    else Repeats(s[..|s| - 1]) + (if s[|s| - 1] in s[..|s| - 1] then 1 else 0)
  }

  /** v occurs at least twice. */
  predicate Repeated(s: seq<int>, v: int)
  {
    exists p, q :: 0 <= p < q < |s| && s[p] == v && s[q] == v
  }

  /** The count the master sends a BoidCPU: distinct neighbours, itself not counted when listed twice or more. */
  function DistinctCount(nbrs: seq<int>, own: int): int
  {
    |nbrs| - Repeats(nbrs) - (if Repeated(nbrs, own) then 1 else 0)
  }

  /** The number of ones in a flag list. */
  function Ones(d: seq<int>): nat
  {
    if |d| == 0 then 0 else Ones(d[..|d| - 1]) + (if d[|d| - 1] == 1 then 1 else 0)
  }

  lemma {:induction false} OnesSet(d: seq<int>, k: int)
    requires 0 <= k < |d| && d[k] == 0
    ensures Ones(d[k := 1]) == Ones(d) + 1
  {
    var e := d[k := 1];
    if k < |d| - 1 {
      assert e[..|e| - 1] == d[..|d| - 1][k := 1];
      OnesSet(d[..|d| - 1], k);
    } else {
      assert e[..|e| - 1] == d[..|d| - 1];
    }
  }

  /** Flags marking exactly the entries that repeat an earlier one count Repeats. */
  lemma {:induction false} OnesAreRepeats(s: seq<int>, d: seq<int>, m: nat)
    requires |d| == |s| && m <= |s|
    requires forall t {:trigger d[t]} :: 0 <= t < |s| ==> (d[t] == 1 <==> Position(s, s[t]) < t)
    ensures Ones(d[..m]) == Repeats(s[..m])
  {
    if m > 0 {
      OnesAreRepeats(s, d, m - 1);
      assert d[m - 1] == 1 <==> Position(s, s[m - 1]) < m - 1;
      RepeatStep(s, d, m);
    }
  }

  /** One more entry adds a one to the flags exactly when it adds a repeat. */
  lemma RepeatStep(s: seq<int>, d: seq<int>, m: nat)
    requires |d| == |s| && 0 < m <= |s|
    requires d[m - 1] == 1 <==> Position(s, s[m - 1]) < m - 1
    ensures Ones(d[..m]) - Ones(d[..m - 1]) == Repeats(s[..m]) - Repeats(s[..m - 1])
  {
    assert d[..m][..m - 1] == d[..m - 1];
    assert s[..m][..m - 1] == s[..m - 1];
    PositionBefore(s, s[m - 1], m - 1);
  }

  /** v occurs before index t exactly when its first position is below t. */
  lemma PositionBefore(s: seq<int>, v: int, t: int)
    requires 0 <= t <= |s|
    ensures Position(s, v) < t <==> v in s[..t]
  {
    if Position(s, v) < t {
      assert s[..t][Position(s, v)] == v;
    }
    if v in s[..t] {
      var p :| 0 <= p < t && s[..t][p] == v;
      assert s[p] == v;
    }
  }

  lemma {:induction false} OnesOfZeros(k: nat)
    ensures Ones(Repeat(0, k)) == 0
  {
    if k > 0 {
      assert Repeat(0, k)[..k - 1] == Repeat(0, k - 1);
      OnesOfZeros(k - 1);
    }
  }

  /**
   * The duplicate search of setupSimulation: only an entry not yet flagged
   * looks for later equal entries; each such entry is flagged and counted,
   * and the BoidCPU is its own neighbour when a repeated entry is its id.
   */
  method DistinctNeighbourCount(nbrs: seq<int>, own: int) returns (count: int)
    requires |nbrs| == 8
    ensures count == DistinctCount(nbrs, own)
  {
    var isOwnNeighbour := false;
    var duplicateCount := 0;
    var dup := Repeat(0, 8);
    OnesOfZeros(8);
    for j := 0 to 8
      invariant FlaggedBefore(nbrs, own, dup, j, duplicateCount, isOwnNeighbour)
    {
      if dup[j] == 0 {
        dup, duplicateCount, isOwnNeighbour := FlagRepeatsOf(nbrs, own, j, dup, duplicateCount, isOwnNeighbour);
      } else {
        FlaggedSkip(nbrs, own, dup, j, duplicateCount, isOwnNeighbour);
      }
    }
    FlaggedAll(nbrs, own, dup, duplicateCount, isOwnNeighbour);
    count := 8 - duplicateCount;
    if isOwnNeighbour {
      count := count - 1;
    }
  }

  /**
   * The state of the duplicate search once the first j entries have been
   * examined: the flagged entries are those whose first occurrence is
   * before both themselves and j, the count is the number of flags, and the
   * BoidCPU knows it is its own neighbour when a flagged entry is its id.
   */
  ghost predicate FlaggedBefore(nbrs: seq<int>, own: int, dup: seq<int>, j: int, count: int, isOwn: bool)
  {
    Flagging(nbrs, own, dup, j, j, count, isOwn)
  }

  /** The state inside the inner loop for entry j, before entry k. */
  ghost predicate Flagging(nbrs: seq<int>, own: int, dup: seq<int>, j: int, k: int, count: int, isOwn: bool)
  {
    |nbrs| == 8 && |dup| == 8 &&
    (forall t :: 0 <= t < 8 ==> (dup[t] == 1 <==>
      Position(nbrs, nbrs[t]) < Min(t, j) || (Position(nbrs, nbrs[t]) == j && j < t < k))) &&
    (forall t :: 0 <= t < 8 ==> dup[t] == 0 || dup[t] == 1) &&
    count == Ones(dup) &&
    (isOwn <==> exists t :: 0 <= t < 8 && dup[t] == 1 && nbrs[t] == own)
  }

  /**
   * The inner loop of the duplicate search for an unflagged entry j: every
   * later equal entry is flagged and counted.
   */
  method FlagRepeatsOf(nbrs: seq<int>, own: int, j: int, dup0: seq<int>, count0: int, isOwn0: bool)
    returns (dup: seq<int>, count: int, isOwn: bool)
    requires 0 <= j < 8
    requires FlaggedBefore(nbrs, own, dup0, j, count0, isOwn0) && dup0[j] == 0
    ensures FlaggedBefore(nbrs, own, dup, j + 1, count, isOwn)
  {
    dup, count, isOwn := dup0, count0, isOwn0;
    FlagStart(nbrs, own, dup, j, count, isOwn);
    for k := j + 1 to 8
      invariant Flagging(nbrs, own, dup, j, k, count, isOwn)
    {
      if nbrs[j] == nbrs[k] {
        FlagStep(nbrs, own, dup, j, k, count, isOwn);
        dup := dup[k := 1];
        count := count + 1;
        if own == nbrs[j] {
          isOwn := true;
        }
      } else {
        FlagPass(nbrs, own, dup, j, k, count, isOwn);
      }
    }
    FlagEnd(nbrs, own, dup, j, count, isOwn);
  }

  /** An unflagged entry is the first occurrence of its value. */
  lemma FlagStart(nbrs: seq<int>, own: int, dup: seq<int>, j: int, count: int, isOwn: bool)
    requires 0 <= j < 8 && FlaggedBefore(nbrs, own, dup, j, count, isOwn) && dup[j] == 0
    ensures Position(nbrs, nbrs[j]) == j && Flagging(nbrs, own, dup, j, j + 1, count, isOwn)
  {
  }

  lemma FlagStep(nbrs: seq<int>, own: int, dup: seq<int>, j: int, k: int, count: int, isOwn: bool)
    requires 0 <= j < k < 8 && Flagging(nbrs, own, dup, j, k, count, isOwn)
    requires Position(nbrs, nbrs[j]) == j && nbrs[j] == nbrs[k]
    ensures dup[k] == 0 && Flagging(nbrs, own, dup[k := 1], j, k + 1, count + 1, isOwn || own == nbrs[j])
  {
    assert Position(nbrs, nbrs[k]) == j;
    FlagMarks(nbrs, dup, j, k);
    OnesSet(dup, k);
    OwnFlag(nbrs, own, dup, k, isOwn);
  }

  /** Flagging entry k, the first repeat of entry j seen so far, keeps the flags exact. */
  lemma FlagMarks(nbrs: seq<int>, dup: seq<int>, j: int, k: int)
    requires 0 <= j < k < 8 && |nbrs| == 8 && |dup| == 8 && Position(nbrs, nbrs[k]) == j
    requires forall t :: 0 <= t < 8 ==> (dup[t] == 1 <==>
      Position(nbrs, nbrs[t]) < Min(t, j) || (Position(nbrs, nbrs[t]) == j && j < t < k))
    requires forall t :: 0 <= t < 8 ==> dup[t] == 0 || dup[t] == 1
    ensures var flagged := dup[k := 1];
      forall t :: 0 <= t < 8 ==> (flagged[t] == 1 <==>
        Position(nbrs, nbrs[t]) < Min(t, j) || (Position(nbrs, nbrs[t]) == j && j < t < k + 1))
    ensures var flagged := dup[k := 1]; forall t :: 0 <= t < 8 ==> flagged[t] == 0 || flagged[t] == 1
  {
  }

  /** Flagging entry k adds it to the flagged entries that hold the id. */
  lemma OwnFlag(nbrs: seq<int>, own: int, dup: seq<int>, k: int, isOwn: bool)
    requires |nbrs| == 8 && |dup| == 8 && 0 <= k < 8
    requires isOwn <==> exists t :: 0 <= t < 8 && dup[t] == 1 && nbrs[t] == own
    ensures (isOwn || own == nbrs[k]) <==> exists t :: 0 <= t < 8 && dup[k := 1][t] == 1 && nbrs[t] == own
  {
    var d := dup[k := 1];
    if own == nbrs[k] {
      assert d[k] == 1;
    }
    if isOwn {
      var t :| 0 <= t < 8 && dup[t] == 1 && nbrs[t] == own;
      assert d[t] == 1;
    }
    if exists t :: 0 <= t < 8 && d[t] == 1 && nbrs[t] == own {
      var t :| 0 <= t < 8 && d[t] == 1 && nbrs[t] == own;
      assert t == k || dup[t] == 1;
    }
  }

  lemma FlagPass(nbrs: seq<int>, own: int, dup: seq<int>, j: int, k: int, count: int, isOwn: bool)
    requires 0 <= j < k < 8 && Flagging(nbrs, own, dup, j, k, count, isOwn)
    requires Position(nbrs, nbrs[j]) == j && nbrs[j] != nbrs[k]
    ensures Flagging(nbrs, own, dup, j, k + 1, count, isOwn)
  {
    assert Position(nbrs, nbrs[k]) != j;
  }

  lemma FlagEnd(nbrs: seq<int>, own: int, dup: seq<int>, j: int, count: int, isOwn: bool)
    requires 0 <= j < 8 && Flagging(nbrs, own, dup, j, 8, count, isOwn)
    ensures FlaggedBefore(nbrs, own, dup, j + 1, count, isOwn)
  {
  }

  /** A flagged entry j repeats an earlier value, so no later entry has its first occurrence at j. */
  lemma FlaggedSkip(nbrs: seq<int>, own: int, dup: seq<int>, j: int, count: int, isOwn: bool)
    requires 0 <= j < 8 && FlaggedBefore(nbrs, own, dup, j, count, isOwn) && dup[j] == 1
    ensures FlaggedBefore(nbrs, own, dup, j + 1, count, isOwn)
  {
    forall t | 0 <= t < 8
      ensures Position(nbrs, nbrs[t]) != j
    {
      PositionSame(nbrs, t, j);
    }
  }

  /** Entries with the same first occurrence hold the same value. */
  lemma PositionSame(s: seq<int>, t: int, j: int)
    requires 0 <= t < |s| && 0 <= j < |s|
    ensures Position(s, s[t]) == j ==> Position(s, s[j]) == j
  {
  }

  /** Once every entry is examined the count is Repeats and the own flag says whether the id repeats. */
  lemma FlaggedAll(nbrs: seq<int>, own: int, dup: seq<int>, count: int, isOwn: bool)
    requires FlaggedBefore(nbrs, own, dup, 8, count, isOwn)
    ensures count == Repeats(nbrs) && (isOwn <==> Repeated(nbrs, own))
  {
    OnesAreRepeats(nbrs, dup, 8);
    assert dup[..8] == dup && nbrs[..8] == nbrs;
    if isOwn {
      var t :| 0 <= t < 8 && dup[t] == 1 && nbrs[t] == own;
      assert nbrs[Position(nbrs, own)] == own;
    }
    if Repeated(nbrs, own) {
      var p, q :| 0 <= p < q < 8 && nbrs[p] == own && nbrs[q] == own;
      assert Position(nbrs, nbrs[q]) <= p;
      assert dup[q] == 1;
    }
  }

  /** With pairwise different entries there is no repeat, so the count is the list length. */
  lemma {:induction false} NoRepeats(s: seq<int>, own: int)
    requires forall p, q :: 0 <= p < q < |s| ==> s[p] != s[q]
    ensures Repeats(s) == 0 && DistinctCount(s, own) == |s|
  {
    if |s| > 0 {
      NoRepeats(s[..|s| - 1], own);
      assert s[|s| - 1] !in s[..|s| - 1];
    }
  }

  /** A lone BoidCPU is all eight of its own neighbours, so it waits for no one. */
  lemma LoneBoidCpu(own: int)
    ensures DistinctCount(Repeat(own, 8), own) == 0
  {
    var s := Repeat(own, 8);
    assert Repeated(s, own) by {
      assert s[0] == own && s[1] == own;
    }
    assert Repeats(s) == 7 by {
      forall m | 1 <= m <= 8
        ensures Repeats(s[..m]) == m - 1
      {
        RepeatsOfRepeat(own, m);
      }
      assert s[..8] == s;
    }
  }

  lemma {:induction false} RepeatsOfRepeat(v: int, m: nat)
    requires 1 <= m <= 8
    ensures Repeats(Repeat(v, 8)[..m]) == m - 1
  {
    var s := Repeat(v, 8)[..m];
    if m > 1 {
      RepeatsOfRepeat(v, m - 1);
      assert s[..m - 1] == Repeat(v, 8)[..m - 1];
      assert s[m - 1] == s[..m - 1][0];
    } else {
      assert s[..0] == [];
    }
  }

  // ---------------------------------------------------------------------
  // The phase machine.

  /** The command that switches every core to a new mode: a broadcast with an empty body. */
  function Broadcast(mode: int): seq<int>
  {
    Command(0, CMD_BROADCAST, CONTROLLER_ID, mode, [])
  }

  /** The phase a completed round of ACKs moves to, in the build without load balancing. */
  function NextPhase(s: int): Option<int>
  {
    if s == CMD_SIM_SETUP then Some(MODE_CALC_NBRS)
    else if s == MODE_CALC_NBRS then Some(MODE_POS_BOIDS)
    else if s == MODE_POS_BOIDS then Some(MODE_TRAN_BOIDS)
    else if s == MODE_TRAN_BOIDS then Some(MODE_DRAW)
    else None
  }

  /** The master's state and its uint8 ACK counter. */
  datatype Phase = Phase(state: int, acks: int)

  /**
   * processAck: an ACK from the BoidGPU restarts the cycle at the
   * neighbour phase, any other ACK is counted; when the count reaches the
   * number of gatekeepers the phase advances and the count restarts.
   */
  function AckStep(p: Phase, gatekeepers: int, from: int): (r: (Phase, seq<seq<int>>))
  {
    var q := if from == BOIDGPU_ID then Phase(MODE_CALC_NBRS, 0) else Phase(p.state, U8(p.acks + 1));
    var sent := if from == BOIDGPU_ID then [Broadcast(MODE_CALC_NBRS)] else [];
    if q.acks != gatekeepers then (q, sent)
    else match NextPhase(q.state)
      case Some(next) => (Phase(next, 0), sent + [Broadcast(next)])
      case None => (Phase(q.state, 0), sent)
  }

  /** Several ACKs in a row and everything they broadcast. */
  function AckRun(p: Phase, gatekeepers: int, froms: seq<int>): (r: (Phase, seq<seq<int>>))
  {
    if |froms| == 0 then (p, [])
    else
      var prev := AckRun(p, gatekeepers, froms[..|froms| - 1]);
      var last := AckStep(prev.0, gatekeepers, froms[|froms| - 1]);
      (last.0, prev.1 + last.1)
  }

  /**
   * One round: with g gatekeepers, the first g - 1 gatekeeper ACKs only
   * count, and the g-th moves to the next phase, broadcasts it and clears
   * the count.
   */
  lemma {:induction false} AckRound(s: int, g: int, froms: seq<int>)
    requires 1 <= g < TWO8 && |froms| <= g
    requires forall k :: 0 <= k < |froms| ==> froms[k] != BOIDGPU_ID
    ensures |froms| < g ==> AckRun(Phase(s, 0), g, froms) == (Phase(s, |froms|), [])
    ensures |froms| == g && NextPhase(s).Some? ==>
      AckRun(Phase(s, 0), g, froms) == (Phase(NextPhase(s).value, 0), [Broadcast(NextPhase(s).value)])
    ensures |froms| == g && NextPhase(s).None? ==> AckRun(Phase(s, 0), g, froms) == (Phase(s, 0), [])
  {
    if |froms| > 0 {
      var m := |froms|;
      AckRound(s, g, froms[..m - 1]);
      var prev := AckRun(Phase(s, 0), g, froms[..m - 1]);
      assert prev == (Phase(s, m - 1), []);
      assert U8(m - 1 + 1) == m;
      var last := AckStep(prev.0, g, froms[m - 1]);
      assert AckRun(Phase(s, 0), g, froms) == (last.0, prev.1 + last.1);
      assert [] + last.1 == last.1;
      if m < g {
        assert last == (Phase(s, m), []);
      } else if NextPhase(s).Some? {
        var sent: seq<seq<int>> := [];
        assert sent + [Broadcast(NextPhase(s).value)] == [Broadcast(NextPhase(s).value)];
        assert last == (Phase(NextPhase(s).value, 0), [Broadcast(NextPhase(s).value)]);
      } else {
        assert last == (Phase(s, 0), []);
      }
    }
  }

  lemma {:induction false} AckRunAppend(p: Phase, g: int, a: seq<int>, b: seq<int>)
    ensures AckRun(p, g, a + b) == (AckRun(AckRun(p, g, a).0, g, b).0, AckRun(p, g, a).1 + AckRun(AckRun(p, g, a).0, g, b).1)
    decreases |b|
  {
    if |b| == 0 {
      assert a + b == a;
      assert AckRun(p, g, a).1 + [] == AckRun(p, g, a).1;
    } else {
      assert (a + b)[..|a + b| - 1] == a + b[..|b| - 1];
      assert (a + b)[|a + b| - 1] == b[|b| - 1];
      AckRunAppend(p, g, a, b[..|b| - 1]);
      var first := AckRun(p, g, a);
      var pre := AckRun(first.0, g, b[..|b| - 1]);
      var step := AckStep(pre.0, g, b[|b| - 1]);
      assert AckRun(first.0, g, b) == (step.0, pre.1 + step.1);
      assert AckRun(p, g, a + b) == (step.0, (first.1 + pre.1) + step.1);
      assert (first.1 + pre.1) + step.1 == first.1 + (pre.1 + step.1);
    }
  }

  /**
   * A frame: from the neighbour phase, three rounds of gatekeeper ACKs
   * broadcast the position, transfer and draw modes in that order.
   */
  lemma Frame(g: int, a: seq<int>, b: seq<int>, c: seq<int>)
    requires 1 <= g < TWO8 && |a| == g && |b| == g && |c| == g
    requires forall k :: 0 <= k < g ==> a[k] != BOIDGPU_ID && b[k] != BOIDGPU_ID && c[k] != BOIDGPU_ID
    ensures AckRun(Phase(MODE_CALC_NBRS, 0), g, a + b + c) ==
      (Phase(MODE_DRAW, 0), [Broadcast(MODE_POS_BOIDS), Broadcast(MODE_TRAN_BOIDS), Broadcast(MODE_DRAW)])
  {
    AckRound(MODE_CALC_NBRS, g, a);
    AckRound(MODE_POS_BOIDS, g, b);
    AckRound(MODE_TRAN_BOIDS, g, c);
    assert NextPhase(MODE_CALC_NBRS) == Some(MODE_POS_BOIDS);
    assert NextPhase(MODE_POS_BOIDS) == Some(MODE_TRAN_BOIDS);
    assert NextPhase(MODE_TRAN_BOIDS) == Some(MODE_DRAW);
    assert AckRun(Phase(MODE_CALC_NBRS, 0), g, a) == (Phase(MODE_POS_BOIDS, 0), [Broadcast(MODE_POS_BOIDS)]);
    assert AckRun(Phase(MODE_POS_BOIDS, 0), g, b) == (Phase(MODE_TRAN_BOIDS, 0), [Broadcast(MODE_TRAN_BOIDS)]);
    assert AckRun(Phase(MODE_TRAN_BOIDS, 0), g, c) == (Phase(MODE_DRAW, 0), [Broadcast(MODE_DRAW)]);
    AckRunAppend(Phase(MODE_CALC_NBRS, 0), g, a, b);
    assert [Broadcast(MODE_POS_BOIDS)] + [Broadcast(MODE_TRAN_BOIDS)] == [Broadcast(MODE_POS_BOIDS), Broadcast(MODE_TRAN_BOIDS)];
    assert [Broadcast(MODE_POS_BOIDS), Broadcast(MODE_TRAN_BOIDS)] + [Broadcast(MODE_DRAW)] ==
      [Broadcast(MODE_POS_BOIDS), Broadcast(MODE_TRAN_BOIDS), Broadcast(MODE_DRAW)];
    assert AckRun(Phase(MODE_CALC_NBRS, 0), g, a + b) == (Phase(MODE_TRAN_BOIDS, 0), [Broadcast(MODE_POS_BOIDS), Broadcast(MODE_TRAN_BOIDS)]);
    AckRunAppend(Phase(MODE_CALC_NBRS, 0), g, a + b, c);
  }

  /** The BoidGPU's ACK closes the draw phase and starts the next frame, whatever the count. */
  lemma GpuAckStartsFrame(p: Phase, g: int)
    requires g != 0
    ensures AckStep(p, g, BOIDGPU_ID) == (Phase(MODE_CALC_NBRS, 0), [Broadcast(MODE_CALC_NBRS)])
  {
  }

  // ---------------------------------------------------------------------
  // The naive load balancer (the LOAD_BALANCING_ENABLED build).

  /**
   * The north-edge change of the BoidCPU in `row` when the one in row y is
   * overloaded: its own north edge moves down one step unless it is on the
   * top row, and the row below follows with its north edge moving up.
   */
  function NorthChange(row: int, y: int, rows: int): int
  {
    if row == y && y != 0 then 1 else if row == y + 1 && y != rows - 1 then -1 else 0
  }

  /** The south-edge change: the row above follows the overloaded north edge, the own south edge moves up. */
  function SouthChange(row: int, y: int, rows: int): int
  {
    if row == y - 1 && y != 0 then 1 else if row == y && y != rows - 1 then -1 else 0
  }

  /** The east-edge change: the column to the left follows the overloaded west edge, the own east edge moves in. */
  function EastChange(col: int, x: int, cols: int): int
  {
    if col == x - 1 && x != 0 then 1 else if col == x && x != cols - 1 then -1 else 0
  }

  /** The west-edge change: the column to the right follows the overloaded east edge, the own west edge moves in. */
  function WestChange(col: int, x: int, cols: int): int
  {
    if col == x + 1 && x != cols - 1 then -1 else if col == x && x != 0 then 1 else 0
  }

  /**
   * The 16-bit change pattern for the BoidCPU at (col, row). The source
   * ORs masked 4-bit patterns into it; the four fields never overlap, so
   * the OR is EdgePattern.
   */
  function LoadPattern(col: int, row: int, x: int, y: int, cols: int, rows: int): int
  {
    EdgePattern(NorthChange(row, y, rows), EastChange(col, x, cols), SouthChange(row, y, rows), WestChange(col, x, cols))
  }

  /** The change word as it is sent: the 16-bit value widened to 32 bits with its sign. */
  function LoadWord(col: int, row: int, x: int, y: int, cols: int, rows: int): int
  {
    U32(I16(LoadPattern(col, row, x, y, cols, rows)))
  }

  /**
   * What a BoidCPU's loadBalance reads from the word: the four changes; for
   * the overloaded BoidCPU itself, every edge that is not on the border of
   * the area moves inwards by one step.
   */
  lemma LoadWordDecodes(col: int, row: int, x: int, y: int, cols: int, rows: int)
    ensures Field(LoadWord(col, row, x, y, cols, rows), NORTH_IDX) == NorthChange(row, y, rows)
    ensures Field(LoadWord(col, row, x, y, cols, rows), EAST_IDX) == EastChange(col, x, cols)
    ensures Field(LoadWord(col, row, x, y, cols, rows), SOUTH_IDX) == SouthChange(row, y, rows)
    ensures Field(LoadWord(col, row, x, y, cols, rows), WEST_IDX) == WestChange(col, x, cols)
    ensures col == x && row == y ==>
      NorthChange(row, y, rows) == (if y != 0 then 1 else 0) && EastChange(col, x, cols) == (if x != cols - 1 then -1 else 0) &&
      SouthChange(row, y, rows) == (if y != rows - 1 then -1 else 0) && WestChange(col, x, cols) == (if x != 0 then 1 else 0)
  {
    EdgeWordRoundTrip(NorthChange(row, y, rows), EastChange(col, x, cols), SouthChange(row, y, rows), WestChange(col, x, cols));
  }

  /** A command goes out exactly when some edge of that BoidCPU changes. */
  lemma LoadPatternZero(col: int, row: int, x: int, y: int, cols: int, rows: int)
    ensures LoadPattern(col, row, x, y, cols, rows) == 0 <==>
      NorthChange(row, y, rows) == 0 && EastChange(col, x, cols) == 0 &&
      SouthChange(row, y, rows) == 0 && WestChange(col, x, cols) == 0
  {
    var n, e, s, w := NorthChange(row, y, rows), EastChange(col, x, cols), SouthChange(row, y, rows), WestChange(col, x, cols);
    assert 0 <= n % 16 && 0 <= e % 16 && 0 <= s % 16 && 0 <= w % 16;
    assert n % 16 == 0 <==> n == 0;
    assert e % 16 == 0 <==> e == 0;
    assert s % 16 == 0 <==> s == 0;
    assert w % 16 == 0 <==> w == 0;
  }

  /**
   * The changes keep the BoidCPUs joined: whatever the rows, a column's
   * east edge and the next column's west edge get the same new value.
   */
  lemma ColumnsStayJoined(col: int, row1: int, row2: int, x: int, y: int, cols: int, rows: int, vr: int,
                          c1: seq<int>, c2: seq<int>)
    requires 0 <= col < cols - 1 && |c1| == 4 && |c2| == 4 && c1[X_MAX] == c2[X_MIN]
    ensures FpgaBoidCpu.Rebounded(c1, LoadWord(col, row1, x, y, cols, rows), vr)[X_MAX] ==
            FpgaBoidCpu.Rebounded(c2, LoadWord(col + 1, row2, x, y, cols, rows), vr)[X_MIN]
  {
    EastMeetsWest(col, row1, row2, x, y, cols, rows);
    EastWestMoveAlike(c1, LoadWord(col, row1, x, y, cols, rows), c2, LoadWord(col + 1, row2, x, y, cols, rows), vr);
  }

  /** A column's east change and the next column's west change agree, whatever the rows. */
  lemma EastMeetsWest(col: int, row1: int, row2: int, x: int, y: int, cols: int, rows: int)
    ensures Field(LoadWord(col, row1, x, y, cols, rows), EAST_IDX) == Field(LoadWord(col + 1, row2, x, y, cols, rows), WEST_IDX)
  {
    LoadWordDecodes(col, row1, x, y, cols, rows);
    LoadWordDecodes(col + 1, row2, x, y, cols, rows);
  }

  /** A row's south change and the next row's north change agree, whatever the columns. */
  lemma SouthMeetsNorth(row: int, col1: int, col2: int, x: int, y: int, cols: int, rows: int)
    ensures Field(LoadWord(col1, row, x, y, cols, rows), SOUTH_IDX) == Field(LoadWord(col2, row + 1, x, y, cols, rows), NORTH_IDX)
  {
    LoadWordDecodes(col1, row, x, y, cols, rows);
    LoadWordDecodes(col2, row + 1, x, y, cols, rows);
  }

  /** An east edge and a west edge that start equal and get the same change end equal. */
  lemma EastWestMoveAlike(c1: seq<int>, w1: int, c2: seq<int>, w2: int, vr: int)
    requires |c1| == 4 && |c2| == 4 && c1[X_MAX] == c2[X_MIN] && Field(w1, EAST_IDX) == Field(w2, WEST_IDX)
    ensures FpgaBoidCpu.Rebounded(c1, w1, vr)[X_MAX] == FpgaBoidCpu.Rebounded(c2, w2, vr)[X_MIN]
  {
    var moved := c1[X_MAX] + vr * Field(w1, EAST_IDX);
    assert FpgaBoidCpu.Rebounded(c1, w1, vr)[X_MAX] == FpgaBoidCpu.I12(moved);
    assert FpgaBoidCpu.Rebounded(c2, w2, vr)[X_MIN] == FpgaBoidCpu.I12(moved);
  }

  /** A south edge and a north edge that start equal and get the same change end equal. */
  lemma SouthNorthMoveAlike(c1: seq<int>, w1: int, c2: seq<int>, w2: int, vr: int)
    requires |c1| == 4 && |c2| == 4 && c1[Y_MAX] == c2[Y_MIN] && Field(w1, SOUTH_IDX) == Field(w2, NORTH_IDX)
    ensures FpgaBoidCpu.Rebounded(c1, w1, vr)[Y_MAX] == FpgaBoidCpu.Rebounded(c2, w2, vr)[Y_MIN]
  {
    var moved := c1[Y_MAX] + vr * Field(w1, SOUTH_IDX);
    assert FpgaBoidCpu.Rebounded(c1, w1, vr)[Y_MAX] == FpgaBoidCpu.I12(moved);
    assert FpgaBoidCpu.Rebounded(c2, w2, vr)[Y_MIN] == FpgaBoidCpu.I12(moved);
  }

  /** The left and right borders of the area do not move. */
  lemma OuterColumnsStay(row: int, x: int, y: int, cols: int, rows: int, vr: int, c: seq<int>)
    requires 0 <= x < cols && |c| == 4
    ensures FpgaBoidCpu.Rebounded(c, LoadWord(0, row, x, y, cols, rows), vr)[X_MIN] == FpgaBoidCpu.I12(c[X_MIN])
    ensures FpgaBoidCpu.Rebounded(c, LoadWord(cols - 1, row, x, y, cols, rows), vr)[X_MAX] == FpgaBoidCpu.I12(c[X_MAX])
  {
    assert FpgaBoidCpu.Rebounded(c, LoadWord(0, row, x, y, cols, rows), vr)[X_MIN] ==
           FpgaBoidCpu.I12(c[X_MIN] + vr * WestChange(0, x, cols)) by {
      LoadWordDecodes(0, row, x, y, cols, rows);
    }
    assert FpgaBoidCpu.Rebounded(c, LoadWord(cols - 1, row, x, y, cols, rows), vr)[X_MAX] ==
           FpgaBoidCpu.I12(c[X_MAX] + vr * EastChange(cols - 1, x, cols)) by {
      LoadWordDecodes(cols - 1, row, x, y, cols, rows);
    }
  }

  /** The same for rows: a row's south edge and the next row's north edge move together. */
  lemma RowsStayJoined(row: int, col1: int, col2: int, x: int, y: int, cols: int, rows: int, vr: int,
                       c1: seq<int>, c2: seq<int>)
    requires 0 <= row < rows - 1 && |c1| == 4 && |c2| == 4 && c1[Y_MAX] == c2[Y_MIN]
    ensures FpgaBoidCpu.Rebounded(c1, LoadWord(col1, row, x, y, cols, rows), vr)[Y_MAX] ==
            FpgaBoidCpu.Rebounded(c2, LoadWord(col2, row + 1, x, y, cols, rows), vr)[Y_MIN]
  {
    SouthMeetsNorth(row, col1, col2, x, y, cols, rows);
    SouthNorthMoveAlike(c1, LoadWord(col1, row, x, y, cols, rows), c2, LoadWord(col2, row + 1, x, y, cols, rows), vr);
  }

  /** The top and bottom of the area do not move. */
  lemma OuterRowsStay(col: int, x: int, y: int, cols: int, rows: int, vr: int, c: seq<int>)
    requires 0 <= y < rows && |c| == 4
    ensures FpgaBoidCpu.Rebounded(c, LoadWord(col, 0, x, y, cols, rows), vr)[Y_MIN] == FpgaBoidCpu.I12(c[Y_MIN])
    ensures FpgaBoidCpu.Rebounded(c, LoadWord(col, rows - 1, x, y, cols, rows), vr)[Y_MAX] == FpgaBoidCpu.I12(c[Y_MAX])
  {
    assert FpgaBoidCpu.Rebounded(c, LoadWord(col, 0, x, y, cols, rows), vr)[Y_MIN] ==
           FpgaBoidCpu.I12(c[Y_MIN] + vr * NorthChange(0, y, rows)) by {
      LoadWordDecodes(col, 0, x, y, cols, rows);
    }
    assert FpgaBoidCpu.Rebounded(c, LoadWord(col, rows - 1, x, y, cols, rows), vr)[Y_MAX] ==
           FpgaBoidCpu.I12(c[Y_MAX] + vr * SouthChange(rows - 1, y, rows)) by {
      LoadWordDecodes(col, rows - 1, x, y, cols, rows);
    }
  }

  /** The load-balance commands for a list of BoidCPUs, in list order, one for each whose edges change. */
  function LoadCommands(cpus: seq<CpuInfo>, x: int, y: int, cols: int, rows: int): (r: seq<seq<int>>)
    ensures |r| <= |cpus| && forall k :: 0 <= k < |r| ==> |r[k]| == CMD_HEADER_LEN + 1
  {
    if |cpus| == 0 then []
    else
      var c := cpus[|cpus| - 1];
      LoadCommands(cpus[..|cpus| - 1], x, y, cols, rows) +
      (if LoadPattern(c.x, c.y, x, y, cols, rows) != 0
       then [Command(1, c.id, CONTROLLER_ID, CMD_LOAD_BAL, [LoadWord(c.x, c.y, x, y, cols, rows)])]
       else [])
  }

  /** The commands for a single BoidCPU: one if its edges change, none otherwise. */
  lemma LoadCommandsOne(c: CpuInfo, x: int, y: int, cols: int, rows: int)
    ensures LoadCommands([c], x, y, cols, rows) ==
      if LoadPattern(c.x, c.y, x, y, cols, rows) != 0
      then [Command(1, c.id, CONTROLLER_ID, CMD_LOAD_BAL, [LoadWord(c.x, c.y, x, y, cols, rows)])]
      else []
  {
    assert [c][..0] == [];
  }

  lemma LoadCommandsSnoc(cpus: seq<CpuInfo>, i: int, x: int, y: int, cols: int, rows: int)
    requires 0 <= i < |cpus|
    ensures LoadCommands(cpus[..i + 1], x, y, cols, rows) ==
      LoadCommands(cpus[..i], x, y, cols, rows) + LoadCommands([cpus[i]], x, y, cols, rows)
  {
    assert cpus[..i + 1][..i] == cpus[..i];
    assert [cpus[i]][..0] == [];
  }

  /**
   * Only BoidCPUs in the overloaded one's row or column, or next to them,
   * are told to move an edge.
   */
  lemma {:induction false} LoadCommandsNearby(cpus: seq<CpuInfo>, x: int, y: int, cols: int, rows: int)
    ensures forall k :: 0 <= k < |LoadCommands(cpus, x, y, cols, rows)| ==>
      exists c :: c in cpus && LoadCommands(cpus, x, y, cols, rows)[k][CMD_TO] == c.id &&
        (y - 1 <= c.y <= y + 1 || x - 1 <= c.x <= x + 1)
  {
    if |cpus| > 0 {
      var c := cpus[|cpus| - 1];
      var front := cpus[..|cpus| - 1];
      LoadCommandsNearby(front, x, y, cols, rows);
      var r := LoadCommands(cpus, x, y, cols, rows);
      var r0 := LoadCommands(front, x, y, cols, rows);
      forall k | 0 <= k < |r|
        ensures exists c' :: c' in cpus && r[k][CMD_TO] == c'.id && (y - 1 <= c'.y <= y + 1 || x - 1 <= c'.x <= x + 1)
      {
        if k < |r0| {
          assert r[k] == r0[k];
          var c' :| c' in front && r0[k][CMD_TO] == c'.id && (y - 1 <= c'.y <= y + 1 || x - 1 <= c'.x <= x + 1);
          assert c' in cpus;
        } else {
          assert LoadPattern(c.x, c.y, x, y, cols, rows) != 0;
          assert r[k][CMD_TO] == c.id;
          assert c in cpus;
          LoadPatternZero(c.x, c.y, x, y, cols, rows);
        }
      }
    } else {
      assert LoadCommands(cpus, x, y, cols, rows) == [];
    }
  }

  // ---------------------------------------------------------------------
  // The master's record of the BoidCPUs.

  /** What the master keeps about one BoidCPU. */
  datatype CpuInfo = CpuInfo(id: int, gatekeeper: int, boids: int, coords: seq<int>, nbrs: seq<int>,
                             distinct: int, x: int, y: int)

  /** A BoidCPU as a ping reply creates it: its id and gatekeeper, everything else zero. */
  function Fresh(id: int, gatekeeper: int): CpuInfo
  {
    CpuInfo(id, gatekeeper, 0, Repeat(0, 4), Repeat(0, 8), 0, 0, 0)
  }

  /** The k BoidCPUs a gatekeeper reports, numbered on from the `first` already known. */
  function Joined(gatekeeper: int, first: int, k: nat): (r: seq<CpuInfo>)
    ensures |r| == k
  {
    seq(k, i requires 0 <= i < k => Fresh(FIRST_BOIDCPU_ID + first + i, gatekeeper))
  }

  /**
   * The body of the setup command for one BoidCPU, field by field at the
   * CMD_SETUP_* offsets.
   */
  function SetupBody(c: CpuInfo): (body: seq<int>)
    requires |c.coords| == 4 && |c.nbrs| == 8
    ensures |body| == SETUP_DATA_LENGTH
    ensures body[CMD_SETUP_NEWID_IDX] == c.id && body[CMD_SETUP_BDCNT_IDX] == c.boids
    ensures body[CMD_SETUP_COORD_IDX..CMD_SETUP_NBCNT_IDX] == c.coords
    ensures body[CMD_SETUP_NBCNT_IDX] == c.distinct
    ensures body[CMD_SETUP_BNBRS_IDX..CMD_SETUP_SIMWH_IDX] == c.nbrs
    ensures body[CMD_SETUP_SIMWH_IDX..] == [SIMULATION_WIDTH, SIMULATION_HEIGHT]
  {
    [c.id, c.boids] + c.coords + [c.distinct] + c.nbrs + [SIMULATION_WIDTH, SIMULATION_HEIGHT]
  }

  /** The setup command for one BoidCPU, addressed to its gatekeeper. */
  function SetupCommand(c: CpuInfo): seq<int>
    requires |c.coords| == 4 && |c.nbrs| == 8
  {
    Command(SETUP_DATA_LENGTH, c.gatekeeper, CONTROLLER_ID, CMD_SIM_SETUP, SetupBody(c))
  }

  /** One setup command per BoidCPU, in BoidCPU order. */
  function SetupCommands(cpus: seq<CpuInfo>): (r: seq<seq<int>>)
    requires forall i :: 0 <= i < |cpus| ==> |cpus[i].coords| == 4 && |cpus[i].nbrs| == 8
    ensures |r| == |cpus|
    ensures forall i :: 0 <= i < |cpus| ==> r[i] == SetupCommand(cpus[i])
  {
    if |cpus| == 0 then [] else SetupCommands(cpus[..|cpus| - 1]) + [SetupCommand(cpus[|cpus| - 1])]
  }

  /**
   * A BoidCPU placed on the grid: its grid position is the one its index
   * gives in row-major order, its bounds those of that cell, and nothing
   * else of it changed.
   */
  ghost predicate Placed(before: CpuInfo, after: CpuInfo, rows: int, cols: int, i: int)
  {
    0 < rows && 0 < cols && 0 <= after.x < cols && 0 <= after.y < rows && after.y * cols + after.x == i &&
    after.coords == CellCoords(after.y, after.x, rows, cols) &&
    after == before.(coords := after.coords, x := after.x, y := after.y)
  }

  /**
   * The change pattern processLoadData works out for one BoidCPU, given
   * which edges of the overloaded BoidCPU at (x, y) move.
   */
  method AffectedChanges(c: CpuInfo, x: int, y: int, cols: int, rows: int, north: bool, east: bool, south: bool, west: bool)
    returns (changes: int)
    ensures north == (y != 0) && east == (x != cols - 1) && south == (y != rows - 1) && west == (x != 0) ==>
      changes == LoadPattern(c.x, c.y, x, y, cols, rows)
  {
    var n, e, s, w := 0, 0, 0, 0;
    if north {
      if c.y == y - 1 { s := 1; } else if c.y == y { n := 1; }
    }
    if south {
      if c.y == y + 1 { n := -1; } else if c.y == y { s := -1; }
    }
    if east {
      if c.x == x + 1 { w := -1; } else if c.x == x { e := -1; }
    }
    if west {
      if c.x == x - 1 { e := 1; } else if c.x == x { w := 1; }
    }
    changes := EdgePattern(n, e, s, w);
  }

  /**
   * The inner coordinate loop: the BoidCPUs of row h, numbered on from
   * h * cols, get the cells of that row from left to right.
   */
  method TileRow(before: seq<CpuInfo>, cs: seq<CpuInfo>, rows: int, cols: int, h: int, start: int, height: int)
    returns (after: seq<CpuInfo>, row: seq<int>)
    requires 0 <= h < rows && 0 < cols && |cs| == |before| && start == h * cols && start + cols <= |cs|
    requires height == h * (SIMULATION_HEIGHT / rows)
    requires forall i :: 0 <= i < |before| ==> before[i].id == FIRST_BOIDCPU_ID + i
    requires forall i :: 0 <= i < start ==> Placed(before[i], cs[i], rows, cols, i)
    requires forall i :: start <= i < |cs| ==> cs[i] == before[i]
    ensures |after| == |cs|
    ensures forall i :: 0 <= i < start + cols ==> Placed(before[i], after[i], rows, cols, i)
    ensures forall i :: start + cols <= i < |after| ==> after[i] == before[i]
    ensures |row| == cols && forall c :: 0 <= c < cols ==> row[c] == FIRST_BOIDCPU_ID + start + c
  {
    var pixelWidth := SIMULATION_WIDTH / cols;
    var widthRemainder := SIMULATION_WIDTH - pixelWidth * cols;
    var pixelHeight := SIMULATION_HEIGHT / rows;
    var heightRemainder := SIMULATION_HEIGHT - pixelHeight * rows;
    var count := h * cols;
    var width := 0;
    after, row := cs, [];
    for w := 0 to cols
      invariant count == start + w && width == w * pixelWidth && |after| == |cs|
      invariant |row| == w && forall c :: 0 <= c < w ==> row[c] == FIRST_BOIDCPU_ID + start + c
      invariant forall i :: 0 <= i < count ==> Placed(before[i], after[i], rows, cols, i)
      invariant forall i :: count <= i < |after| ==> after[i] == before[i]
    {
      var xMax := if w == cols - 1 then width + pixelWidth + widthRemainder else width + pixelWidth;
      var yMax := if h == rows - 1 then height + pixelHeight + heightRemainder else height + pixelHeight;
      after := after[count := after[count].(coords := [width, height, xMax, yMax], x := w, y := h)];
      assert Placed(before[count], after[count], rows, cols, count);
      row := row + [after[count].id];
      count := count + 1;
      width := width + pixelWidth;
    }
  }

  /**
   * The overloaded BoidCPU's own change word, and which of its fields are
   * non-zero: every edge that is not on the border of the area moves.
   */
  method MovingEdges(x: int, y: int, cols: int, rows: int) returns (north: bool, east: bool, south: bool, west: bool)
    ensures north == (y != 0) && east == (x != cols - 1) && south == (y != rows - 1) && west == (x != 0)
  {
    var edgeNorth, edgeEast := if y != 0 then 1 else 0, if x != cols - 1 then -1 else 0;
    var edgeSouth, edgeWest := if y != rows - 1 then -1 else 0, if x != 0 then 1 else 0;
    var edgeChanges := EdgeWord(edgeNorth, edgeEast, edgeSouth, edgeWest);
    EdgeWordRoundTrip(edgeNorth, edgeEast, edgeSouth, edgeWest);
    north, east := Field(edgeChanges, NORTH_IDX) != 0, Field(edgeChanges, EAST_IDX) != 0;
    south, west := Field(edgeChanges, SOUTH_IDX) != 0, Field(edgeChanges, WEST_IDX) != 0;
  }

  /** The master core: the BoidCPU records, the grid they are laid out on and the phase. */
  class BoidMaster {
    var state: int
    var ackCount: int
    var gatekeeperCount: int
    var boidCount: int
    var cpus: seq<CpuInfo>
    var gridHeight: int
    var gridWidth: int
    var grid: seq<seq<int>>
    var outputs: seq<seq<int>>

    /** The BoidCPUs are numbered in order and their records have four bounds and eight neighbours. */
    ghost predicate Valid()
      reads this
    {
      |cpus| <= MAX_BOIDCPUS && IsU8(ackCount) && IsU8(gatekeeperCount) &&
      forall i :: 0 <= i < |cpus| ==> cpus[i].id == FIRST_BOIDCPU_ID + i && |cpus[i].coords| == 4 && |cpus[i].nbrs| == 8
    }

    /** After setup: every BoidCPU has its own cell of a gridHeight x gridWidth grid, in row-major order. */
    ghost predicate Laid()
      reads this
    {
      Valid() && 1 <= gridHeight && 1 <= gridWidth && Numbered(grid, gridHeight, gridWidth) &&
      |cpus| == gridHeight * gridWidth &&
      forall i :: 0 <= i < |cpus| ==>
        (0 <= cpus[i].x < gridWidth && 0 <= cpus[i].y < gridHeight && cpus[i].y * gridWidth + cpus[i].x == i &&
         cpus[i].coords == CellCoords(cpus[i].y, cpus[i].x, gridHeight, gridWidth))
    }

    ghost function Layout(): (seq<CpuInfo>, int, int, seq<seq<int>>)
      reads this
    {
      (cpus, gridHeight, gridWidth, grid)
    }

    ghost function Counters(): (int, int, int, int)
      reads this
    {
      (state, ackCount, gatekeeperCount, boidCount)
    }

    constructor ()
      ensures Valid() && state == CMD_PING && ackCount == 0 && gatekeeperCount == 0 && boidCount == 100
      ensures cpus == [] && gridHeight == 0 && gridWidth == 0 && grid == [] && outputs == []
    {
      state, ackCount, gatekeeperCount, boidCount := CMD_PING, 0, 0, 100;
      cpus, gridHeight, gridWidth, grid, outputs := [], 0, 0, [], [];
    }

    /** createCommand: appends one command; there is no check on the number of queued commands. */
    method CreateCommand(len: nat, to: int, from: int, kind: int, data: seq<int>)
      requires len <= |data|
      modifies this
      ensures outputs == old(outputs) + [Command(len, to, from, kind, data)]
      ensures Layout() == old(Layout()) && Counters() == old(Counters())
    {
      outputs := outputs + [Command(len, to, from, kind, data)];
    }

    /** issuePing and the issue*Mode functions: a broadcast with an empty body. */
    method IssueMode(mode: int)
      modifies this
      ensures outputs == old(outputs) + [Broadcast(mode)]
      ensures Layout() == old(Layout()) && Counters() == old(Counters())
    {
      CreateCommand(0, CMD_BROADCAST, CONTROLLER_ID, mode, []);
    }

    /** processPingReply: one more gatekeeper, and a fresh record for each BoidCPU it serves. */
    method ProcessPingReply(from: int, reply: int)
      requires Valid() && |cpus| + U8(reply) <= MAX_BOIDCPUS
      modifies this
      ensures Valid()
      ensures cpus == old(cpus) + Joined(from, |old(cpus)|, U8(reply))
      ensures gatekeeperCount == U8(old(gatekeeperCount) + 1)
      ensures state == old(state) && ackCount == old(ackCount) && boidCount == old(boidCount)
      ensures gridHeight == old(gridHeight) && gridWidth == old(gridWidth) && grid == old(grid) && outputs == old(outputs)
    {
      var n := U8(reply);
      gatekeeperCount := U8(gatekeeperCount + 1);
      var cs := cpus;
      for i := 0 to n
        modifies {}
        invariant cs == cpus + Joined(from, |cpus|, i)
      {
        assert Joined(from, |cpus|, i + 1) == Joined(from, |cpus|, i) + [Fresh(FIRST_BOIDCPU_ID + |cs|, from)];
        cs := cs + [Fresh(FIRST_BOIDCPU_ID + |cs|, from)];
      }
      forall i | |cpus| <= i < |cs|
        ensures cs[i].id == FIRST_BOIDCPU_ID + i && |cs[i].coords| == 4 && |cs[i].nbrs| == 8
      {
        assert cs[i] == Joined(from, |cpus|, n)[i - |cpus|];
        assert cs[i] == Fresh(FIRST_BOIDCPU_ID + |cpus| + (i - |cpus|), from);
      }
      cpus := cs;
    }

    /** processUserData: the requested flock size, then the setup. */
    method ProcessUserData(word: int)
      requires Valid() && 1 <= |cpus|
      modifies this
      ensures Laid() && |cpus| == |old(cpus)| && boidCount == word && state == CMD_SIM_SETUP
      ensures ackCount == old(ackCount) && gatekeeperCount == old(gatekeeperCount)
      ensures outputs == old(outputs) + SetupCommands(cpus)
    {
      boidCount := word;
      state := CMD_SIM_SETUP;
      SetupSimulation();
    }

    /**
     * setupSimulation: split the flock, choose the grid, give every
     * BoidCPU its cell and its toroidal neighbours, count the distinct
     * ones and send each BoidCPU its setup through its gatekeeper.
     */
    method SetupSimulation()
      requires Valid() && 1 <= |cpus|
      modifies this
      ensures Laid() && |cpus| == |old(cpus)|
      ensures FactorPair(|cpus|, gridHeight, gridWidth)
      ensures forall h, w :: FactorPair(|cpus|, h, w) ==> gridWidth - gridHeight <= w - h
      ensures forall i :: 0 <= i < |cpus| ==>
        cpus[i].gatekeeper == old(cpus[i]).gatekeeper && cpus[i].boids == Shares(boidCount, |cpus|)[i]
      ensures forall i, d :: 0 <= i < |cpus| && 0 <= d < 8 ==>
        cpus[i].nbrs[d] == FIRST_BOIDCPU_ID + Topology.TorusNeighbour(gridHeight, gridWidth, cpus[i].y, cpus[i].x, d)
      ensures forall i :: 0 <= i < |cpus| ==> cpus[i].distinct == DistinctCount(cpus[i].nbrs, cpus[i].id)
      ensures outputs == old(outputs) + SetupCommands(cpus)
      ensures Counters() == old(Counters())
    {
      Arrange();
      Connect();
      IssueSetupInformation();
    }

    /** The first half of setupSimulation: the boid shares, the grid shape and every BoidCPU's cell. */
    method Arrange()
      requires Valid() && 1 <= |cpus|
      modifies this
      ensures Laid() && |cpus| == |old(cpus)|
      ensures FactorPair(|cpus|, gridHeight, gridWidth)
      ensures forall h, w :: FactorPair(|cpus|, h, w) ==> gridWidth - gridHeight <= w - h
      ensures forall i :: 0 <= i < |cpus| ==>
        cpus[i].gatekeeper == old(cpus[i]).gatekeeper && cpus[i].boids == Shares(boidCount, |cpus|)[i]
      ensures Counters() == old(Counters()) && outputs == old(outputs)
    {
      ghost var shares := Shares(boidCount, |cpus|);
      AssignShares();
      ghost var c1 := cpus;
      assert forall i :: 0 <= i < |c1| ==> c1[i].gatekeeper == old(cpus[i]).gatekeeper && c1[i].boids == shares[i];
      var h, w := ClosestMultiples(|cpus|);
      gridHeight, gridWidth := h, w;
      TileGrid();
      assert forall i :: 0 <= i < |cpus| ==> cpus[i].gatekeeper == c1[i].gatekeeper && cpus[i].boids == c1[i].boids;
    }

    /** The second half of setupSimulation: every BoidCPU's neighbours and how many of them are distinct. */
    method Connect()
      requires Laid()
      modifies this
      ensures Laid() && |cpus| == |old(cpus)| && gridHeight == old(gridHeight) && gridWidth == old(gridWidth)
      ensures forall i :: 0 <= i < |cpus| ==>
        cpus[i].gatekeeper == old(cpus[i]).gatekeeper && cpus[i].boids == old(cpus[i]).boids
      ensures forall i, d :: 0 <= i < |cpus| && 0 <= d < 8 ==>
        cpus[i].nbrs[d] == FIRST_BOIDCPU_ID + Topology.TorusNeighbour(gridHeight, gridWidth, cpus[i].y, cpus[i].x, d)
      ensures forall i :: 0 <= i < |cpus| ==> cpus[i].distinct == DistinctCount(cpus[i].nbrs, cpus[i].id)
      ensures Counters() == old(Counters()) && outputs == old(outputs)
    {
      LinkNeighbours();
      ghost var c3 := cpus;
      CountDistinctNeighbours();
      assert forall i :: 0 <= i < |cpus| ==>
        cpus[i].gatekeeper == c3[i].gatekeeper && cpus[i].boids == c3[i].boids && cpus[i].nbrs == c3[i].nbrs &&
        cpus[i].x == c3[i].x && cpus[i].y == c3[i].y;
    }

    /** The initial boid counts: an equal share each, the last BoidCPU also taking the remainder. */
    method AssignShares()
      requires Valid() && 1 <= |cpus|
      modifies this
      ensures Valid() && |cpus| == |old(cpus)|
      ensures forall i :: 0 <= i < |cpus| ==> cpus[i] == old(cpus[i]).(boids := Shares(boidCount, |cpus|)[i])
      ensures gridHeight == old(gridHeight) && gridWidth == old(gridWidth) && grid == old(grid)
      ensures Counters() == old(Counters()) && outputs == old(outputs)
    {
      var n := |cpus|;
      var per := U12(boidCount / n);
      var remaining := U12(U32(boidCount - per * n));
      var cs := cpus;
      ghost var shares := Shares(boidCount, n);
      assert forall k :: 0 <= k < n ==> shares[k] == if k == n - 1 then U8(per + remaining) else U8(per);
      for i := 0 to n
        modifies {}
        invariant |cs| == n
        invariant forall k :: 0 <= k < i ==> cs[k] == cpus[k].(boids := shares[k])
        invariant forall k :: i <= k < n ==> cs[k] == cpus[k]
      {
        if i == n - 1 {
          cs := cs[i := cs[i].(boids := U8(per + remaining))];
        } else {
          cs := cs[i := cs[i].(boids := U8(per))];
        }
      }
      cpus := cs;
    }

    /**
     * The coordinate loops: row by row and column by column, each BoidCPU
     * gets the next cell, the last row and column also take the division
     * remainders, and the grid records which BoidCPU is where.
     */
    method TileGrid()
      requires Valid() && FactorPair(|cpus|, gridHeight, gridWidth)
      modifies this
      ensures Laid() && |cpus| == |old(cpus)|
      ensures forall i :: 0 <= i < |cpus| ==> Placed(old(cpus[i]), cpus[i], gridHeight, gridWidth, i)
      ensures gridHeight == old(gridHeight) && gridWidth == old(gridWidth)
      ensures Counters() == old(Counters()) && outputs == old(outputs)
    {
      var rows, cols := gridHeight, gridWidth;
      var pixelHeight := SIMULATION_HEIGHT / rows;
      var cs := cpus;
      var g: seq<seq<int>> := [];
      var height := 0;
      for h := 0 to rows
        modifies {}
        invariant height == h * pixelHeight && |cs| == |cpus| && h * cols <= |cs|
        invariant |g| == h && forall r :: 0 <= r < h ==> |g[r]| == cols
        invariant forall r, c :: 0 <= r < h && 0 <= c < cols ==> g[r][c] == FIRST_BOIDCPU_ID + r * cols + c
        invariant forall i :: 0 <= i < h * cols ==> Placed(cpus[i], cs[i], rows, cols, i)
        invariant forall i :: h * cols <= i < |cs| ==> cs[i] == cpus[i]
      {
        var row;
        Topology.MulLe(h + 1, rows, cols);
        cs, row := TileRow(cpus, cs, rows, cols, h, h * cols, height);
        assert (h + 1) * cols == h * cols + cols;
        g := g + [row];
        height := height + pixelHeight;
      }
      forall i | 0 <= i < |cs|
        ensures cs[i].id == FIRST_BOIDCPU_ID + i && |cs[i].coords| == 4 && |cs[i].nbrs| == 8
        ensures 0 <= cs[i].x < cols && 0 <= cs[i].y < rows && cs[i].y * cols + cs[i].x == i
        ensures cs[i].coords == CellCoords(cs[i].y, cs[i].x, rows, cols)
      {
        assert Placed(cpus[i], cs[i], rows, cols, i);
      }
      cpus, grid := cs, g;
    }

    /** The neighbour loop: the eight cells around each BoidCPU on the torus, read from the grid. */
    method LinkNeighbours()
      requires Laid()
      modifies this
      ensures Laid() && |cpus| == |old(cpus)|
      ensures forall i :: 0 <= i < |cpus| ==>
        cpus[i] == old(cpus[i]).(nbrs := cpus[i].nbrs) && cpus[i].nbrs == Around(grid, gridHeight, gridWidth, cpus[i].x, cpus[i].y)
      ensures forall i, d :: 0 <= i < |cpus| && 0 <= d < 8 ==>
        cpus[i].nbrs[d] == FIRST_BOIDCPU_ID + Topology.TorusNeighbour(gridHeight, gridWidth, cpus[i].y, cpus[i].x, d)
      ensures gridHeight == old(gridHeight) && gridWidth == old(gridWidth) && grid == old(grid)
      ensures Counters() == old(Counters()) && outputs == old(outputs)
    {
      var cs := cpus;
      for i := 0 to |cpus|
        modifies {}
        invariant |cs| == |cpus|
        invariant forall k :: 0 <= k < i ==> cs[k] == cpus[k].(nbrs := Around(grid, gridHeight, gridWidth, cpus[k].x, cpus[k].y))
        invariant forall k :: i <= k < |cs| ==> cs[k] == cpus[k]
      {
        var nb := NeighbourIds(grid, gridHeight, gridWidth, cs[i].x, cs[i].y);
        cs := cs[i := cs[i].(nbrs := nb)];
      }
      cpus := cs;
      forall i | 0 <= i < |cpus|
        ensures forall d :: 0 <= d < 8 ==>
          cpus[i].nbrs[d] == FIRST_BOIDCPU_ID + Topology.TorusNeighbour(gridHeight, gridWidth, cpus[i].y, cpus[i].x, d)
      {
        AroundIsTorus(grid, gridHeight, gridWidth, cpus[i].x, cpus[i].y);
      }
    }

    /** The distinct-neighbour loop, one BoidCPU at a time. */
    method CountDistinctNeighbours()
      requires Laid()
      modifies this
      ensures Laid() && |cpus| == |old(cpus)|
      ensures forall i :: 0 <= i < |cpus| ==>
        cpus[i] == old(cpus[i]).(distinct := DistinctCount(old(cpus[i]).nbrs, old(cpus[i]).id))
      ensures gridHeight == old(gridHeight) && gridWidth == old(gridWidth) && grid == old(grid)
      ensures Counters() == old(Counters()) && outputs == old(outputs)
    {
      var cs := cpus;
      for i := 0 to |cpus|
        modifies {}
        invariant |cs| == |cpus|
        invariant forall k :: 0 <= k < i ==> cs[k] == cpus[k].(distinct := DistinctCount(cpus[k].nbrs, cpus[k].id))
        invariant forall k :: i <= k < |cs| ==> cs[k] == cpus[k]
      {
        var count := DistinctNeighbourCount(cs[i].nbrs, cs[i].id);
        cs := cs[i := cs[i].(distinct := count)];
      }
      cpus := cs;
    }

    /** issueSetupInformation: one setup command per BoidCPU, to the gatekeeper that serves it. */
    method IssueSetupInformation()
      requires Valid()
      modifies this
      ensures Layout() == old(Layout()) && Counters() == old(Counters())
      ensures outputs == old(outputs) + SetupCommands(cpus)
    {
      for i := 0 to |cpus|
        invariant Layout() == old(Layout()) && Counters() == old(Counters())
        invariant outputs == old(outputs) + SetupCommands(cpus[..i])
      {
        assert cpus[..i + 1][..i] == cpus[..i];
        CreateCommand(SETUP_DATA_LENGTH, cpus[i].gatekeeper, CONTROLLER_ID, CMD_SIM_SETUP, SetupBody(cpus[i]));
      }
      assert cpus[..|cpus|] == cpus;
    }

    /** processAck, in the build without load balancing. */
    method ProcessAck(from: int)
      requires Valid()
      modifies this
      ensures Valid() && Layout() == old(Layout())
      ensures boidCount == old(boidCount) && gatekeeperCount == old(gatekeeperCount)
      ensures var r := AckStep(Phase(old(state), old(ackCount)), gatekeeperCount, from);
        state == r.0.state && ackCount == r.0.acks && outputs == old(outputs) + r.1
    {
      if from == BOIDGPU_ID {
        state := MODE_CALC_NBRS;
        IssueMode(MODE_CALC_NBRS);
        ackCount := 0;
      } else {
        ackCount := U8(ackCount + 1);
      }
      if ackCount == gatekeeperCount {
        if state == CMD_SIM_SETUP {
          state := MODE_CALC_NBRS;
          IssueMode(MODE_CALC_NBRS);
        } else if state == MODE_CALC_NBRS {
          state := MODE_POS_BOIDS;
          IssueMode(MODE_POS_BOIDS);
        } else if state == MODE_POS_BOIDS {
          state := MODE_TRAN_BOIDS;
          IssueMode(MODE_TRAN_BOIDS);
        } else if state == MODE_TRAN_BOIDS {
          state := MODE_DRAW;
          IssueMode(MODE_DRAW);
        }
        ackCount := 0;
      }
    }

    /**
     * processLoadData: from the overloaded BoidCPU's grid position, work
     * out which of its edges can move, then send every BoidCPU whose edges
     * change a CMD_LOAD_BAL command with its change word.
     */
    method ProcessLoadData(from: int)
      requires FIRST_BOIDCPU_ID <= from < FIRST_BOIDCPU_ID + |cpus|
      modifies this
      ensures Layout() == old(Layout()) && Counters() == old(Counters())
      ensures outputs == old(outputs) +
        LoadCommands(cpus, cpus[from - FIRST_BOIDCPU_ID].x, cpus[from - FIRST_BOIDCPU_ID].y, gridWidth, gridHeight)
    {
      var cs, cols, rows := cpus, gridWidth, gridHeight;
      var x, y := cs[from - FIRST_BOIDCPU_ID].x, cs[from - FIRST_BOIDCPU_ID].y;
      var north, east, south, west := MovingEdges(x, y, cols, rows);
      assert LoadCommands(cs[..0], x, y, cols, rows) == [];
      AppendNone(outputs);
      for i := 0 to |cs|
        invariant Layout() == old(Layout()) && Counters() == old(Counters())
        invariant outputs == old(outputs) + LoadCommands(cs[..i], x, y, cols, rows)
      {
        LoadCommandsSnoc(cs, i, x, y, cols, rows);
        ghost var done := LoadCommands(cs[..i], x, y, cols, rows);
        IssueLoadChange(cs[i], x, y, cols, rows, north, east, south, west);
        AppendAssoc(old(outputs), done, LoadCommands([cs[i]], x, y, cols, rows));
      }
      WholeSlice(cs);
    }

    /** The body of processLoadData's loop: one BoidCPU's change word, sent when it is not zero. */
    method IssueLoadChange(c: CpuInfo, x: int, y: int, cols: int, rows: int, north: bool, east: bool, south: bool, west: bool)
      requires north == (y != 0) && east == (x != cols - 1) && south == (y != rows - 1) && west == (x != 0)
      modifies this
      ensures Layout() == old(Layout()) && Counters() == old(Counters())
      ensures outputs == old(outputs) + LoadCommands([c], x, y, cols, rows)
    {
      var changes := AffectedChanges(c, x, y, cols, rows, north, east, south, west);
      LoadCommandsOne(c, x, y, cols, rows);
      if changes != 0 {
        var data := [U32(I16(changes))];
        assert data == [LoadWord(c.x, c.y, x, y, cols, rows)];
        CreateCommand(1, c.id, CONTROLLER_ID, CMD_LOAD_BAL, data);
      } else {
        AppendNone(outputs);
      }
    }
  }
}
