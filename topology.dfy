// Neighbourhood of a partition in a grid of partitions: the reference
// definitions (toroidal and bounded row-major grids) and the two literal 3x3
// tables of the Python simulations, proved equal to them.
module Topology {
  import opened Common

  /**
   * One step along an axis of `size` cells that wraps around at both ends,
   * the `(x == 0) ? W-1 : x-1` / `(x == W-1) ? 0 : x+1` rule of the FPGA master.
   */
  function WrapStep(x: int, delta: int, size: int): (r: int)
    requires 0 <= x < size && -1 <= delta <= 1
    ensures 0 <= r < size
    ensures size > 1 && delta != 0 ==> r != x
  {
    if delta == -1 then (if x == 0 then size - 1 else x - 1)
    else if delta == 1 then (if x == size - 1 then 0 else x + 1)
    else x
  }

  /** Stepping back undoes a wrapped step. */
  lemma WrapStepBack(x: int, delta: int, size: int)
    requires 0 <= x < size && -1 <= delta <= 1
    ensures WrapStep(WrapStep(x, delta, size), -delta, size) == x
  {
  }

  lemma CellInRange(row: int, col: int, rows: int, cols: int)
    requires 0 <= row < rows && 0 <= col < cols
    ensures 0 <= row * cols + col < rows * cols
  {
    assert row * cols <= (rows - 1) * cols;
  }

  /** Row-major index of the toroidal neighbour at bearing d of cell (row, col). */
  function TorusNeighbour(rows: int, cols: int, row: int, col: int, d: int): (k: int)
    requires 0 <= row < rows && 0 <= col < cols && IsBearing(d)
    ensures 0 <= k < rows * cols
  {
    CellInRange(WrapStep(row, RowStep(d), rows), WrapStep(col, ColStep(d), cols), rows, cols);
    WrapStep(row, RowStep(d), rows) * cols + WrapStep(col, ColStep(d), cols)
  }

  /** The eight toroidal neighbours of cell (row, col) as 1-based ids, NW first. */
  function TorusIds(rows: int, cols: int, row: int, col: int): (r: seq<int>)
    requires 0 <= row < rows && 0 <= col < cols
    ensures |r| == 8
  {
    seq(8, d requires 0 <= d < 8 => TorusNeighbour(rows, cols, row, col, d) + 1)
  }

  /**
   * Toroidal neighbourhood is symmetric: the cell at bearing d of a has a at
   * the opposite bearing.
   */
  lemma TorusSymmetric(rows: int, cols: int, row: int, col: int, d: int)
    requires 0 <= row < rows && 0 <= col < cols && IsBearing(d)
    ensures var r2 := WrapStep(row, RowStep(d), rows);
            var c2 := WrapStep(col, ColStep(d), cols);
            TorusNeighbour(rows, cols, r2, c2, Opposite(d)) == row * cols + col
  {
    WrapStepBack(row, RowStep(d), rows);
    WrapStepBack(col, ColStep(d), cols);
  }

  lemma MulLe(a: int, b: int, c: int)
    requires a <= b && 0 <= c
    ensures a * c <= b * c
  {
  }

  /** Row-major numbering gives distinct cells distinct indices. */
  lemma CellInjective(r1: int, c1: int, r2: int, c2: int, cols: int)
    requires 0 <= c1 < cols && 0 <= c2 < cols
    ensures r1 * cols + c1 == r2 * cols + c2 <==> r1 == r2 && c1 == c2
  {
    if r1 < r2 {
      MulLe(r1 + 1, r2, cols);
    } else if r2 < r1 {
      MulLe(r2 + 1, r1, cols);
    }
  }

  /** With at least two rows and two columns no cell is its own neighbour. */
  lemma TorusNoSelf(rows: int, cols: int, row: int, col: int, d: int)
    requires 2 <= rows && 2 <= cols
    requires 0 <= row < rows && 0 <= col < cols && IsBearing(d)
    ensures TorusNeighbour(rows, cols, row, col, d) != row * cols + col
  {
    CellInjective(WrapStep(row, RowStep(d), rows), WrapStep(col, ColStep(d), cols), row, col, cols);
  }

  /** Non-wrapping neighbour: None when the bearing leaves the grid. */
  function BoundedNeighbour(rows: int, cols: int, row: int, col: int, d: int): (r: Option<int>)
    requires 0 <= row < rows && 0 <= col < cols && IsBearing(d)
    ensures r.Some? <==> 0 <= row + RowStep(d) < rows && 0 <= col + ColStep(d) < cols
    ensures r.Some? ==> 0 <= r.value < rows * cols
  {
    var r2, c2 := row + RowStep(d), col + ColStep(d);
    if 0 <= r2 < rows && 0 <= c2 < cols then
      CellInRange(r2, c2, rows, cols);
      Some(r2 * cols + c2)
    else None
  }

  /** The bounded neighbours as 1-based ids, 0 standing for "no neighbour". */
  function BoundedIds(rows: int, cols: int, row: int, col: int): (r: seq<int>)
    requires 0 <= row < rows && 0 <= col < cols
    ensures |r| == 8
    ensures forall d :: 0 <= d < 8 ==> 0 <= r[d] <= rows * cols
  {
    seq(8, d requires 0 <= d < 8 =>
      match BoundedNeighbour(rows, cols, row, col, d)
      case Some(k) => k + 1
      case None => 0)
  }

  function CountNonZero(s: seq<int>): nat
  {
    if |s| == 0 then 0 else (if s[0] != 0 then 1 else 0) + CountNonZero(s[1..])
  }

  // ---------------------------------------------------------------------
  // The literal tables of the two Python simulations (nine partitions).

  /**
   * get_neighbouring_boidcpus: the hard-coded wrap-around table. Any other id
   * reaches the return with the list unbound, which raises; that is None here.
   */
  function BoidCpuNeighbours(id: int): (r: Option<seq<int>>)
    ensures r.Some? <==> 1 <= id <= 9
    ensures r.Some? ==> |r.value| == 8
  {
    if id == 1 then Some([9, 7, 8, 2, 5, 4, 6, 3])
    else if id == 2 then Some([7, 8, 9, 3, 6, 5, 4, 1])
    else if id == 3 then Some([8, 9, 7, 1, 4, 6, 5, 2])
    else if id == 4 then Some([3, 1, 2, 5, 8, 7, 9, 6])
    else if id == 5 then Some([1, 2, 3, 6, 9, 8, 7, 4])
    else if id == 6 then Some([2, 3, 1, 4, 7, 9, 8, 5])
    else if id == 7 then Some([6, 4, 5, 8, 2, 1, 3, 9])
    else if id == 8 then Some([4, 5, 6, 9, 3, 2, 1, 7])
    else if id == 9 then Some([5, 6, 4, 7, 1, 3, 2, 8])
    else None
  }

  /**
   * getNeighbouringLocations: the hard-coded table without wrap-around, 0
   * marking a bearing that leaves the grid. For an unknown id the source hands
   * back whatever list it stored last; that is None here.
   */
  function LocationNeighbours(id: int): (r: Option<seq<int>>)
    ensures r.Some? <==> 1 <= id <= 9
    ensures r.Some? ==> |r.value| == 8
  {
    if id == 1 then Some([0, 0, 0, 2, 5, 4, 0, 0])
    else if id == 2 then Some([0, 0, 0, 3, 6, 5, 4, 1])
    else if id == 3 then Some([0, 0, 0, 0, 0, 6, 5, 2])
    else if id == 4 then Some([0, 1, 2, 5, 8, 7, 0, 0])
    else if id == 5 then Some([1, 2, 3, 6, 9, 8, 7, 4])
    else if id == 6 then Some([2, 3, 0, 0, 0, 9, 8, 5])
    else if id == 7 then Some([0, 4, 5, 8, 0, 0, 0, 0])
    else if id == 8 then Some([4, 5, 6, 9, 0, 0, 0, 7])
    else if id == 9 then Some([5, 6, 0, 0, 0, 0, 0, 8])
    else None
  }

  /** The wrap-around table is the toroidal 3x3 grid, ids in row-major order. */
  lemma BoidCpuTableIsTorus(row: int, col: int, d: int)
    requires 0 <= row < 3 && 0 <= col < 3 && IsBearing(d)
    ensures BoidCpuNeighbours(row * 3 + col + 1).value[d] == TorusNeighbour(3, 3, row, col, d) + 1
  {
    if row == 0 { BoidCpuNorthRow(col, d); }
    else if row == 1 { BoidCpuMiddleRow(col, d); }
    else { BoidCpuSouthRow(col, d); }
  }

  lemma BoidCpuNorthRow(col: int, d: int)
    requires 0 <= col < 3 && IsBearing(d)
    ensures BoidCpuNeighbours(0 + col + 1).value[d] == TorusNeighbour(3, 3, 0, col, d) + 1
  {
    if col == 0 { }
    else if col == 1 { }
    else { }
  }

  lemma BoidCpuMiddleRow(col: int, d: int)
    requires 0 <= col < 3 && IsBearing(d)
    ensures BoidCpuNeighbours(3 + col + 1).value[d] == TorusNeighbour(3, 3, 1, col, d) + 1
  {
    if d < 4 {
      if col == 0 { } else if col == 1 { } else { }
    } else {
      if col == 0 { } else if col == 1 { } else { }
    }
  }

  lemma BoidCpuSouthRow(col: int, d: int)
    requires 0 <= col < 3 && IsBearing(d)
    ensures BoidCpuNeighbours(6 + col + 1).value[d] == TorusNeighbour(3, 3, 2, col, d) + 1
  {
    if d < 4 {
      if col == 0 { } else if col == 1 { } else { }
    } else {
      if col == 0 { } else if col == 1 { } else { }
    }
  }

  /** Every entry of the wrap-around table is another partition of the nine. */
  lemma BoidCpuTableEntries(row: int, col: int, d: int)
    requires 0 <= row < 3 && 0 <= col < 3 && IsBearing(d)
    ensures var id := row * 3 + col + 1;
            var t := BoidCpuNeighbours(id).value;
            1 <= t[d] <= 9 && t[d] != id
  {
    BoidCpuTableIsTorus(row, col, d);
    TorusNoSelf(3, 3, row, col, d);
  }

  /** The wrap-around table is symmetric. */
  lemma BoidCpuTableSymmetric(row: int, col: int, d: int)
    requires 0 <= row < 3 && 0 <= col < 3 && IsBearing(d)
    ensures var b := BoidCpuNeighbours(row * 3 + col + 1).value[d];
            1 <= b <= 9 && BoidCpuNeighbours(b).value[Opposite(d)] == row * 3 + col + 1
  {
    BoidCpuTableIsTorus(row, col, d);
    var r2 := WrapStep(row, RowStep(d), 3);
    var c2 := WrapStep(col, ColStep(d), 3);
    var b := BoidCpuNeighbours(row * 3 + col + 1).value[d];
    assert b == r2 * 3 + c2 + 1;
    BoidCpuTableIsTorus(r2, c2, Opposite(d));
    TorusSymmetric(3, 3, row, col, d);
  }

  /** The table without wrap-around is the bounded 3x3 grid. */
  lemma LocationTableIsBounded(row: int, col: int, d: int)
    requires 0 <= row < 3 && 0 <= col < 3 && IsBearing(d)
    ensures LocationNeighbours(row * 3 + col + 1).value[d] ==
            match BoundedNeighbour(3, 3, row, col, d)
            case Some(k) => k + 1
            case None => 0
  {
    var id := row * 3 + col + 1;
    if row == 0 {
      if col == 0 { assert id == 1; } else if col == 1 { assert id == 2; } else { assert id == 3; }
    } else if row == 1 {
      if col == 0 { assert id == 4; } else if col == 1 { assert id == 5; } else { assert id == 6; }
    } else {
      if col == 0 { assert id == 7; } else if col == 1 { assert id == 8; } else { assert id == 9; }
    }
  }

  /** The table without wrap-around is symmetric on its nonzero entries. */
  lemma LocationTableSymmetric(row: int, col: int, d: int)
    requires 0 <= row < 3 && 0 <= col < 3 && IsBearing(d)
    ensures var b := LocationNeighbours(row * 3 + col + 1).value[d];
            b != 0 ==> 1 <= b <= 9 && b != row * 3 + col + 1 &&
                       LocationNeighbours(b).value[Opposite(d)] == row * 3 + col + 1
  {
    LocationTableIsBounded(row, col, d);
    var b := LocationNeighbours(row * 3 + col + 1).value[d];
    if b != 0 {
      var r2, c2 := row + RowStep(d), col + ColStep(d);
      assert b == r2 * 3 + c2 + 1;
      assert RowStep(Opposite(d)) == -RowStep(d) && ColStep(Opposite(d)) == -ColStep(d);
      LocationTableIsBounded(r2, c2, Opposite(d));
      CellInjective(r2, c2, row, col, 3);
    }
  }

  /** Corners have three neighbours, border cells five and the centre eight. */
  lemma LocationNeighbourCounts(id: int)
    requires 1 <= id <= 9
    ensures CountNonZero(LocationNeighbours(id).value) ==
            if id == 5 then 8 else if id % 2 == 1 then 3 else 5
  {
    if id == 5 { RowCount(5, [1, 2, 3, 6, 9, 8, 7, 4], 8); }
    else if id % 2 == 1 { CornerCounts(id); }
    else { BorderCounts(id); }
  }

  /** The four corner locations. */
  lemma CornerCounts(id: int)
    requires id == 1 || id == 3 || id == 7 || id == 9
    ensures CountNonZero(LocationNeighbours(id).value) == 3
  {
    if id == 1 { RowCount(1, [0, 0, 0, 2, 5, 4, 0, 0], 3); }
    else if id == 3 { RowCount(3, [0, 0, 0, 0, 0, 6, 5, 2], 3); }
    else if id == 7 { RowCount(7, [0, 4, 5, 8, 0, 0, 0, 0], 3); }
    else { RowCount(9, [5, 6, 0, 0, 0, 0, 0, 8], 3); }
  }

  /** The four border locations between the corners. */
  lemma BorderCounts(id: int)
    requires id == 2 || id == 4 || id == 6 || id == 8
    ensures CountNonZero(LocationNeighbours(id).value) == 5
  {
    if id == 2 { RowCount(2, [0, 0, 0, 3, 6, 5, 4, 1], 5); }
    else if id == 4 { RowCount(4, [0, 1, 2, 5, 8, 7, 0, 0], 5); }
    else if id == 6 { RowCount(6, [2, 3, 0, 0, 0, 9, 8, 5], 5); }
    else { RowCount(8, [4, 5, 6, 9, 0, 0, 0, 7], 5); }
  }

  /** One row of the table holds n nonzero entries. */
  lemma RowCount(id: int, t: seq<int>, n: int)
    requires LocationNeighbours(id) == Some(t) && CountNonZero(t) == n
    ensures CountNonZero(LocationNeighbours(id).value) == n
  {
  }
}
