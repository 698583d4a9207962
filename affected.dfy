// What an edge request of an overloaded partition does to the whole grid of
// the Python simulation: the request itself, the edge changes every other
// partition receives, the bounds that result, and why the partitions still
// tile the simulation area afterwards.
module Affected {
  import opened Common
  import opened Planner

  /**
   * The request made without a distribution: one step for every edge that
   * may move and that one step leaves at least the minimum size.
   */
  function DefaultRequest(c: seq<int>, row: int, col: int, cfg: Config): (req: seq<int>)
    requires |c| == 4
    ensures |req| == 4
    ensures forall e :: IsEdge(e) ==> req[e] == 0 || req[e] == 1
    ensures forall e :: IsEdge(e) ==>
      (req[e] == 1 <==> ValidEdge(row, col, cfg.widthInBoidCpus, e) && MinSizeEnforced(c, e, 1, cfg))
  {
    seq(4, e requires 0 <= e < 4 =>
      if ValidEdge(row, col, cfg.widthInBoidCpus, e) && MinSizeEnforced(c, e, 1, cfg) then 1 else 0)
  }

  /**
   * Steps edge e of the partition at (row, col) moves when the partition at
   * (overRow, overCol) makes request `req`: its own row and column move the
   * requested edges, the row above moves its bottom with the top request,
   * the row below its top with the bottom request, and likewise for columns.
   */
  function StepsFor(e: int, row: int, col: int, overRow: int, overCol: int, req: seq<int>): int
    requires IsEdge(e) && |req| == 4
  {
    if e == TOP then (if row == overRow then req[TOP] else if row == overRow + 1 then req[BOTTOM] else 0)
    else if e == RIGHT then (if col == overCol then req[RIGHT] else if col == overCol - 1 then req[LEFT] else 0)
    else if e == BOTTOM then (if row == overRow then req[BOTTOM] else if row == overRow - 1 then req[TOP] else 0)
    else (if col == overCol then req[LEFT] else if col == overCol + 1 then req[RIGHT] else 0)
  }

  /** Every entry of the list names an edge. */
  predicate EdgesOnly(entries: seq<(int, int)>)
  {
    forall x :: x in entries ==> IsEdge(x.0)
  }

  function Opt<T>(cond: bool, x: T): seq<T> { if cond then [x] else [] }

  /**
   * The list of [edge, steps] pairs identify_affected_boidcpus gives the
   * partition at (row, col), in the order it appends them.
   */
  function EntriesFor(row: int, col: int, overRow: int, overCol: int, req: seq<int>): (r: seq<(int, int)>)
    requires |req| == 4
  {
    Opt(req[TOP] != 0 && row == overRow - 1, (BOTTOM, req[TOP])) +
    Opt(req[RIGHT] != 0 && col == overCol + 1, (LEFT, req[RIGHT])) +
    Opt(req[BOTTOM] != 0 && row == overRow + 1, (TOP, req[BOTTOM])) +
    Opt(req[LEFT] != 0 && col == overCol - 1, (RIGHT, req[LEFT])) +
    Opt(req[TOP] != 0 && row == overRow, (TOP, req[TOP])) +
    Opt(req[RIGHT] != 0 && col == overCol, (RIGHT, req[RIGHT])) +
    Opt(req[BOTTOM] != 0 && row == overRow, (BOTTOM, req[BOTTOM])) +
    Opt(req[LEFT] != 0 && col == overCol, (LEFT, req[LEFT]))
  }

  /**
   * A partition's list names each edge at most once, and names edge e with
   * s steps exactly when s is the nonzero StepsFor of that edge.
   */
  lemma EntriesMeaning(row: int, col: int, overRow: int, overCol: int, req: seq<int>)
    requires |req| == 4
    ensures forall e, s :: (e, s) in EntriesFor(row, col, overRow, overCol, req) <==>
      IsEdge(e) && s == StepsFor(e, row, col, overRow, overCol, req) && s != 0
    ensures DistinctEdges(EntriesFor(row, col, overRow, overCol, req))
  {
    EntriesMembers(row, col, overRow, overCol, req);
    EntriesDistinct(row, col, overRow, overCol, req);
  }

  lemma EntriesMembers(row: int, col: int, overRow: int, overCol: int, req: seq<int>)
    requires |req| == 4
    ensures forall e, s :: (e, s) in EntriesFor(row, col, overRow, overCol, req) <==>
      IsEdge(e) && s == StepsFor(e, row, col, overRow, overCol, req) && s != 0
  {
  }

  lemma EntriesDistinct(row: int, col: int, overRow: int, overCol: int, req: seq<int>)
    requires |req| == 4
    ensures DistinctEdges(EntriesFor(row, col, overRow, overCol, req))
  {
    var o1 := Opt(req[TOP] != 0 && row == overRow - 1, (BOTTOM, req[TOP]));
    var o2 := Opt(req[RIGHT] != 0 && col == overCol + 1, (LEFT, req[RIGHT]));
    var o3 := Opt(req[BOTTOM] != 0 && row == overRow + 1, (TOP, req[BOTTOM]));
    var o4 := Opt(req[LEFT] != 0 && col == overCol - 1, (RIGHT, req[LEFT]));
    var o5 := Opt(req[TOP] != 0 && row == overRow, (TOP, req[TOP]));
    var o6 := Opt(req[RIGHT] != 0 && col == overCol, (RIGHT, req[RIGHT]));
    var o7 := Opt(req[BOTTOM] != 0 && row == overRow, (BOTTOM, req[BOTTOM]));
    var o8 := Opt(req[LEFT] != 0 && col == overCol, (LEFT, req[LEFT]));
    var r := EntriesFor(row, col, overRow, overCol, req);
    assert r == o1 + o2 + o3 + o4 + o5 + o6 + o7 + o8;
    forall e ensures EdgeCount(r, e) <= 1 {
      EdgeCountOfEight(o1, o2, o3, o4, o5, o6, o7, o8, e);
      EdgeCountOpt(req[TOP] != 0 && row == overRow - 1, (BOTTOM, req[TOP]), e);
      EdgeCountOpt(req[RIGHT] != 0 && col == overCol + 1, (LEFT, req[RIGHT]), e);
      EdgeCountOpt(req[BOTTOM] != 0 && row == overRow + 1, (TOP, req[BOTTOM]), e);
      EdgeCountOpt(req[LEFT] != 0 && col == overCol - 1, (RIGHT, req[LEFT]), e);
      EdgeCountOpt(req[TOP] != 0 && row == overRow, (TOP, req[TOP]), e);
      EdgeCountOpt(req[RIGHT] != 0 && col == overCol, (RIGHT, req[RIGHT]), e);
      EdgeCountOpt(req[BOTTOM] != 0 && row == overRow, (BOTTOM, req[BOTTOM]), e);
      EdgeCountOpt(req[LEFT] != 0 && col == overCol, (LEFT, req[LEFT]), e);
    }
    DistinctByCount(r);
  }

  /** How many entries of a list name edge e. */
  function EdgeCount(s: seq<(int, int)>, e: int): nat
  {
    if |s| == 0 then 0 else (if s[0].0 == e then 1 else 0) + EdgeCount(s[1..], e)
  }

  lemma EdgeCountOfEight(o1: seq<(int, int)>, o2: seq<(int, int)>, o3: seq<(int, int)>, o4: seq<(int, int)>,
                         o5: seq<(int, int)>, o6: seq<(int, int)>, o7: seq<(int, int)>, o8: seq<(int, int)>, e: int)
    ensures EdgeCount(o1 + o2 + o3 + o4 + o5 + o6 + o7 + o8, e) ==
            EdgeCount(o1, e) + EdgeCount(o2, e) + EdgeCount(o3, e) + EdgeCount(o4, e) +
            EdgeCount(o5, e) + EdgeCount(o6, e) + EdgeCount(o7, e) + EdgeCount(o8, e)
  {
    EdgeCountAppend(o1, o2, e);
    EdgeCountAppend(o1 + o2, o3, e);
    EdgeCountAppend(o1 + o2 + o3, o4, e);
    EdgeCountAppend(o1 + o2 + o3 + o4, o5, e);
    EdgeCountAppend(o1 + o2 + o3 + o4 + o5, o6, e);
    EdgeCountAppend(o1 + o2 + o3 + o4 + o5 + o6, o7, e);
    EdgeCountAppend(o1 + o2 + o3 + o4 + o5 + o6 + o7, o8, e);
  }

  lemma EdgeCountOpt(cond: bool, x: (int, int), e: int)
    ensures EdgeCount(Opt(cond, x), e) == if cond && x.0 == e then 1 else 0
  {
    if cond {
      assert Opt(cond, x)[1..] == [];
    }
  }

  lemma {:induction false} EdgeCountAppend(a: seq<(int, int)>, b: seq<(int, int)>, e: int)
    ensures EdgeCount(a + b, e) == EdgeCount(a, e) + EdgeCount(b, e)
    decreases |a|
  {
    if |a| > 0 {
      assert (a + b)[1..] == a[1..] + b;
      EdgeCountAppend(a[1..], b, e);
    } else {
      assert a + b == b;
    }
  }

  lemma {:induction false} EdgeCountZero(s: seq<(int, int)>, e: int)
    requires EdgeCount(s, e) == 0
    ensures forall i :: 0 <= i < |s| ==> s[i].0 != e
    decreases |s|
  {
    if |s| > 0 {
      EdgeCountZero(s[1..], e);
      forall i | 0 < i < |s| ensures s[i].0 != e {
        assert s[i] == s[1..][i - 1];
      }
    }
  }

  /** A list naming every edge at most once has no two entries for the same edge. */
  lemma {:induction false} DistinctByCount(s: seq<(int, int)>)
    requires forall e :: EdgeCount(s, e) <= 1
    ensures DistinctEdges(s)
    decreases |s|
  {
    if |s| > 0 {
      var t := s[1..];
      assert forall e :: EdgeCount(t, e) <= EdgeCount(s, e);
      DistinctByCount(t);
      EdgeCountZero(t, s[0].0);
      forall i, j | 0 <= i < j < |s| ensures s[i].0 != s[j].0 {
        assert s[j] == t[j - 1];
        if i > 0 {
          assert s[i] == t[i - 1];
        }
      }
    }
  }

  /**
   * The bounds after a list of [edge, steps] pairs is applied in order, each
   * edge moving in the direction change_bounds gives it (a pair naming no
   * edge moves nothing, as in change_bounds).
   */
  function ApplyEntries(c: seq<int>, entries: seq<(int, int)>, row: int, col: int, over: (int, int), step: int): (r: seq<int>)
    requires |c| == 4
    ensures |r| == 4
  {
    if |entries| == 0 then c
    else
      var last := entries[|entries| - 1];
      var before := ApplyEntries(c, entries[..|entries| - 1], row, col, over, step);
      if IsEdge(last.0) then MovedEdge(before, last.0, Shrinks(last.0, row, col, over.0, over.1), last.1, step)
      else before
  }

  lemma {:induction false} ApplyAppend(c: seq<int>, s: seq<(int, int)>, t: seq<(int, int)>, row: int, col: int, over: (int, int), step: int)
    requires |c| == 4
    ensures ApplyEntries(c, s + t, row, col, over, step) ==
            ApplyEntries(ApplyEntries(c, s, row, col, over, step), t, row, col, over, step)
    decreases |t|
  {
    if |t| == 0 {
      assert s + t == s;
    } else {
      assert (s + t)[..|s + t| - 1] == s + t[..|t| - 1];
      ApplyAppend(c, s, t[..|t| - 1], row, col, over, step);
    }
  }

  /**
   * The bounds of the partition at (row, col) once the request is applied:
   * each slot moves by the steps of its edge, inwards in the overloaded row
   * or column and outwards elsewhere.
   */
  function Rebounded(c: seq<int>, row: int, col: int, overRow: int, overCol: int, req: seq<int>, step: int): (r: seq<int>)
    requires |c| == 4 && |req| == 4
    ensures |r| == 4
  {
    [c[X_MIN] + (if col == overCol then step * req[LEFT] else if col == overCol + 1 then -step * req[RIGHT] else 0),
     c[Y_MIN] + (if row == overRow then step * req[TOP] else if row == overRow + 1 then -step * req[BOTTOM] else 0),
     c[X_MAX] + (if col == overCol then -step * req[RIGHT] else if col == overCol - 1 then step * req[LEFT] else 0),
     c[Y_MAX] + (if row == overRow then -step * req[BOTTOM] else if row == overRow - 1 then step * req[TOP] else 0)]
  }

  /** Moving an edge by the steps StepsFor gives it changes its slot as Rebounded says. */
  lemma StepsForSlot(c: seq<int>, e: int, row: int, col: int, overRow: int, overCol: int, req: seq<int>, step: int)
    requires |c| == 4 && |req| == 4 && IsEdge(e)
    ensures MovedEdge(c, e, Shrinks(e, row, col, overRow, overCol), StepsFor(e, row, col, overRow, overCol, req), step)[EdgeToCoord(e)]
         == Rebounded(c, row, col, overRow, overCol, req, step)[EdgeToCoord(e)]
  {
  }

  /**
   * Applying a partition's own list in the order identify_affected_boidcpus
   * builds it (which is what evaluate_boundary_change does on a copy of the
   * bounds) gives exactly the rebounded rectangle.
   */
  lemma EntriesGiveRebounded(c: seq<int>, row: int, col: int, overRow: int, overCol: int, req: seq<int>, step: int)
    requires |c| == 4 && |req| == 4
    ensures ApplyEntries(c, EntriesFor(row, col, overRow, overCol, req), row, col, (overRow, overCol), step) ==
            Rebounded(c, row, col, overRow, overCol, req, step)
  {
    var a := ApplyEntries(c, EntriesFor(row, col, overRow, overCol, req), row, col, (overRow, overCol), step);
    var r := Rebounded(c, row, col, overRow, overCol, req, step);
    SlotRebounded(c, TOP, row, col, overRow, overCol, req, step);
    SlotRebounded(c, RIGHT, row, col, overRow, overCol, req, step);
    SlotRebounded(c, BOTTOM, row, col, overRow, overCol, req, step);
    SlotRebounded(c, LEFT, row, col, overRow, overCol, req, step);
    assert a[0] == r[0] && a[1] == r[1] && a[2] == r[2] && a[3] == r[3];
  }

  /** One slot of EntriesGiveRebounded. */
  lemma SlotRebounded(c: seq<int>, e: int, row: int, col: int, overRow: int, overCol: int, req: seq<int>, step: int)
    requires |c| == 4 && |req| == 4 && IsEdge(e)
    ensures ApplyEntries(c, EntriesFor(row, col, overRow, overCol, req), row, col, (overRow, overCol), step)[EdgeToCoord(e)] ==
            Rebounded(c, row, col, overRow, overCol, req, step)[EdgeToCoord(e)]
  {
    var entries := EntriesFor(row, col, overRow, overCol, req);
    EntriesMeaning(row, col, overRow, overCol, req);
    SlotOfList(c, entries, e, row, col, overRow, overCol, req, step);
  }

  /** A list that means what EntriesMeaning says moves slot e as Rebounded says. */
  lemma SlotOfList(c: seq<int>, entries: seq<(int, int)>, e: int, row: int, col: int, overRow: int, overCol: int,
                   req: seq<int>, step: int)
    requires |c| == 4 && |req| == 4 && IsEdge(e)
    requires DistinctEdges(entries)
    requires forall e', s' :: (e', s') in entries <==>
      IsEdge(e') && s' == StepsFor(e', row, col, overRow, overCol, req) && s' != 0
    ensures ApplyEntries(c, entries, row, col, (overRow, overCol), step)[EdgeToCoord(e)] ==
            Rebounded(c, row, col, overRow, overCol, req, step)[EdgeToCoord(e)]
  {
    var s := StepsFor(e, row, col, overRow, overCol, req);
    assert EdgesOnly(entries) by {
      forall x | x in entries ensures IsEdge(x.0) {
        var e1, s1 := x.0, x.1;
        assert (e1, s1) == x && (e1, s1) in entries;
      }
    }
    ApplySlot(c, entries, e, row, col, (overRow, overCol), step);
    if s == 0 {
      forall i | 0 <= i < |entries| ensures entries[i].0 != e {
        var e1, s1 := entries[i].0, entries[i].1;
        assert entries[i] == (e1, s1);
        assert (e1, s1) in entries;
        assert s1 == StepsFor(e1, row, col, overRow, overCol, req) && s1 != 0;
      }
    }
    StepsInEntries(entries, e, s);
    StepsForSlot(c, e, row, col, overRow, overCol, req, step);
  }

  predicate DistinctEdges(entries: seq<(int, int)>)
  {
    forall i, j :: 0 <= i < j < |entries| ==> entries[i].0 != entries[j].0
  }

  /** The steps a list gives edge e: those of its last entry for e, or none. */
  function StepsIn(entries: seq<(int, int)>, e: int): int
  {
    if |entries| == 0 then 0
    else if entries[|entries| - 1].0 == e then entries[|entries| - 1].1
    else StepsIn(entries[..|entries| - 1], e)
  }

  /**
   * In a list naming each edge at most once, StepsIn finds the entry for e
   * when there is one and gives 0 otherwise.
   */
  lemma {:induction false} StepsInEntries(entries: seq<(int, int)>, e: int, s: int)
    requires DistinctEdges(entries)
    requires (e, s) in entries || (s == 0 && forall i :: 0 <= i < |entries| ==> entries[i].0 != e)
    ensures StepsIn(entries, e) == s
  {
    if |entries| > 0 {
      var init := entries[..|entries| - 1];
      if entries[|entries| - 1].0 != e {
        assert (e, s) in entries ==> (e, s) in init by {
          if (e, s) in entries {
            var k :| 0 <= k < |entries| && entries[k] == (e, s);
            assert init[k] == (e, s);
          }
        }
        StepsInEntries(init, e, s);
      } else {
        var k :| 0 <= k < |entries| && entries[k] == (e, s);
        assert k == |entries| - 1;
      }
    }
  }

  /**
   * Applying a list that names each edge at most once leaves the slot of
   * edge e where moving e alone by its listed steps puts it.
   */
  lemma {:induction false} ApplySlot(c: seq<int>, entries: seq<(int, int)>, e: int, row: int, col: int, over: (int, int), step: int)
    requires |c| == 4 && IsEdge(e) && DistinctEdges(entries)
    requires EdgesOnly(entries)
    ensures ApplyEntries(c, entries, row, col, over, step)[EdgeToCoord(e)] ==
            MovedEdge(c, e, Shrinks(e, row, col, over.0, over.1), StepsIn(entries, e), step)[EdgeToCoord(e)]
  {
    if |entries| > 0 {
      var init := entries[..|entries| - 1];
      var last := entries[|entries| - 1];
      ApplySlot(c, init, e, row, col, over, step);
      if last.0 == e {
        StepsInEntries(init, e, 0);
      } else {
        EdgeToCoordInjective(last.0, e);
      }
    }
  }

  // ---------------------------------------------------------------------
  // Tiling.

  /**
   * The rectangle of the cell (row, col) of a grid whose column boundaries
   * are xs and whose row boundaries are ys.
   */
  function Tile(xs: seq<int>, ys: seq<int>, row: int, col: int): (r: seq<int>)
    requires 0 <= row && row + 1 < |ys| && 0 <= col && col + 1 < |xs|
    ensures |r| == 4
  {
    [xs[col], ys[row], xs[col + 1], ys[row + 1]]
  }

  /**
   * Load balancing keeps a tiling a tiling: if every partition is the cell
   * of its grid position, then after the request of the partition at
   * (overRow, overCol) every partition is the cell of the same position in
   * the grid whose overloaded row and column boundaries have moved, and
   * nothing else has.
   */
  lemma ReboundedKeepsTiling(xs: seq<int>, ys: seq<int>, row: int, col: int, overRow: int, overCol: int,
                             req: seq<int>, step: int)
    requires 0 <= row && row + 1 < |ys| && 0 <= col && col + 1 < |xs|
    requires 0 <= overRow && overRow + 1 < |ys| && 0 <= overCol && overCol + 1 < |xs| && |req| == 4
    ensures Rebounded(Tile(xs, ys, row, col), row, col, overRow, overCol, req, step) ==
            Tile(xs[overCol := xs[overCol] + step * req[LEFT]][overCol + 1 := xs[overCol + 1] - step * req[RIGHT]],
                 ys[overRow := ys[overRow] + step * req[TOP]][overRow + 1 := ys[overRow + 1] - step * req[BOTTOM]],
                 row, col)
  {
  }

  /**
   * Construction: partition i of the 3-wide grid, as an index, a grid
   * position [row, col] and a square of the given side.
   */
  function InitialBounds(i: int, size: int): (c: seq<int>)
    requires 0 <= i
    ensures |c| == 4
  {
    var x := (i % 3) * size;
    var y := (i / 3) * size;
    [x, y, x + size, y + size]
  }

  function Boundaries(size: int): seq<int> { [0, size, 2 * size, 3 * size] }

  /** The nine start-up squares are the cells of a 3 x 3 grid of the given side. */
  lemma InitialBoundsTile(i: int, size: int)
    requires 0 <= i < 9
    ensures InitialBounds(i, size) == Tile(Boundaries(size), Boundaries(size), i / 3, i % 3)
  {
  }
}
