// One partition of the Python simulations (class BoidCPU, and Location in the
// oldest generation): the boids it owns, its bounds, and the load-balancing
// planner it runs over its own boids.
module Partitions {
  import opened Common
  import opened Migration
  import opened Planner
  import Topology

  /** Id of the i-th boid a partition creates at start-up, `count` boids each. */
  function InitialBoidId(cpuId: int, count: int, i: int): int
  {
    (cpuId - 1) * count + i + 1
  }

  /**
   * Partitions created with the same boid count hand out disjoint id ranges:
   * two start-up boids share an id only if they are the same boid of the
   * same partition.
   */
  lemma InitialIdsDistinct(a: int, i: int, b: int, j: int, count: int)
    requires 0 <= i < count && 0 <= j < count
    ensures InitialBoidId(a, count, i) == InitialBoidId(b, count, j) <==> a == b && i == j
  {
    Topology.CellInjective(a - 1, i, b - 1, j, count);
  }

  class Partition {
    const id: int
    const gridRow: int
    const gridCol: int
    const cfg: Config
    /** [xmin, ymin, xmax, ymax] */
    const coords: array<int>
    var boids: seq<Boid>
    var boidCount: int
    /** Empty until the neighbour table has been read, then eight ids (0 = none). */
    var neighbours: seq<int>
    var minimal: bool
    var distribution: seq<seq<int>>

    ghost predicate Valid()
      reads this
    {
      coords.Length == 4 && (|neighbours| == 0 || |neighbours| == 8)
    }

    function Bounds(): (c: seq<int>)
      requires coords.Length == 4
      reads coords
      ensures |c| == 4
    {
      coords[..]
    }

    /** Rows and columns of the histogram: the bounds cut into step-sized cells. */
    function Rows(): int
      requires coords.Length == 4 && cfg.stepSize > 0
      reads coords
    {
      Height(Bounds()) / cfg.stepSize
    }

    function Cols(): int
      requires coords.Length == 4 && cfg.stepSize > 0
      reads coords
    {
      Width(Bounds()) / cfg.stepSize
    }

    /**
     * A partition with the given bounds and grid position; its boids are
     * created at the given positions and numbered by InitialBoidId.
     */
    constructor (id: int, c0: seq<int>, positions: seq<(real, real)>, gridRow: int, gridCol: int, cfg: Config)
      requires |c0| == 4
      ensures Valid() && fresh(coords) && Bounds() == c0
      ensures this.id == id && this.gridRow == gridRow && this.gridCol == gridCol && this.cfg == cfg
      ensures |boids| == |positions| && boidCount == |positions|
      ensures forall i :: 0 <= i < |positions| ==>
        boids[i] == Boid(InitialBoidId(id, |positions|, i), positions[i].0, positions[i].1)
      ensures neighbours == [] && !minimal && distribution == []
    {
      this.id := id;
      this.gridRow := gridRow;
      this.gridCol := gridCol;
      this.cfg := cfg;
      coords := new int[4](i => if 0 <= i < 4 then c0[i] else 0);
      var created: seq<Boid> := [];
      var i := 0;
      while i < |positions|
        invariant 0 <= i <= |positions| && |created| == i
        invariant forall j :: 0 <= j < i ==>
          created[j] == Boid(InitialBoidId(id, |positions|, j), positions[j].0, positions[j].1)
      {
        created := created + [Boid(InitialBoidId(id, |positions|, i), positions[i].0, positions[i].1)];
        i := i + 1;
      }
      boids := created;
      boidCount := |positions|;
      neighbours := [];
      minimal := false;
      distribution := [];
    }

    /** accept_boid: the boid joins the end of the list and the count grows by one. */
    method AcceptBoid(b: Boid)
      modifies this
      ensures boids == old(boids) + [b] && boidCount == old(boidCount) + 1
      ensures neighbours == old(neighbours) && minimal == old(minimal) && distribution == old(distribution)
    {
      boids := boids + [b];
      boidCount := boidCount + 1;
    }

    /**
     * The sender's half of transfer_boid: every boid with the given id leaves
     * the list, the others keep their order, and the count drops by one.
     */
    method DropBoid(bid: int)
      modifies this
      ensures boids == WithoutId(old(boids), bid) && boidCount == old(boidCount) - 1
      ensures neighbours == old(neighbours) && minimal == old(minimal) && distribution == old(distribution)
    {
      boids := WithoutId(boids, bid);
      boidCount := boidCount - 1;
    }

    /** The neighbour table row the partition reads at the start of a step. */
    method SetNeighbours(nbrs: seq<int>)
      requires |nbrs| == 0 || |nbrs| == 8
      modifies this`neighbours
      ensures neighbours == nbrs
    {
      neighbours := nbrs;
    }

    /**
     * The flocking loop of update: each of the first n boids is replaced by
     * its updated self, computed from the gathered neighbours; the rest of
     * the list and the count stay.
     */
    method UpdateBoids(n: int, possible: seq<Boid>, move: (Boid, seq<Boid>) -> Boid)
      requires n <= |boids|
      modifies this`boids
      ensures boids == Updated(old(boids), n, possible, move)
    {
      var i := 0;
      while i < n
        invariant 0 <= i <= Max(n, 0) && |boids| == |old(boids)|
        invariant forall j :: 0 <= j < |boids| ==>
          boids[j] == if j < i then move(old(boids)[j], possible) else old(boids)[j]
      {
        boids := boids[i := move(boids[i], possible)];
        i := i + 1;
      }
    }

    /**
     * change_bounds: edge e moves `steps` steps in the direction the
     * overloaded partition's position dictates; the partition is no longer
     * taken to be at its minimal size. Any other edge value moves nothing.
     */
    method ChangeBounds(e: int, steps: int, over: (int, int))
      requires Valid()
      modifies this, coords
      ensures Valid()
      ensures IsEdge(e) ==> Bounds() == MovedEdge(old(Bounds()), e, Shrinks(e, gridRow, gridCol, over.0, over.1), steps, cfg.stepSize)
      ensures !IsEdge(e) ==> Bounds() == old(Bounds())
      ensures !minimal
      ensures boids == old(boids) && boidCount == old(boidCount) && neighbours == old(neighbours)
      ensures distribution == old(distribution)
    {
      var change := steps * cfg.stepSize;
      if over.0 == gridRow {
        if e == TOP {
          coords[Y_MIN] := coords[Y_MIN] + change;
        } else if e == BOTTOM {
          coords[Y_MAX] := coords[Y_MAX] - change;
        }
      } else {
        if e == TOP {
          coords[Y_MIN] := coords[Y_MIN] - change;
        } else if e == BOTTOM {
          coords[Y_MAX] := coords[Y_MAX] + change;
        }
      }
      if over.1 == gridCol {
        if e == RIGHT {
          coords[X_MAX] := coords[X_MAX] - change;
        } else if e == LEFT {
          coords[X_MIN] := coords[X_MIN] + change;
        }
      } else {
        if e == RIGHT {
          coords[X_MAX] := coords[X_MAX] + change;
        } else if e == LEFT {
          coords[X_MIN] := coords[X_MIN] - change;
        }
      }
      minimal := false;
    }

    /**
     * changeBounds of the oldest generation: the edge is named, the amount is
     * in pixels, and the minimal flag is left alone. It moves the edge exactly
     * as ChangeBounds does with a one-pixel step.
     */
    method ChangeBoundsNamed(edgeType: string, pixels: int, over: (int, int))
      requires Valid()
      modifies coords
      ensures EdgeNamed(edgeType).Some? ==>
        Bounds() == MovedEdge(old(Bounds()), EdgeNamed(edgeType).value,
                              Shrinks(EdgeNamed(edgeType).value, gridRow, gridCol, over.0, over.1), pixels, 1)
      ensures EdgeNamed(edgeType).None? ==> Bounds() == old(Bounds())
    {
      if over.0 == gridRow {
        if edgeType == "top" {
          coords[Y_MIN] := coords[Y_MIN] + pixels;
        } else if edgeType == "bottom" {
          coords[Y_MAX] := coords[Y_MAX] - pixels;
        }
      } else {
        if edgeType == "top" {
          coords[Y_MIN] := coords[Y_MIN] - pixels;
        } else if edgeType == "bottom" {
          coords[Y_MAX] := coords[Y_MAX] + pixels;
        }
      }
      if over.1 == gridCol {
        if edgeType == "right" {
          coords[X_MAX] := coords[X_MAX] - pixels;
        } else if edgeType == "left" {
          coords[X_MIN] := coords[X_MIN] + pixels;
        }
      } else {
        if edgeType == "right" {
          coords[X_MAX] := coords[X_MAX] + pixels;
        } else if edgeType == "left" {
          coords[X_MIN] := coords[X_MIN] - pixels;
        }
      }
    }

    /**
     * create_boid_distribution: the histogram of the partition's boids over
     * step-sized cells, each boid counted in the cell of its first width
     * segment and first height segment (or nowhere).
     */
    method CreateBoidDistribution()
      requires Valid() && cfg.stepSize > 0
      requires Height(Bounds()) >= 0 && Width(Bounds()) >= 0
      modifies this`distribution
      ensures distribution == Histogram(boids, Bounds(), cfg.stepSize, Rows(), Cols())
      ensures Total(distribution) <= |boids|
    {
      var step := cfg.stepSize;
      var c := coords[..];
      var widthSegments := (coords[X_MAX] - coords[X_MIN]) / step;
      var heightSegments := (coords[Y_MAX] - coords[Y_MIN]) / step;
      var d := Zeros(heightSegments, widthSegments);
      var n := 0;
      while n < |boids|
        invariant 0 <= n <= |boids|
        invariant d == Histogram(boids[..n], c, step, heightSegments, widthSegments)
      {
        d := PlaceBoid(d, boids[n], c, step, heightSegments, widthSegments);
        assert boids[..n + 1][..n] == boids[..n];
        n := n + 1;
      }
      assert boids[..n] == boids;
      HistogramTotal(boids, c, step, heightSegments, widthSegments);
      assert c == Bounds() && heightSegments == Rows() && widthSegments == Cols();
      distribution := d;
    }

    /**
     * analyse_boid_distribution: advances the movable edges round by round,
     * the p-th advance of an edge moving it p steps further in, until the
     * bands uncovered hold enough boids or no movable edge can advance
     * without making the partition smaller than the minimum size.
     */
    method AnalyseBoidDistribution() returns (changes: seq<nat>)
      requires Valid() && cfg.stepSize > 0 && cfg.minBoidCpuSize >= 0
      requires Height(Bounds()) >= 0 && Width(Bounds()) >= 0
      requires IsGrid(distribution, Rows(), Cols())
      modifies this`minimal
      ensures |changes| == 4
      ensures forall e :: IsEdge(e) ==> FitsBands(Rows(), Cols(), e, changes[e])
      ensures forall e :: IsEdge(e) && !ValidEdge(gridRow, gridCol, cfg.widthInBoidCpus, e) ==> changes[e] == 0
      ensures old(minimal) ==> minimal && changes == [0, 0, 0, 0]
      ensures Released(distribution, Rows(), Cols(), changes) >= cfg.boidsToRelease || minimal
      ensures minimal && !old(minimal) ==>
        forall e :: IsEdge(e) && ValidEdge(gridRow, gridCol, cfg.widthInBoidCpus, e) ==>
          !MinSizeEnforced(Shrunk(Bounds(), changes, cfg.stepSize), e, changes[e] + 1, cfg)
      ensures changes[TOP] + changes[BOTTOM] > 0 ==>
        Height(Shrunk(Bounds(), changes, cfg.stepSize)) >= cfg.minBoidCpuSize
      ensures changes[LEFT] + changes[RIGHT] > 0 ==>
        Width(Shrunk(Bounds(), changes, cfg.stepSize)) >= cfg.minBoidCpuSize
    {
      var rows := (coords[Y_MAX] - coords[Y_MIN]) / cfg.stepSize;
      var cols := (coords[X_MAX] - coords[X_MIN]) / cfg.stepSize;
      var valid := ValidEdges(gridRow, gridCol, cfg.widthInBoidCpus);
      var reached;
      changes, reached := PlanChanges(coords[..], distribution, rows, cols, valid, cfg, minimal);
      minimal := reached;
    }
  }

  /**
   * The loop of analyse_boid_distribution over the start bounds c0 and the
   * histogram: `minimal` starts as the partition's flag and ends as its new
   * value.
   */
  method PlanChanges(c0: seq<int>, dist: seq<seq<int>>, rows: int, cols: int, valid: seq<bool>, cfg: Config, minimal0: bool)
    returns (changes: seq<nat>, minimal: bool)
    requires |c0| == 4 && |valid| == 4 && cfg.stepSize > 0 && cfg.minBoidCpuSize >= 0
    requires Height(c0) >= 0 && Width(c0) >= 0
    requires rows == Height(c0) / cfg.stepSize && cols == Width(c0) / cfg.stepSize && IsGrid(dist, rows, cols)
    ensures |changes| == 4
    ensures forall e :: IsEdge(e) ==> FitsBands(rows, cols, e, changes[e])
    ensures forall e :: IsEdge(e) && !valid[e] ==> changes[e] == 0
    ensures minimal0 ==> minimal && changes == [0, 0, 0, 0]
    ensures Released(dist, rows, cols, changes) >= cfg.boidsToRelease || minimal
    ensures minimal && !minimal0 ==>
      forall e :: IsEdge(e) && valid[e] ==> !MinSizeEnforced(Shrunk(c0, changes, cfg.stepSize), e, changes[e] + 1, cfg)
    ensures changes[TOP] + changes[BOTTOM] > 0 ==> Height(Shrunk(c0, changes, cfg.stepSize)) >= cfg.minBoidCpuSize
    ensures changes[LEFT] + changes[RIGHT] > 0 ==> Width(Shrunk(c0, changes, cfg.stepSize)) >= cfg.minBoidCpuSize
  {
    minimal := minimal0;
    changes := [0, 0, 0, 0];
    var tmp := c0;
    var released := 0;
    var atMin := [!valid[0], !valid[1], !valid[2], !valid[3]];
    PlanStart(c0, dist, rows, cols, valid, cfg);
    while released < cfg.boidsToRelease && !minimal
      invariant Plan(c0, dist, rows, cols, valid, cfg, changes, tmp, released, atMin)
      invariant minimal0 ==> minimal && changes == [0, 0, 0, 0]
      invariant minimal && !minimal0 ==> AllTrue(atMin)
      decreases if minimal then 0 else 1, Slack(c0, tmp, cfg)
    {
      changes, tmp, released, atMin := AdvanceEdges(c0, dist, rows, cols, valid, cfg, changes, tmp, released, atMin);
      if atMin[0] && atMin[1] && atMin[2] && atMin[3] {
        minimal := true;
        assert AllTrue(atMin);
      }
    }
    PlanOutcome(c0, dist, rows, cols, valid, cfg, changes, tmp, released, atMin, minimal && !minimal0);
  }

  /** Before the first round nothing has moved and only the immovable edges are flagged. */
  lemma PlanStart(c0: seq<int>, dist: seq<seq<int>>, rows: int, cols: int, valid: seq<bool>, cfg: Config)
    requires |c0| == 4 && |valid| == 4 && cfg.stepSize > 0 && cfg.minBoidCpuSize >= 0
    requires Height(c0) >= 0 && Width(c0) >= 0
    requires rows == Height(c0) / cfg.stepSize && cols == Width(c0) / cfg.stepSize && IsGrid(dist, rows, cols)
    ensures Plan(c0, dist, rows, cols, valid, cfg, [0, 0, 0, 0], c0, 0, [!valid[0], !valid[1], !valid[2], !valid[3]])
  {
    assert Shrunk(c0, [0, 0, 0, 0], cfg.stepSize) == c0;
  }

  /** What the planner state says once the loop stops. */
  lemma PlanOutcome(c0: seq<int>, dist: seq<seq<int>>, rows: int, cols: int, valid: seq<bool>, cfg: Config,
                    changes: seq<nat>, tmp: seq<int>, released: int, atMin: seq<bool>, stuck: bool)
    requires Plan(c0, dist, rows, cols, valid, cfg, changes, tmp, released, atMin)
    requires stuck ==> AllTrue(atMin)
    ensures |changes| == 4 && tmp == Shrunk(c0, changes, cfg.stepSize)
    ensures forall e :: IsEdge(e) ==> FitsBands(rows, cols, e, changes[e])
    ensures forall e :: IsEdge(e) && !valid[e] ==> changes[e] == 0
    ensures stuck ==>
      forall e :: IsEdge(e) && valid[e] ==> !MinSizeEnforced(Shrunk(c0, changes, cfg.stepSize), e, changes[e] + 1, cfg)
    ensures changes[TOP] + changes[BOTTOM] > 0 ==> Height(Shrunk(c0, changes, cfg.stepSize)) >= cfg.minBoidCpuSize
    ensures changes[LEFT] + changes[RIGHT] > 0 ==> Width(Shrunk(c0, changes, cfg.stepSize)) >= cfg.minBoidCpuSize
  {
    if stuck {
      assert forall e :: IsEdge(e) ==> atMin[e];
    }
  }

  /**
   * The inner loop of create_boid_distribution for one boid: the first width
   * segment whose upper bound exceeds x, and within it the first height
   * segment whose upper bound exceeds y, gets one more boid.
   */
  method PlaceBoid(d: seq<seq<int>>, b: Boid, c: seq<int>, step: int, rows: nat, cols: nat)
    returns (r: seq<seq<int>>)
    requires |c| == 4 && step > 0 && IsGrid(d, rows, cols)
    ensures r == match CellOf(b, c, step, rows, cols)
                 case Some((h, w)) => Increment(d, h, w)
                 case None => d
  {
    ghost var fx := FirstSegment(b.x, c[X_MIN], step, cols, 0);
    ghost var fy := FirstSegment(b.y, c[Y_MIN], step, rows, 0);
    r := d;
    var placed := false;
    for w := 0 to cols
      invariant placed ==> fx.Some? && fy.Some? && fx.value < w && r == Increment(d, fy.value, fx.value)
      invariant !placed ==> r == d && (fx.None? || fy.None? || fx.value >= w)
    {
      if !placed && b.x < ((w + 1) * step + c[X_MIN]) as real {
        assert fy.Some? ==> fx.Some? && fx.value == w by {
          assert b.x < SegmentEnd(w, step, c[X_MIN]);
        }
        for h := 0 to rows
          invariant placed ==> fx.Some? && fx.value == w && fy.Some? && fy.value < h && r == Increment(d, fy.value, w)
          invariant !placed ==> r == d && (fy.None? || fy.value >= h)
        {
          if !placed && b.y < ((h + 1) * step + c[Y_MIN]) as real {
            assert fy.Some? && fy.value == h by {
              assert b.y < SegmentEnd(h, step, c[Y_MIN]);
            }
            r := r[h := r[h][w := r[h][w] + 1]];
            placed := true;
          }
        }
      }
    }
  }

  /** The first n boids of a list replaced by their updated selves. */
  function Updated(s: seq<Boid>, n: int, possible: seq<Boid>, move: (Boid, seq<Boid>) -> Boid): (r: seq<Boid>)
    ensures |r| == |s|
    ensures forall i :: 0 <= i < |s| ==> r[i] == if i < n then move(s[i], possible) else s[i]
  {
    seq(|s|, i requires 0 <= i < |s| => if i < n then move(s[i], possible) else s[i])
  }

  predicate AllTrue(s: seq<bool>)
  {
    forall i :: 0 <= i < |s| ==> s[i]
  }

  /** How far the tentative bounds can still shrink before the minimum size. */
  function Slack(c0: seq<int>, tmp: seq<int>, cfg: Config): int
    requires |c0| == 4 && |tmp| == 4
  {
    (Height(tmp) - Min(Height(c0), cfg.minBoidCpuSize)) + (Width(tmp) - Min(Width(c0), cfg.minBoidCpuSize))
  }

  /** Every movable edge flagged at its minimum still cannot take its next step. */
  ghost predicate StuckKept(tmp: seq<int>, valid: seq<bool>, atMin: seq<bool>, changes: seq<nat>, cfg: Config)
    requires |tmp| == 4 && |valid| == 4 && |atMin| == 4 && |changes| == 4
  {
    forall e :: IsEdge(e) && valid[e] && atMin[e] ==> !MinSizeEnforced(tmp, e, changes[e] + 1, cfg)
  }

  /**
   * The state of the planner between two edge attempts: the tentative bounds
   * are the start bounds shrunk by the step counts, `released` counts the
   * boids of the uncovered bands, immovable edges never advance, an edge
   * flagged at its minimum cannot advance, and the tentative bounds are
   * never smaller than the minimum size in a dimension that moved.
   */
  ghost predicate Plan(c0: seq<int>, dist: seq<seq<int>>, rows: int, cols: int, valid: seq<bool>, cfg: Config,
                       changes: seq<nat>, tmp: seq<int>, released: int, atMin: seq<bool>)
  {
    |c0| == 4 && |valid| == 4 && |changes| == 4 && |atMin| == 4 && |tmp| == 4 &&
    cfg.stepSize > 0 && cfg.minBoidCpuSize >= 0 && Height(c0) >= 0 && Width(c0) >= 0 &&
    rows == Height(c0) / cfg.stepSize && cols == Width(c0) / cfg.stepSize && IsGrid(dist, rows, cols) &&
    tmp == Shrunk(c0, changes, cfg.stepSize) &&
    (forall e :: IsEdge(e) ==> FitsBands(rows, cols, e, changes[e])) &&
    released == Released(dist, rows, cols, changes) &&
    (forall e :: IsEdge(e) && !valid[e] ==> changes[e] == 0 && atMin[e]) &&
    StuckKept(tmp, valid, atMin, changes, cfg) &&
    Min(Height(c0), cfg.minBoidCpuSize) <= Height(tmp) <= Height(c0) &&
    Min(Width(c0), cfg.minBoidCpuSize) <= Width(tmp) <= Width(c0) &&
    (changes[TOP] + changes[BOTTOM] > 0 ==> Height(tmp) >= cfg.minBoidCpuSize) &&
    (changes[LEFT] + changes[RIGHT] > 0 ==> Width(tmp) >= cfg.minBoidCpuSize)
  }

  /**
   * One round of analyse_boid_distribution: each movable edge, in the order
   * top, right, bottom, left, advances once more if boids are still to be
   * released and the minimum size allows it, and is flagged at its minimum
   * otherwise. A round either shrinks the tentative bounds or flags every
   * edge.
   */
  method AdvanceEdges(c0: seq<int>, dist: seq<seq<int>>, rows: int, cols: int, valid: seq<bool>, cfg: Config,
                      changes0: seq<nat>, tmp0: seq<int>, released0: int, atMin0: seq<bool>)
    returns (changes: seq<nat>, tmp: seq<int>, released: int, atMin: seq<bool>)
    requires Plan(c0, dist, rows, cols, valid, cfg, changes0, tmp0, released0, atMin0)
    requires released0 < cfg.boidsToRelease
    ensures Plan(c0, dist, rows, cols, valid, cfg, changes, tmp, released, atMin)
    ensures Slack(c0, tmp, cfg) < Slack(c0, tmp0, cfg) || AllTrue(atMin)
    ensures changes0 == [0, 0, 0, 0] && changes == changes0 ==> tmp == tmp0
  {
    changes, tmp, released, atMin := changes0, tmp0, released0, atMin0;
    var step := cfg.stepSize;
    for e := 0 to 4
      invariant Plan(c0, dist, rows, cols, valid, cfg, changes, tmp, released, atMin)
      invariant changes == changes0 ==> tmp == tmp0 && released == released0 && forall e' :: 0 <= e' < e ==> atMin[e']
      invariant changes != changes0 ==> Slack(c0, tmp, cfg) < Slack(c0, tmp0, cfg)
    {
      changes, tmp, released, atMin := TryEdge(c0, dist, rows, cols, valid, cfg, changes, tmp, released, atMin, e);
    }
  }

  /**
   * The attempt on one edge within a round: a movable edge, while boids are
   * still to be released, advances once more if the minimum size allows it
   * and is flagged at its minimum otherwise.
   */
  method TryEdge(c0: seq<int>, dist: seq<seq<int>>, rows: int, cols: int, valid: seq<bool>, cfg: Config,
                 changes0: seq<nat>, tmp0: seq<int>, released0: int, atMin0: seq<bool>, e: int)
    returns (changes: seq<nat>, tmp: seq<int>, released: int, atMin: seq<bool>)
    requires Plan(c0, dist, rows, cols, valid, cfg, changes0, tmp0, released0, atMin0) && IsEdge(e)
    ensures Plan(c0, dist, rows, cols, valid, cfg, changes, tmp, released, atMin)
    ensures changes == changes0 ==>
      (tmp == tmp0 && released == released0 &&
       (forall i :: 0 <= i < 4 && i != e ==> atMin[i] == atMin0[i]) &&
       (released0 < cfg.boidsToRelease ==> atMin[e]))
    ensures changes != changes0 ==> Slack(c0, tmp, cfg) < Slack(c0, tmp0, cfg)
  {
    changes, tmp, released, atMin := changes0, tmp0, released0, atMin0;
    if valid[e] && released < cfg.boidsToRelease {
      var proposed := changes[e] + 1;
      if MinSizeEnforced(tmp, e, proposed, cfg) {
        AdvanceKeepsPlan(c0, dist, rows, cols, valid, cfg, changes, tmp, released, atMin, e);
        AdvanceShrinks(c0, tmp, e, proposed, cfg);
        var freed := RowCol(dist, rows, cols, e, proposed - 1);
        tmp := MovedEdge(tmp, e, true, proposed, cfg.stepSize);
        changes := changes[e := proposed];
        released := released + freed;
        assert changes[e] != changes0[e];
      } else {
        FlagKeepsPlan(c0, dist, rows, cols, valid, cfg, changes, tmp, released, atMin, e);
        atMin := atMin[e := true];
      }
    }
  }

  /** Flagging a movable edge the minimum size stops keeps the planner state. */
  lemma FlagKeepsPlan(c0: seq<int>, dist: seq<seq<int>>, rows: int, cols: int, valid: seq<bool>, cfg: Config,
                      changes: seq<nat>, tmp: seq<int>, released: int, atMin: seq<bool>, e: int)
    requires Plan(c0, dist, rows, cols, valid, cfg, changes, tmp, released, atMin)
    requires IsEdge(e) && valid[e] && !MinSizeEnforced(tmp, e, changes[e] + 1, cfg)
    ensures Plan(c0, dist, rows, cols, valid, cfg, changes, tmp, released, atMin[e := true])
  {
  }

  /**
   * An advance the minimum size allows keeps the planner state: the new
   * tentative bounds are the start bounds shrunk by the new step counts, the
   * released boids grow by the band just uncovered, and the bounds shrink.
   */
  lemma AdvanceKeepsPlan(c0: seq<int>, dist: seq<seq<int>>, rows: int, cols: int, valid: seq<bool>, cfg: Config,
                         changes: seq<nat>, tmp: seq<int>, released: int, atMin: seq<bool>, e: int)
    requires Plan(c0, dist, rows, cols, valid, cfg, changes, tmp, released, atMin)
    requires IsEdge(e) && valid[e] && MinSizeEnforced(tmp, e, changes[e] + 1, cfg)
    ensures FitsBands(rows, cols, e, changes[e] + 1)
    ensures Plan(c0, dist, rows, cols, valid, cfg, changes[e := changes[e] + 1],
                 MovedEdge(tmp, e, true, changes[e] + 1, cfg.stepSize),
                 released + RowCol(dist, rows, cols, e, changes[e]), atMin)
  {
    AdvanceBookkeeping(c0, dist, rows, cols, valid, cfg, changes, tmp, released, atMin, e);
    AdvanceSizes(c0, dist, rows, cols, valid, cfg, changes, tmp, released, atMin, e);
  }

  /** The step counts, released boids and fixed edges after an advance. */
  lemma AdvanceBookkeeping(c0: seq<int>, dist: seq<seq<int>>, rows: int, cols: int, valid: seq<bool>, cfg: Config,
                           changes: seq<nat>, tmp: seq<int>, released: int, atMin: seq<bool>, e: int)
    requires Plan(c0, dist, rows, cols, valid, cfg, changes, tmp, released, atMin)
    requires IsEdge(e) && valid[e] && MinSizeEnforced(tmp, e, changes[e] + 1, cfg)
    ensures FitsBands(rows, cols, e, changes[e] + 1)
    ensures var changes' := changes[e := changes[e] + 1];
      MovedEdge(tmp, e, true, changes[e] + 1, cfg.stepSize) == Shrunk(c0, changes', cfg.stepSize) &&
      (forall e' :: IsEdge(e') ==> FitsBands(rows, cols, e', changes'[e'])) &&
      released + RowCol(dist, rows, cols, e, changes[e]) == Released(dist, rows, cols, changes') &&
      (forall e' :: IsEdge(e') && !valid[e'] ==> changes'[e'] == 0 && atMin[e'])
  {
    var p := changes[e] + 1;
    var changes' := changes[e := p];
    AdvanceFits(c0, tmp, e, p, cfg);
    ShrunkAdvance(c0, changes, cfg.stepSize, e);
    assert forall e' :: IsEdge(e') ==> FitsBands(rows, cols, e', changes'[e']);
    ReleasedAdvance(dist, rows, cols, changes, e);
  }

  /** The tentative sizes after an advance stay within the minimum size. */
  lemma AdvanceSizes(c0: seq<int>, dist: seq<seq<int>>, rows: int, cols: int, valid: seq<bool>, cfg: Config,
                     changes: seq<nat>, tmp: seq<int>, released: int, atMin: seq<bool>, e: int)
    requires Plan(c0, dist, rows, cols, valid, cfg, changes, tmp, released, atMin)
    requires IsEdge(e) && valid[e] && MinSizeEnforced(tmp, e, changes[e] + 1, cfg)
    ensures var changes' := changes[e := changes[e] + 1];
      var tmp' := MovedEdge(tmp, e, true, changes[e] + 1, cfg.stepSize);
      StuckKept(tmp', valid, atMin, changes', cfg) &&
      Min(Height(c0), cfg.minBoidCpuSize) <= Height(tmp') <= Height(c0) &&
      Min(Width(c0), cfg.minBoidCpuSize) <= Width(tmp') <= Width(c0) &&
      (changes'[TOP] + changes'[BOTTOM] > 0 ==> Height(tmp') >= cfg.minBoidCpuSize) &&
      (changes'[LEFT] + changes'[RIGHT] > 0 ==> Width(tmp') >= cfg.minBoidCpuSize)
  {
    var p := changes[e] + 1;
    AdvanceFits(c0, tmp, e, p, cfg);
    MinSizeKeptAfterAdvance(tmp, e, p, cfg, changes, atMin, valid);
  }

  /** An advance the minimum size allows strictly shrinks the tentative bounds. */
  lemma AdvanceShrinks(c0: seq<int>, tmp: seq<int>, e: int, p: int, cfg: Config)
    requires |c0| == 4 && |tmp| == 4 && IsEdge(e) && cfg.stepSize > 0 && p >= 1 && MinSizeEnforced(tmp, e, p, cfg)
    ensures Slack(c0, MovedEdge(tmp, e, true, p, cfg.stepSize), cfg) < Slack(c0, tmp, cfg)
  {
    MulAtLeast(p, cfg.stepSize);
  }

  /** Advancing edge e once more adds its next band to the released boids. */
  lemma ReleasedAdvance(d: seq<seq<int>>, rows: int, cols: int, changes: seq<nat>, e: int)
    requires IsGrid(d, rows, cols) && |changes| == 4 && IsEdge(e)
    requires forall e' :: IsEdge(e') ==> FitsBands(rows, cols, e', changes[e'])
    requires FitsBands(rows, cols, e, changes[e] + 1)
    ensures forall e' :: IsEdge(e') ==> FitsBands(rows, cols, e', changes[e := changes[e] + 1][e'])
    ensures Released(d, rows, cols, changes[e := changes[e] + 1]) ==
            Released(d, rows, cols, changes) + RowCol(d, rows, cols, e, changes[e])
  {
  }

  /** The edge a name of the oldest generation denotes. */
  function EdgeNamed(name: string): (r: Option<int>)
    ensures r.Some? ==> IsEdge(r.value)
    ensures r.None? <==> name != "top" && name != "right" && name != "bottom" && name != "left"
  {
    if name == "top" then Some(TOP)
    else if name == "right" then Some(RIGHT)
    else if name == "bottom" then Some(BOTTOM)
    else if name == "left" then Some(LEFT)
    else None
  }

  /**
   * An advance the minimum size allows stays within the histogram: the
   * proposed step count is at most the number of bands along that axis, and
   * the tentative bounds shrink by at least one pixel.
   */
  lemma AdvanceFits(c0: seq<int>, tmp: seq<int>, e: int, p: int, cfg: Config)
    requires |c0| == 4 && |tmp| == 4 && IsEdge(e) && cfg.stepSize > 0 && cfg.minBoidCpuSize >= 0 && p >= 1
    requires Height(c0) >= 0 && Width(c0) >= 0
    requires Height(tmp) <= Height(c0) && Width(tmp) <= Width(c0)
    requires MinSizeEnforced(tmp, e, p, cfg)
    ensures FitsBands(Height(c0) / cfg.stepSize, Width(c0) / cfg.stepSize, e, p)
    ensures cfg.stepSize * p >= 1
  {
    MulMonotone(cfg.stepSize, 1, p);
    if e == TOP || e == BOTTOM {
      DivBound(cfg.stepSize, p, Height(c0));
    } else {
      DivBound(cfg.stepSize, p, Width(c0));
    }
  }

  lemma DivBound(step: int, p: int, s: int)
    requires step > 0 && 0 <= s && step * p <= s
    ensures p <= s / step
  {
    MulMonotone(step, s / step + 1, p);
    assert step * (s / step + 1) == step * (s / step) + step;
  }

  /**
   * Advancing edge e keeps every edge already known to be stuck stuck: the
   * other spans do not grow and the stuck edges' proposals do not change.
   */
  lemma MinSizeKeptAfterAdvance(tmp: seq<int>, e: int, p: int, cfg: Config,
                                changes: seq<nat>, atMin: seq<bool>, valid: seq<bool>)
    requires |tmp| == 4 && IsEdge(e) && |changes| == 4 && |atMin| == 4 && |valid| == 4
    requires cfg.stepSize > 0 && p >= 1 && p == changes[e] + 1
    requires MinSizeEnforced(tmp, e, p, cfg)
    requires StuckKept(tmp, valid, atMin, changes, cfg)
    ensures StuckKept(MovedEdge(tmp, e, true, p, cfg.stepSize), valid, atMin, changes[e := p], cfg)
  {
    var t := MovedEdge(tmp, e, true, p, cfg.stepSize);
    MulMonotone(cfg.stepSize, 0, p);
    forall e' | IsEdge(e') && valid[e'] && atMin[e']
      ensures !MinSizeEnforced(t, e', changes[e := p][e'] + 1, cfg)
    {
      assert e' != e;
      MinSizeMonotone(tmp, t, e', changes[e'] + 1, changes[e'] + 1, cfg);
    }
  }
}
