// The grid of partitions of the Python simulations (class Simulation, and
// the location grid of the oldest generation): construction, boid
// hand-over between partitions, the gathering of neighbouring boids and the
// per-partition update step.
module Grids {
  import opened Common
  import opened Migration
  import opened Planner
  import opened Affected
  import opened Transfers
  import opened Partitions
  import opened Balance

  /**
   * The boids of partition `own` followed by those of every nonzero
   * neighbour, in table order (a neighbour listed twice contributes twice).
   */
  function Gathered(nbrs: seq<int>, lists: seq<seq<Boid>>): (r: seq<Boid>)
    requires forall d :: 0 <= d < |nbrs| ==> 0 <= nbrs[d] <= |lists|
    decreases |nbrs|
  {
    if |nbrs| == 0 then []
    else
      var last := nbrs[|nbrs| - 1];
      Gathered(nbrs[..|nbrs| - 1], lists) + (if last != 0 then lists[last - 1] else [])
  }

  /** A gathered boid comes from a nonzero neighbour, and every such neighbour's boids are gathered. */
  lemma {:induction false} GatheredMembers(nbrs: seq<int>, lists: seq<seq<Boid>>)
    requires forall d :: 0 <= d < |nbrs| ==> 0 <= nbrs[d] <= |lists|
    ensures forall b :: b in Gathered(nbrs, lists) <==>
      exists d :: 0 <= d < |nbrs| && nbrs[d] != 0 && b in lists[nbrs[d] - 1]
    decreases |nbrs|
  {
    if |nbrs| > 0 {
      var init := nbrs[..|nbrs| - 1];
      GatheredMembers(init, lists);
      forall b ensures b in Gathered(nbrs, lists) <==>
        exists d :: 0 <= d < |nbrs| && nbrs[d] != 0 && b in lists[nbrs[d] - 1]
      {
        if exists d :: 0 <= d < |nbrs| && nbrs[d] != 0 && b in lists[nbrs[d] - 1] {
          var d :| 0 <= d < |nbrs| && nbrs[d] != 0 && b in lists[nbrs[d] - 1];
          if d < |nbrs| - 1 {
            assert init[d] == nbrs[d];
          }
        }
        if b in Gathered(init, lists) {
          var d :| 0 <= d < |init| && init[d] != 0 && b in lists[init[d] - 1];
          assert nbrs[d] == init[d];
        }
      }
    }
  }

  /** One more neighbour appended to a running gathering. */
  lemma GatheredNext(lists: seq<seq<Boid>>, nbrs: seq<int>, d: int, own: seq<Boid>, acc: seq<Boid>)
    requires 0 <= d < |nbrs| && forall i :: 0 <= i < |nbrs| ==> 0 <= nbrs[i] <= |lists|
    requires acc == own + Gathered(nbrs[..d], lists)
    ensures acc + (if nbrs[d] != 0 then lists[nbrs[d] - 1] else []) == own + Gathered(nbrs[..d + 1], lists)
  {
    var pre := nbrs[..d + 1];
    assert pre[..|pre| - 1] == nbrs[..d] && pre[|pre| - 1] == nbrs[d];
    var before, next := Gathered(nbrs[..d], lists), if nbrs[d] != 0 then lists[nbrs[d] - 1] else [];
    assert Gathered(pre, lists) == before + next;
    AppendAssoc(own, before, next);
  }

  /** The total length of the lists of the nonzero neighbours. */
  function GatheredSize(nbrs: seq<int>, lists: seq<seq<Boid>>): nat
    requires forall d :: 0 <= d < |nbrs| ==> 0 <= nbrs[d] <= |lists|
    decreases |nbrs|
  {
    if |nbrs| == 0 then 0
    else
      var last := nbrs[|nbrs| - 1];
      GatheredSize(nbrs[..|nbrs| - 1], lists) + (if last != 0 then |lists[last - 1]| else 0)
  }

  /** The gathered list is as long as the lists of the nonzero neighbours together. */
  lemma {:induction false} GatheredLength(nbrs: seq<int>, lists: seq<seq<Boid>>)
    requires forall d :: 0 <= d < |nbrs| ==> 0 <= nbrs[d] <= |lists|
    ensures |Gathered(nbrs, lists)| == GatheredSize(nbrs, lists)
    decreases |nbrs|
  {
    if |nbrs| > 0 {
      GatheredLength(nbrs[..|nbrs| - 1], lists);
    }
  }

  /** Every entry of both nine-partition tables is 0 or another partition of the nine. */
  lemma BoidCpuTableFits(id: int)
    requires 1 <= id <= 9
    ensures NeighboursIn(Topology.BoidCpuNeighbours(id).value, 9) && id !in Topology.BoidCpuNeighbours(id).value
  {
    var row, col := (id - 1) / 3, (id - 1) % 3;
    assert id == row * 3 + col + 1;
    var t := Topology.BoidCpuNeighbours(id).value;
    forall d | 0 <= d < 8
      ensures 1 <= t[d] <= 9 && t[d] != id
    {
      Topology.BoidCpuTableEntries(row, col, d);
    }
  }

  lemma LocationTableFits(id: int)
    requires 1 <= id <= 9
    ensures NeighboursIn(Topology.LocationNeighbours(id).value, 9) && id !in Topology.LocationNeighbours(id).value
  {
    var row, col := (id - 1) / 3, (id - 1) % 3;
    assert id == row * 3 + col + 1;
    var t := Topology.LocationNeighbours(id).value;
    forall d | 0 <= d < 8
      ensures 0 <= t[d] <= 9 && t[d] != id
    {
      Topology.LocationTableSymmetric(row, col, d);
    }
  }

  class Grid {
    const cpus: array<Partition>
    const cfg: Config

    ghost function Members(): set<object>
      reads this, cpus
    {
      set k | 0 <= k < cpus.Length :: cpus[k]
    }

    ghost function Areas(): set<object>
      reads this, cpus
    {
      set k | 0 <= k < cpus.Length :: cpus[k].coords
    }

    /**
     * What never changes: partition k has id k+1, the grid's configuration
     * and a bounds array of its own.
     */
    ghost predicate Shape()
      reads this, cpus
    {
      (forall k :: 0 <= k < cpus.Length ==>
        cpus[k].id == k + 1 && cpus[k].cfg == cfg && cpus[k].coords.Length == 4) &&
      (forall i, j :: 0 <= i < j < cpus.Length ==> cpus[i].coords != cpus[j].coords)
    }

    /** The shape holds and every partition's neighbours are other partitions of the grid. */
    ghost predicate Valid()
      reads this, cpus, Members()
    {
      Shape() && Linked(Neighbours(), cpus.Length)
    }

    /** The neighbour lists of all partitions. */
    ghost function Neighbours(): (ns: seq<seq<int>>)
      reads this, cpus, Members()
      ensures |ns| == cpus.Length && forall k :: 0 <= k < cpus.Length ==> ns[k] == cpus[k].neighbours
    {
      seq(cpus.Length, k requires 0 <= k < cpus.Length reads this, cpus, Members() => cpus[k].neighbours)
    }

    /** The bounds of all partitions. */
    ghost function AllBounds(): (bs: seq<seq<int>>)
      requires Shape()
      reads this, cpus, Areas()
      ensures |bs| == cpus.Length && forall k :: 0 <= k < cpus.Length ==> bs[k] == cpus[k].Bounds()
    {
      seq(cpus.Length, k requires 0 <= k < cpus.Length && cpus[k].coords.Length == 4 reads this, cpus, Areas() =>
          cpus[k].Bounds())
    }

    /** The boid lists and counts of all partitions. */
    ghost function State(): (h: Holdings)
      reads this, cpus, Members()
      ensures Fits(h) && |h.boids| == cpus.Length
      ensures forall k :: 0 <= k < cpus.Length ==> h.boids[k] == cpus[k].boids && h.counts[k] == cpus[k].boidCount
    {
      Holdings(seq(cpus.Length, k requires 0 <= k < cpus.Length reads this, cpus, Members() => cpus[k].boids),
               seq(cpus.Length, k requires 0 <= k < cpus.Length reads this, cpus, Members() => cpus[k].boidCount))
    }

    /** The grid positions of all partitions. */
    function Positions(): (pos: seq<(int, int)>)
      reads this, cpus
      ensures |pos| == cpus.Length
      ensures forall k :: 0 <= k < cpus.Length ==> pos[k] == (cpus[k].gridRow, cpus[k].gridCol)
    {
      seq(cpus.Length, k requires 0 <= k < cpus.Length reads this, cpus => (cpus[k].gridRow, cpus[k].gridCol))
    }

    /** The minimal flags of all partitions. */
    ghost function Flags(): (fs: seq<bool>)
      reads this, cpus, Members()
      ensures |fs| == cpus.Length && forall k :: 0 <= k < cpus.Length ==> fs[k] == cpus[k].minimal
    {
      seq(cpus.Length, k requires 0 <= k < cpus.Length reads this, cpus, Members() => cpus[k].minimal)
    }

    /** The grid and its array are neither partitions nor bounds arrays, so no method here changes them. */
    lemma Apart()
      ensures this !in Members() && this !in Areas() && cpus !in Members() && cpus !in Areas()
    {
    }

    lemma ValidShaped()
      requires Valid()
      ensures Shaped(Neighbours(), AllBounds())
      ensures forall k :: 0 <= k < cpus.Length ==> cpus[k].Valid()
    {
      forall k | 0 <= k < cpus.Length ensures cpus[k].Valid() {
        assert NeighboursIn(Neighbours()[k], cpus.Length);
      }
    }

    /**
     * Construction of the nine partitions: partition i gets id i+1, grid
     * position [i / 3, i % 3], the square of the given side at column i % 3
     * and row i / 3, and boids at the given positions.
     */
    constructor (size: int, cfg: Config, positions: seq<seq<(real, real)>>)
      requires |positions| == 9
      ensures Valid() && cpus.Length == 9 && this.cfg == cfg
      ensures forall i :: 0 <= i < 9 ==>
        cpus[i].Bounds() == InitialBounds(i, size) && cpus[i].gridRow == i / 3 && cpus[i].gridCol == i % 3 &&
        |cpus[i].boids| == cpus[i].boidCount == |positions[i]| && cpus[i].neighbours == [] && !cpus[i].minimal
      ensures fresh(Members()) && fresh(Areas())
    {
      var parts: seq<Partition> := [];
      for i := 0 to 9
        invariant |parts| == i
        invariant forall j :: 0 <= j < i ==>
          parts[j].Valid() && parts[j].id == j + 1 && parts[j].cfg == cfg && parts[j].neighbours == [] &&
          parts[j].Bounds() == InitialBounds(j, size) && parts[j].gridRow == j / 3 && parts[j].gridCol == j % 3 &&
          |parts[j].boids| == parts[j].boidCount == |positions[j]| && !parts[j].minimal &&
          fresh(parts[j]) && fresh(parts[j].coords)
        invariant forall a, b :: 0 <= a < b < i ==> parts[a].coords != parts[b].coords
      {
        var p := new Partition(i + 1, InitialBounds(i, size), positions[i], i / 3, i % 3, cfg);
        parts := parts + [p];
      }
      cpus := new Partition[9](i requires 0 <= i < 9 => parts[i]);
      this.cfg := cfg;
    }

    /**
     * transfer_boid and accept_boid: partition `to` appends the boid and
     * counts one more, then partition k+1 drops every boid with its id and
     * counts one fewer; the grid-wide count is kept.
     */
    method TransferBoid(k: int, b: Boid, to: int)
      requires Valid() && 0 <= k < cpus.Length && 1 <= to <= cpus.Length
      modifies cpus[k], cpus[to - 1]
      ensures Valid() && Neighbours() == old(Neighbours()) && AllBounds() == old(AllBounds())
      ensures State() == Move(old(State()), k, b, to)
      ensures Sum(State().counts) == Sum(old(State()).counts)
    {
      ghost var h := State();
      ghost var ns := Neighbours();
      ghost var bs := AllBounds();
      cpus[to - 1].AcceptBoid(b);
      cpus[k].DropBoid(b.id);
      ghost var m := Move(h, k, b, to);
      forall j | 0 <= j < cpus.Length
        ensures cpus[j].boids == m.boids[j] && cpus[j].boidCount == m.counts[j]
        ensures cpus[j].neighbours == ns[j]
      {
        MoveAt(h, k, b, to, j);
        if j != k && j != to - 1 {
          assert cpus[j] != cpus[k] && cpus[j] != cpus[to - 1];
        }
      }
      assert State().boids == m.boids && State().counts == m.counts;
      assert Neighbours() == ns && AllBounds() == bs;
      MoveKeepsTotal(h, k, b, to);
    }

    /**
     * The body of transfer_step for one boid of partition k: the partition
     * decides where the boid goes, and the grid hands it over if it goes
     * anywhere.
     */
    method Offer(k: int, b: Boid, ghost target: Boid -> Option<int>) returns (sent: bool)
      requires Valid() && 0 <= k < cpus.Length
      requires |cpus[k].neighbours| == 0 || |cpus[k].neighbours| == 8
      requires target == TargetOf(cpus[k].neighbours, cpus[k].Bounds()) && Aims(target, cpus.Length)
      modifies Members()
      ensures Valid() && Neighbours() == old(Neighbours()) && AllBounds() == old(AllBounds())
      ensures sent <==> target(b).Some?
      ensures State() == Offered(old(State()), k, target, b)
    {
      var p := cpus[k];
      var t := TransferTarget(p.neighbours, p.Bounds(), b);
      sent := t.Some?;
      if sent {
        TransferBoid(k, b, t.value);
      }
    }

    /**
     * transfer_step for partition k as written: the loop walks the live list
     * while transfers shrink it.
     */
    method TransferStepLive(k: int)
      requires Valid() && 0 <= k < cpus.Length
      modifies Members()
      ensures Valid() && Neighbours() == old(Neighbours()) && AllBounds() == old(AllBounds())
      ensures State() == LiveRun(old(State()), k, TargetOf(Neighbours()[k], AllBounds()[k]), 0)
      ensures Sum(State().counts) == Sum(old(State()).counts)
    {
      ValidShaped();
      var p := cpus[k];
      ghost var target := TargetOf(p.neighbours, p.Bounds());
      ghost var h0 := State();
      ghost var ns := Neighbours();
      ghost var bs := AllBounds();
      TargetOfAims(p.neighbours, p.Bounds(), cpus.Length, k + 1);
      assert (k + 1) !in ns[k];
      assert target == TargetOf(ns[k], bs[k]);
      var i := 0;
      while i < |p.boids|
        invariant Valid() && 0 <= i && Neighbours() == ns && AllBounds() == bs
        invariant LiveRun(State(), k, target, i) == LiveRun(h0, k, target, 0)
        decreases |p.boids| - i
      {
        var b := p.boids[i];
        ghost var before := State();
        assert b == before.boids[k][i];
        LiveRunStep(before, k, target, i);
        var sent := Offer(k, b, target);
        assert |p.boids| == |State().boids[k]|;
        i := i + 1;
      }
      assert LiveRun(State(), k, target, i) == State();
      LiveRunKeepsTotal(h0, k, target, 0);
    }

    /**
     * transfer_step for partition k over a snapshot of its list: every boid
     * it held when the step began is examined once.
     */
    method TransferStep(k: int)
      requires Valid() && 0 <= k < cpus.Length
      modifies Members()
      ensures Valid() && Neighbours() == old(Neighbours()) && AllBounds() == old(AllBounds())
      ensures State() == SnapshotRun(old(State()), k, TargetOf(Neighbours()[k], AllBounds()[k]), old(cpus[k].boids))
      ensures Sum(State().counts) == Sum(old(State()).counts)
    {
      ValidShaped();
      var p := cpus[k];
      ghost var target := TargetOf(p.neighbours, p.Bounds());
      ghost var h0 := State();
      ghost var ns := Neighbours();
      ghost var bs := AllBounds();
      TargetOfAims(p.neighbours, p.Bounds(), cpus.Length, k + 1);
      var pending := p.boids;
      for i := 0 to |pending|
        invariant Valid() && Neighbours() == ns && AllBounds() == bs
        invariant SnapshotRun(State(), k, target, pending[i..]) == SnapshotRun(h0, k, target, pending)
      {
        var b := pending[i];
        ghost var before := State();
        assert pending[i..] == [b] + pending[i + 1..];
        var sent := Offer(k, b, target);
        assert SnapshotRun(before, k, target, pending[i..]) == SnapshotRun(State(), k, target, pending[i + 1..]);
      }
      SnapshotRunKeepsTotal(h0, k, target, pending);
    }

    /** transfer_step: every partition in id order runs the snapshot scan; the grid-wide count is kept. */
    method TransferAll()
      requires Valid()
      modifies Members()
      ensures Valid() && Neighbours() == old(Neighbours()) && AllBounds() == old(AllBounds())
      ensures State() == Sweep(old(State()), Neighbours(), AllBounds(), 0)
      ensures Sum(State().counts) == Sum(old(State()).counts)
    {
      ValidShaped();
      ghost var ns := Neighbours();
      ghost var bs := AllBounds();
      ghost var h0 := State();
      for k := 0 to cpus.Length
        invariant Valid() && Neighbours() == ns && AllBounds() == bs
        invariant Sweep(State(), ns, bs, k) == Sweep(h0, ns, bs, 0)
      {
        TransferStep(k);
      }
      SweepKeepsTotal(h0, ns, bs, 0);
    }

    /**
     * getPossibleNeighbouringBoids, and the gathering in
     * calculate_boid_neighbours: a fresh list of the partition's own boids
     * followed by those of each nonzero neighbour in table order. Nothing is
     * changed.
     */
    method PossibleNeighbouringBoids(k: int) returns (r: seq<Boid>)
      requires Valid() && 0 <= k < cpus.Length
      ensures r == cpus[k].boids + Gathered(cpus[k].neighbours, State().boids)
    {
      var nbrs := cpus[k].neighbours;
      r := cpus[k].boids;
      for d := 0 to |nbrs|
        invariant r == cpus[k].boids + Gathered(nbrs[..d], State().boids)
      {
        GatheredNext(State().boids, nbrs, d, cpus[k].boids, r);
        if nbrs[d] != 0 {
          assert State().boids[nbrs[d] - 1] == cpus[nbrs[d] - 1].boids;
          r := r + cpus[nbrs[d] - 1].boids;
        }
      }
      assert nbrs[..|nbrs|] == nbrs;
    }

    /**
     * The gathering of evaluate_boundary_change: a fresh list of partition
     * j+1's own boids followed by those of each listed neighbour, each read
     * as get_boidcpu_boids reads it (id 0 reading the last partition).
     */
    method GatherChecked(j: int, ids: seq<int>) returns (toCheck: seq<Boid>)
      requires Valid() && 0 <= j < cpus.Length
      requires forall t :: 0 <= t < |ids| ==> 0 <= ids[t] <= cpus.Length
      ensures toCheck == cpus[j].boids + Collected(State().boids, ids)
    {
      ghost var lists := State().boids;
      toCheck := cpus[j].boids;
      for t := 0 to |ids|
        invariant toCheck == cpus[j].boids + Collected(lists, ids[..t])
      {
        var idx := if ids[t] == 0 then cpus.Length - 1 else ids[t] - 1;
        CollectedNext(lists, ids, t, cpus[j].boids, toCheck);
        assert lists[idx] == cpus[idx].boids;
        toCheck := toCheck + cpus[idx].boids;
      }
      assert ids[..|ids|] == ids;
      assert lists == State().boids;
    }

    /** Partition k+1 takes the given neighbour list; nothing else changes. */
    method SetNeighbours(k: int, nbrs: seq<int>)
      requires Valid() && 0 <= k < cpus.Length
      requires NeighboursIn(nbrs, cpus.Length) && (k + 1) !in nbrs
      modifies cpus[k]
      ensures Valid() && Neighbours() == old(Neighbours())[k := nbrs]
      ensures State() == old(State()) && AllBounds() == old(AllBounds())
    {
      ghost var ns := Neighbours();
      ghost var h := State();
      ghost var bs := AllBounds();
      cpus[k].SetNeighbours(nbrs);
      forall j | 0 <= j < cpus.Length
        ensures cpus[j].neighbours == ns[k := nbrs][j]
        ensures cpus[j].boids == h.boids[j] && cpus[j].boidCount == h.counts[j]
      {
        if j != k {
          assert cpus[j] != cpus[k];
        }
      }
      assert Neighbours() == ns[k := nbrs];
      assert State().boids == h.boids && State().counts == h.counts;
      assert AllBounds() == bs;
      LinkedUpdate(ns, cpus.Length, k, nbrs);
    }

    /**
     * The flocking loop of update for partition k+1: its first n boids are
     * replaced by their updated selves; nothing else changes.
     */
    method UpdateOwn(k: int, n: int, possible: seq<Boid>, move: (Boid, seq<Boid>) -> Boid)
      requires Valid() && 0 <= k < cpus.Length && n <= |cpus[k].boids|
      modifies cpus[k]
      ensures Valid() && Neighbours() == old(Neighbours()) && AllBounds() == old(AllBounds())
      ensures State() == old(State()).(boids := old(State()).boids[k := Updated(old(cpus[k].boids), n, possible, move)])
    {
      ghost var ns := Neighbours();
      ghost var h := State();
      ghost var bs := AllBounds();
      ghost var u := Updated(cpus[k].boids, n, possible, move);
      cpus[k].UpdateBoids(n, possible, move);
      forall j | 0 <= j < cpus.Length
        ensures cpus[j].neighbours == ns[j]
        ensures cpus[j].boids == h.boids[k := u][j] && cpus[j].boidCount == h.counts[j]
      {
        if j != k {
          assert cpus[j] != cpus[k];
        }
      }
      assert Neighbours() == ns;
      assert State().boids == h.boids[k := u] && State().counts == h.counts;
      assert AllBounds() == bs;
    }

    /**
     * calculate_boid_neighbours: the partition reads its row of the
     * wrap-around table, then gathers its own and its neighbours' boids.
     */
    method CalculateBoidNeighbours(k: int) returns (possible: seq<Boid>)
      requires Valid() && cpus.Length == 9 && 0 <= k < 9
      modifies cpus[k]
      ensures Valid() && State() == old(State())
      ensures cpus[k].neighbours == Topology.BoidCpuNeighbours(k + 1).value
      ensures possible == cpus[k].boids + Gathered(cpus[k].neighbours, State().boids)
    {
      BoidCpuTableFits(k + 1);
      SetNeighbours(k, Topology.BoidCpuNeighbours(k + 1).value);
      possible := PossibleNeighbouringBoids(k);
    }

    /**
     * The first half of update: partition k+1 takes its neighbour list,
     * gathers the possible neighbouring boids and updates its first
     * boidCount boids with the flocking rule `move`.
     */
    method Flock(k: int, nbrs: seq<int>, move: (Boid, seq<Boid>) -> Boid)
      requires Valid() && 0 <= k < cpus.Length && cpus[k].boidCount <= |cpus[k].boids|
      requires NeighboursIn(nbrs, cpus.Length) && (k + 1) !in nbrs
      modifies cpus[k]
      ensures Valid() && Neighbours() == old(Neighbours())[k := nbrs] && AllBounds() == old(AllBounds())
      ensures State() == old(State()).(boids := old(State()).boids[k :=
                Updated(old(cpus[k].boids), old(cpus[k].boidCount), old(cpus[k].boids) + Gathered(nbrs, old(State()).boids), move)])
    {
      ghost var h := State();
      ghost var own := cpus[k].boids;
      SetNeighbours(k, nbrs);
      assert cpus[k].neighbours == Neighbours()[k] == nbrs;
      assert State() == h && cpus[k].boids == own;
      var possible := PossibleNeighbouringBoids(k);
      assert State() == h;
      assert cpus[k].neighbours == nbrs;
      var n := cpus[k].boidCount;
      UpdateOwn(k, n, possible, move);
    }

    /**
     * update of the oldest generation (Location and its BoidCPU successor),
     * outside draw mode: the partition flocks, signals overload (where the
     * generation does) when its count is at least the threshold, and then
     * hands over the boids that left, scanning a snapshot of its list.
     */
    method Update(k: int, nbrs: seq<int>, move: (Boid, seq<Boid>) -> Boid, checksLoad: bool)
      returns (overloaded: bool)
      requires Valid() && 0 <= k < cpus.Length && cpus[k].boidCount <= |cpus[k].boids|
      requires NeighboursIn(nbrs, cpus.Length) && (k + 1) !in nbrs
      modifies Members()
      ensures Valid() && Neighbours() == old(Neighbours())[k := nbrs]
      ensures overloaded <==> checksLoad && old(cpus[k].boidCount) >= cfg.boidThreshold
      ensures var u := Updated(old(cpus[k].boids), old(cpus[k].boidCount),
                               old(cpus[k].boids) + Gathered(nbrs, old(State()).boids), move);
              State() == SnapshotRun(old(State()).(boids := old(State()).boids[k := u]), k, TargetOf(nbrs, AllBounds()[k]), u)
      ensures Sum(State().counts) == Sum(old(State()).counts)
    {
      ghost var ns := Neighbours();
      Flock(k, nbrs, move);
      overloaded := checksLoad && cpus[k].boidCount >= cfg.boidThreshold;
      TransferStep(k);
    }
  
    /**
     * change_bounds of partition i+1 called from the grid: its bounds move
     * as ChangeBounds says and its minimal flag clears; no other partition
     * changes.
     */
    method ChangeBoundsOf(i: int, e: int, s: int, over: (int, int))
      requires Valid() && 0 <= i < cpus.Length && IsEdge(e)
      modifies Members(), Areas()
      ensures Valid() && State() == old(State()) && Neighbours() == old(Neighbours())
      ensures AllBounds() == old(AllBounds())[i := MovedEdge(old(AllBounds())[i], e,
                Shrinks(e, cpus[i].gridRow, cpus[i].gridCol, over.0, over.1), s, cfg.stepSize)]
      ensures Flags() == old(Flags())[i := false] && Positions() == old(Positions())
    {
      ValidShaped();
      ghost var h := State();
      ghost var ns := Neighbours();
      ghost var bs := AllBounds();
      ghost var fs := Flags();
      ghost var moved := MovedEdge(bs[i], e, Shrinks(e, cpus[i].gridRow, cpus[i].gridCol, over.0, over.1), s, cfg.stepSize);
      cpus[i].ChangeBounds(e, s, over);
      forall j | 0 <= j < cpus.Length
        ensures cpus[j].boids == h.boids[j] && cpus[j].boidCount == h.counts[j] && cpus[j].neighbours == ns[j]
        ensures cpus[j].Bounds() == bs[i := moved][j] && cpus[j].minimal == fs[i := false][j]
      {
        if j != i {
          assert cpus[j] != cpus[i] && cpus[j].coords != cpus[i].coords;
        }
      }
      assert State().boids == h.boids && State().counts == h.counts;
      assert Neighbours() == ns && AllBounds() == bs[i := moved];
      assert Flags() == fs[i := false];
    }

    /**
     * The inner loop of boidcpu_overloaded for edge e: change_bounds on every
     * partition of the edge's list, in list order. A partition whose bounds
     * had the edges before e moved now has edge e moved too, and has lost
     * its minimal flag if that edge moved.
     */
    method ApplyEdge(e: int, list: seq<(int, int)>, over: (int, int), req: seq<int>,
                     ghost bs: seq<seq<int>>, ghost fs: seq<bool>)
      requires Valid() && IsEdge(e) && |req| == 4
      requires list == ByEdge(Positions(), over, req, e, cpus.Length)
      requires AtStage(AllBounds(), Flags(), bs, fs, Positions(), over, req, cfg.stepSize, e)
      modifies Members(), Areas()
      ensures Valid() && State() == old(State()) && Neighbours() == old(Neighbours())
      ensures Positions() == old(Positions())
      ensures AtStage(AllBounds(), Flags(), bs, fs, Positions(), over, req, cfg.stepSize, e + 1)
    {
      ghost var pos := Positions();
      ghost var h := State();
      ghost var ns := Neighbours();
      StageStart(AllBounds(), Flags(), bs, fs, pos, over, req, cfg.stepSize, e, list);
      for i := 0 to |list|
        invariant Valid() && State() == h && Neighbours() == ns
        invariant MidStage(AllBounds(), Flags(), bs, fs, pos, over, req, cfg.stepSize, e, list, i)
        invariant Positions() == pos
      {
        var k := list[i].0 - 1;
        ghost var b0 := AllBounds();
        ghost var f0 := Flags();
        StageStep(b0, f0, bs, fs, pos, over, req, cfg.stepSize, e, list, i);
        ChangeBoundsOf(k, e, list[i].1, over);
        assert Positions() == pos;
        assert AllBounds() == b0[k := MovedEdge(b0[k], e, Shrinks(e, pos[k].0, pos[k].1, over.0, over.1), list[i].1, cfg.stepSize)];
        assert Flags() == f0[k := false];
      }
      StageEnd(AllBounds(), Flags(), bs, fs, pos, over, req, cfg.stepSize, e, list);
    }

    /**
     * The edge loop of boidcpu_overloaded: the lists of the four edges
     * applied in edge order. Every partition ends with its rebounded
     * rectangle, and loses its minimal flag exactly when its own list of
     * edge changes is not empty; the boids and neighbours stay as they were.
     */
    method ApplyChanges(byEdge: seq<seq<(int, int)>>, over: (int, int), req: seq<int>)
      requires Valid() && |req| == 4
      requires |byEdge| == 4 && forall e :: IsEdge(e) ==> byEdge[e] == ByEdge(Positions(), over, req, e, cpus.Length)
      modifies Members(), Areas()
      ensures Valid() && State() == old(State()) && Neighbours() == old(Neighbours()) && Positions() == old(Positions())
      ensures Rebalanced(AllBounds(), Flags(), old(AllBounds()), old(Flags()), Positions(), over, req, cfg.stepSize, true)
    {
      ValidShaped();
      ghost var pos := Positions();
      ghost var h := State();
      ghost var ns := Neighbours();
      ghost var bs := AllBounds();
      ghost var fs := Flags();
      Apart();
      StageZero(bs, fs, pos, over, req, cfg.stepSize);
      for e := 0 to 4
        invariant Valid() && State() == h && Neighbours() == ns && Positions() == pos
        invariant AtStage(AllBounds(), Flags(), bs, fs, pos, over, req, cfg.stepSize, e)
      {
        ApplyEdge(e, byEdge[e], over, req, bs, fs);
      }
      StageFinal(AllBounds(), Flags(), bs, fs, pos, over, req, cfg.stepSize);
    }

    /**
     * The negotiation of boidcpu_overloaded under strategy 3: every
     * partition evaluates its own list of edge changes, giving its current
     * count and its predicted count. Nothing is changed.
     */
    method EvaluateAll(byCpu: seq<seq<(int, int)>>, over: (int, int), req: seq<int>) returns (news: seq<int>)
      requires Valid() && |req| == 4 && |byCpu| == cpus.Length
      requires forall j :: 0 <= j < cpus.Length ==> byCpu[j] == EntriesFor(cpus[j].gridRow, cpus[j].gridCol, over.0, over.1, req)
      requires forall j :: 0 <= j < cpus.Length ==> |cpus[j].neighbours| == 8
      ensures State() == old(State()) && Neighbours() == old(Neighbours()) && AllBounds() == old(AllBounds())
      ensures Wired(Neighbours(), AllBounds(), cpus.Length)
      ensures news == Predictions(State().boids, Neighbours(), AllBounds(), Positions(), over, req, cfg.stepSize)
    {
      ValidShaped();
      ghost var h := State();
      ghost var ns := Neighbours();
      ghost var bs := AllBounds();
      ghost var pos := Positions();
      assert forall j :: 0 <= j < cpus.Length ==> NeighboursIn(ns[j], cpus.Length) && |ns[j]| == 8;
      assert Wired(ns, bs, cpus.Length);
      ghost var f := PredictedOf(h.boids, ns, bs, pos, over, req, cfg.stepSize);
      news := [];
      for j := 0 to cpus.Length
        invariant Valid() && State() == h && Neighbours() == ns && AllBounds() == bs && Positions() == pos
        invariant news == Prefix(f, j)
      {
        var counter := EvaluateOne(j, byCpu[j], over, req);
        assert counter == f(j);
        news := news + [counter];
      }
      assert Positions() == pos;
      assert news == Predictions(h.boids, ns, bs, pos, over, req, cfg.stepSize);
    }

    /** One pass of the negotiation loop: partition j evaluates its own list and predicts its count. */
    method EvaluateOne(j: int, requests: seq<(int, int)>, over: (int, int), req: seq<int>) returns (counter: int)
      requires Valid() && |req| == 4 && 0 <= j < cpus.Length
      requires requests == EntriesFor(cpus[j].gridRow, cpus[j].gridCol, over.0, over.1, req)
      requires Wired(Neighbours(), AllBounds(), cpus.Length)
      ensures Valid() && State() == old(State()) && Neighbours() == old(Neighbours()) && AllBounds() == old(AllBounds())
      ensures Positions() == old(Positions())
      ensures counter == PredictedOf(State().boids, Neighbours(), AllBounds(), Positions(), over, req, cfg.stepSize)(j)
    {
      ghost var h := State();
      ghost var ns := Neighbours();
      ghost var bs := AllBounds();
      ghost var pos := Positions();
      assert requests == EntriesFor(pos[j].0, pos[j].1, over.0, over.1, req);
      EntriesAreEdges(pos[j].0, pos[j].1, over.0, over.1, req);
      assert |ns[j]| == 8 && cpus[j].neighbours == ns[j];
      var current;
      current, counter := EvaluateBoundaryChange(j, requests, over);
      EvaluationPredicts(h.boids, ns, bs, pos, over, req, cfg.stepSize, j, counter);
    }

    /**
     * The decision of boidcpu_overloaded: under strategy 3 the change is
     * refused when the number of predicted counts above 110% of the
     * threshold is not zero; the other strategies always allow it. Nothing
     * is changed.
     */
    method Decide(byCpu: seq<seq<(int, int)>>, over: (int, int), req: seq<int>) returns (allow: bool)
      requires Valid() && |req| == 4 && |byCpu| == cpus.Length
      requires forall j :: 0 <= j < cpus.Length ==> byCpu[j] == EntriesFor(cpus[j].gridRow, cpus[j].gridCol, over.0, over.1, req)
      requires cfg.loadBalanceType == 3 ==> forall j :: 0 <= j < cpus.Length ==> |cpus[j].neighbours| == 8
      ensures State() == old(State()) && Neighbours() == old(Neighbours()) && AllBounds() == old(AllBounds())
      ensures Positions() == old(Positions()) && Flags() == old(Flags())
      ensures cfg.loadBalanceType == 3 ==> forall j :: 0 <= j < cpus.Length ==>
        |Neighbours()[j]| == 8 && forall d :: 0 <= d < 8 ==> 0 <= Neighbours()[j][d] <= cpus.Length
      ensures allow <==> Allowed(State().boids, Neighbours(), AllBounds(), Positions(), over, req, cfg)
    {
      allow := true;
      if cfg.loadBalanceType == 3 {
        var news := EvaluateAll(byCpu, over, req);
        if OverloadedCount(news, cfg.boidThreshold) > 0 {
          allow := false;
        }
      } else {
        ValidShaped();
      }
    }

    /**
     * boidcpu_overloaded for partition k+1 with its requested change (None
     * when it asked for the default one). The change goes through unless,
     * under strategy 3, some partition would then hold more than 110% of the
     * threshold; when it goes through every partition takes its rebounded
     * rectangle and those whose bounds change lose their minimal flag.
     * Whether it went through is returned.
     */
    method BoidcpuOverloaded(k: int, requested: Option<seq<int>>) returns (allow: bool)
      requires Valid() && 0 <= k < cpus.Length
      requires requested.Some? ==> |requested.value| == 4
      requires cfg.loadBalanceType == 3 ==> forall j :: 0 <= j < cpus.Length ==> |cpus[j].neighbours| == 8
      modifies Members(), Areas()
      ensures Valid() && State() == old(State()) && Neighbours() == old(Neighbours())
      ensures var over := (cpus[k].gridRow, cpus[k].gridCol);
        var req := RequestOf(requested, old(AllBounds())[k], over.0, over.1, cfg);
        (allow <==> Allowed(old(State()).boids, old(Neighbours()), old(AllBounds()), Positions(), over, req, cfg)) &&
        Rebalanced(AllBounds(), Flags(), old(AllBounds()), old(Flags()), Positions(), over, req, cfg.stepSize, allow)
    {
      ghost var bs := AllBounds();
      var over := (cpus[k].gridRow, cpus[k].gridCol);
      var req, byEdge, byCpu := IdentifyAffected(k, requested);
      assert req == RequestOf(requested, bs[k], over.0, over.1, cfg);
      allow := Rebalance(byEdge, byCpu, over, req);
    }

    /**
     * The second half of boidcpu_overloaded, once the lists of edge changes
     * are known: decide whether the change may go through and, if so, apply
     * it to every partition.
     */
    method Rebalance(byEdge: seq<seq<(int, int)>>, byCpu: seq<seq<(int, int)>>, over: (int, int), req: seq<int>)
      returns (allow: bool)
      requires Valid() && |req| == 4
      requires |byEdge| == 4 && forall e :: IsEdge(e) ==> byEdge[e] == ByEdge(Positions(), over, req, e, cpus.Length)
      requires |byCpu| == cpus.Length && forall j :: 0 <= j < cpus.Length ==>
        byCpu[j] == EntriesFor(cpus[j].gridRow, cpus[j].gridCol, over.0, over.1, req)
      requires cfg.loadBalanceType == 3 ==> forall j :: 0 <= j < cpus.Length ==> |cpus[j].neighbours| == 8
      modifies Members(), Areas()
      ensures Valid() && State() == old(State()) && Neighbours() == old(Neighbours()) && Positions() == old(Positions())
      ensures allow <==> Allowed(old(State()).boids, old(Neighbours()), old(AllBounds()), Positions(), over, req, cfg)
      ensures Rebalanced(AllBounds(), Flags(), old(AllBounds()), old(Flags()), Positions(), over, req, cfg.stepSize, allow)
    {
      ValidShaped();
      ghost var bs := AllBounds();
      ghost var fs := Flags();
      ghost var pos := Positions();
      allow := Decide(byCpu, over, req);
      if allow {
        ApplyChanges(byEdge, over, req);
      } else {
        Refused(bs, fs, pos, over, req, cfg.stepSize);
      }
    }

    /**
     * identify_affected_boidcpus for the overloaded partition k+1: the
     * request (its own or the default one), the list of [id, steps] pairs of
     * every edge and the list of [edge, steps] pairs of every partition, both
     * built in one pass over the partitions in id order.
     */
    method IdentifyAffected(k: int, requested: Option<seq<int>>)
      returns (req: seq<int>, byEdge: seq<seq<(int, int)>>, byCpu: seq<seq<(int, int)>>)
      requires Valid() && 0 <= k < cpus.Length
      requires requested.Some? ==> |requested.value| == 4
      ensures State() == old(State()) && Neighbours() == old(Neighbours()) && AllBounds() == old(AllBounds())
      ensures req == RequestOf(requested, AllBounds()[k], cpus[k].gridRow, cpus[k].gridCol, cfg)
      ensures |byEdge| == 4 && forall e :: IsEdge(e) ==>
        byEdge[e] == ByEdge(Positions(), (cpus[k].gridRow, cpus[k].gridCol), req, e, cpus.Length)
      ensures |byCpu| == cpus.Length && forall j :: 0 <= j < cpus.Length ==>
        byCpu[j] == EntriesFor(cpus[j].gridRow, cpus[j].gridCol, cpus[k].gridRow, cpus[k].gridCol, req)
    {
      var row, col := cpus[k].gridRow, cpus[k].gridCol;
      assert cpus[k].Bounds() == AllBounds()[k];
      req := RequestOf(requested, cpus[k].Bounds(), row, col, cfg);
      var pos := Positions();
      byEdge, byCpu := AffectedLists(pos, row, col, req);
    }

    /**
     * evaluate_boundary_change of partition j+1 for its list of requested
     * edge changes: the number of boids it holds, and the number of boids,
     * among its own and those of the neighbours the moving edges border,
     * that lie within its bounds once the list is applied to a copy of them.
     */
    method EvaluateBoundaryChange(j: int, requests: seq<(int, int)>, over: (int, int)) returns (current: int, counter: int)
      requires Valid() && 0 <= j < cpus.Length
      requires forall i :: 0 <= i < |requests| ==> IsEdge(requests[i].0)
      requires requests != [] ==> |cpus[j].neighbours| == 8
      ensures Valid() && State() == old(State()) && Neighbours() == old(Neighbours()) && AllBounds() == old(AllBounds())
      ensures current == |cpus[j].boids|
      ensures requests != [] ==> forall d :: 0 <= d < 8 ==> 0 <= cpus[j].neighbours[d] <= cpus.Length
      ensures counter == CountWithin(Checked(State().boids, cpus[j].neighbours, requests, j),
                                     ApplyEntries(AllBounds()[j], requests, cpus[j].gridRow, cpus[j].gridCol, over, cfg.stepSize))
    {
      ValidShaped();
      var p := cpus[j];
      assert NeighboursIn(Neighbours()[j], cpus.Length);
      ghost var lists := State().boids;
      ghost var bs := AllBounds()[j];
      var flags := FlagEdges(requests);
      var ids: seq<int> := [];
      if requests != [] {
        ids := AffectedIds(flags, p.neighbours);
        AffectedIdsIn(flags, p.neighbours, cpus.Length);
      }
      var tmp := TempBounds(p.coords[..], requests, p.gridRow, p.gridCol, over, cfg.stepSize);
      var toCheck := GatherChecked(j, ids);
      assert State().boids == lists;
      assert toCheck == lists[j] + Collected(lists, ids);
      counter := CountInside(toCheck, tmp);
      assert State().boids == lists;
      assert AllBounds()[j] == bs;
      if requests == [] {
        assert toCheck == lists[j] + [];
      }
      assert toCheck == Checked(lists, p.neighbours, requests, j);
      current := |p.boids|;
    }
  }

  /** The edge_changes list of evaluate_boundary_change: which edges the requests name. */
  method FlagEdges(requests: seq<(int, int)>) returns (flags: seq<bool>)
    requires forall i :: 0 <= i < |requests| ==> IsEdge(requests[i].0)
    ensures flags == EdgeFlags(requests)
  {
    flags := [false, false, false, false];
    for i := 0 to |requests|
      invariant flags == EdgeFlags(requests[..i])
    {
      assert requests[..i + 1][..i] == requests[..i];
      flags := flags[requests[i].0 := true];
    }
    assert requests[..|requests|] == requests;
  }

  /**
   * The temporary bounds of evaluate_boundary_change: each requested edge
   * moved on a copy of the bounds, inwards in the overloaded partition's row
   * (top and bottom) or column (right and left) and outwards elsewhere.
   */
  method TempBounds(c: seq<int>, requests: seq<(int, int)>, row: int, col: int, over: (int, int), step: int)
    returns (tmp: seq<int>)
    requires |c| == 4 && forall i :: 0 <= i < |requests| ==> IsEdge(requests[i].0)
    ensures tmp == ApplyEntries(c, requests, row, col, over, step)
  {
    tmp := c;
    for i := 0 to |requests|
      invariant tmp == ApplyEntries(c, requests[..i], row, col, over, step)
    {
      assert requests[..i + 1][..i] == requests[..i];
      var e, s := requests[i].0, requests[i].1;
      if over.0 == row {
        if e == TOP || e == BOTTOM {
          tmp := MovedEdge(tmp, e, true, s, step);
        }
      } else {
        if e == TOP || e == BOTTOM {
          tmp := MovedEdge(tmp, e, false, s, step);
        }
      }
      if over.1 == col {
        if e == RIGHT || e == LEFT {
          tmp := MovedEdge(tmp, e, true, s, step);
        }
      } else {
        if e == RIGHT || e == LEFT {
          tmp := MovedEdge(tmp, e, false, s, step);
        }
      }
    }
    assert requests[..|requests|] == requests;
  }

  /** The counting loop of evaluate_boundary_change: boids within the closed rectangle. */
  method CountInside(bs: seq<Boid>, c: seq<int>) returns (counter: int)
    requires |c| == 4
    ensures counter == CountWithin(bs, c)
  {
    counter := 0;
    for t := 0 to |bs|
      invariant counter == CountWithin(bs[..t], c)
    {
      assert bs[..t + 1][..t] == bs[..t];
      var b := bs[t];
      if b.x >= c[X_MIN] as real && b.x <= c[X_MAX] as real {
        if b.y >= c[Y_MIN] as real && b.y <= c[Y_MAX] as real {
          counter := counter + 1;
        }
      }
    }
    assert bs[..|bs|] == bs;
  }

  /**
   * The pass of identify_affected_boidcpus over the partitions in id order
   * (partition j+1 at grid position pos[j]) for a given request.
   */
  method AffectedLists(pos: seq<(int, int)>, row: int, col: int, req: seq<int>)
    returns (byEdge: seq<seq<(int, int)>>, byCpu: seq<seq<(int, int)>>)
    requires |req| == 4
    ensures |byEdge| == 4 && forall e :: IsEdge(e) ==> byEdge[e] == ByEdge(pos, (row, col), req, e, |pos|)
    ensures |byCpu| == |pos| && forall j :: 0 <= j < |pos| ==> byCpu[j] == EntriesFor(pos[j].0, pos[j].1, row, col, req)
  {
    ghost var want := seq(|pos|, t requires 0 <= t < |pos| => EntriesFor(pos[t].0, pos[t].1, row, col, req));
    var top, right, bottom, left := [], [], [], [];
    byCpu := [];
    for j := 0 to |pos|
      invariant top == ByEdge(pos, (row, col), req, TOP, j) && right == ByEdge(pos, (row, col), req, RIGHT, j)
      invariant bottom == ByEdge(pos, (row, col), req, BOTTOM, j) && left == ByEdge(pos, (row, col), req, LEFT, j)
      invariant byCpu == want[..j]
    {
      var mine;
      top, right, bottom, left, mine := Examine(pos, j, j + 1, pos[j].0, pos[j].1, row, col, req,
                                                top, right, bottom, left);
      assert mine == want[j];
      TakeNext(want, j);
      byCpu := byCpu + [mine];
    }
    WholeSlice(want);
    byEdge := [top, right, bottom, left];
    forall e | IsEdge(e) ensures byEdge[e] == ByEdge(pos, (row, col), req, e, |pos|) {
      assert e == TOP || e == RIGHT || e == BOTTOM || e == LEFT;
    }
  }

  /**
   * The body of the loop of identify_affected_boidcpus for one partition
   * (id, at grid position (r, c)): the eight tests in source order, each
   * appending to one per-edge list and to the partition's own list; each
   * per-edge list gains at most one pair.
   */
  method Examine(ghost pos: seq<(int, int)>, ghost j: int, id: int, r: int, c: int, row: int, col: int, req: seq<int>,
                 top0: seq<(int, int)>, right0: seq<(int, int)>, bottom0: seq<(int, int)>, left0: seq<(int, int)>)
    returns (top: seq<(int, int)>, right: seq<(int, int)>, bottom: seq<(int, int)>, left: seq<(int, int)>,
             mine: seq<(int, int)>)
    requires |req| == 4 && 0 <= j < |pos| && pos[j] == (r, c) && id == j + 1
    requires top0 == ByEdge(pos, (row, col), req, TOP, j) && right0 == ByEdge(pos, (row, col), req, RIGHT, j)
    requires bottom0 == ByEdge(pos, (row, col), req, BOTTOM, j) && left0 == ByEdge(pos, (row, col), req, LEFT, j)
    ensures top == ByEdge(pos, (row, col), req, TOP, j + 1) && right == ByEdge(pos, (row, col), req, RIGHT, j + 1)
    ensures bottom == ByEdge(pos, (row, col), req, BOTTOM, j + 1) && left == ByEdge(pos, (row, col), req, LEFT, j + 1)
    ensures mine == EntriesFor(r, c, row, col, req)
  {
    var top1, right1, bottom1, left1, mine1 := ExamineAcross(id, r, c, row, col, req, top0, right0, bottom0, left0);
    top, right, bottom, left, mine := ExamineOwn(id, r, c, row, col, req, top1, right1, bottom1, left1, mine1);
    OptPair(top0, req[BOTTOM] != 0 && r == row + 1, (id, req[BOTTOM]), req[TOP] != 0 && r == row, (id, req[TOP]),
            StepsFor(TOP, r, c, row, col, req) != 0, (id, StepsFor(TOP, r, c, row, col, req)));
    OptPair(right0, req[LEFT] != 0 && c == col - 1, (id, req[LEFT]), req[RIGHT] != 0 && c == col, (id, req[RIGHT]),
            StepsFor(RIGHT, r, c, row, col, req) != 0, (id, StepsFor(RIGHT, r, c, row, col, req)));
    OptPair(bottom0, req[TOP] != 0 && r == row - 1, (id, req[TOP]), req[BOTTOM] != 0 && r == row, (id, req[BOTTOM]),
            StepsFor(BOTTOM, r, c, row, col, req) != 0, (id, StepsFor(BOTTOM, r, c, row, col, req)));
    OptPair(left0, req[RIGHT] != 0 && c == col + 1, (id, req[RIGHT]), req[LEFT] != 0 && c == col, (id, req[LEFT]),
            StepsFor(LEFT, r, c, row, col, req) != 0, (id, StepsFor(LEFT, r, c, row, col, req)));
    ByEdgeNext(pos, (row, col), req, TOP, j, top0, top);
    ByEdgeNext(pos, (row, col), req, RIGHT, j, right0, right);
    ByEdgeNext(pos, (row, col), req, BOTTOM, j, bottom0, bottom);
    ByEdgeNext(pos, (row, col), req, LEFT, j, left0, left);
  }

  /** Two tests of which at most one holds append what the test that holds appends. */
  lemma OptPair(s: seq<(int, int)>, c1: bool, x1: (int, int), c2: bool, x2: (int, int), c: bool, x: (int, int))
    requires !(c1 && c2) && (c <==> c1 || c2) && (c1 ==> x == x1) && (c2 ==> x == x2)
    ensures s + Opt(c1, x1) + Opt(c2, x2) == s + Opt(c, x)
  {
    if !c1 {
      assert s + Opt(c1, x1) == s;
    } else {
      assert Opt(c2, x2) == [];
    }
  }

  /** The first four tests: the neighbouring rows and columns move the edge facing the request. */
  method ExamineAcross(id: int, r: int, c: int, row: int, col: int, req: seq<int>,
                       top0: seq<(int, int)>, right0: seq<(int, int)>, bottom0: seq<(int, int)>, left0: seq<(int, int)>)
    returns (top: seq<(int, int)>, right: seq<(int, int)>, bottom: seq<(int, int)>, left: seq<(int, int)>,
             mine: seq<(int, int)>)
    requires |req| == 4
    ensures bottom == bottom0 + Opt(req[TOP] != 0 && r == row - 1, (id, req[TOP]))
    ensures left == left0 + Opt(req[RIGHT] != 0 && c == col + 1, (id, req[RIGHT]))
    ensures top == top0 + Opt(req[BOTTOM] != 0 && r == row + 1, (id, req[BOTTOM]))
    ensures right == right0 + Opt(req[LEFT] != 0 && c == col - 1, (id, req[LEFT]))
    ensures mine == Opt(req[TOP] != 0 && r == row - 1, (BOTTOM, req[TOP])) +
                    Opt(req[RIGHT] != 0 && c == col + 1, (LEFT, req[RIGHT])) +
                    Opt(req[BOTTOM] != 0 && r == row + 1, (TOP, req[BOTTOM])) +
                    Opt(req[LEFT] != 0 && c == col - 1, (RIGHT, req[LEFT]))
  {
    top, right, bottom, left := top0, right0, bottom0, left0;
    mine := [];
    if req[TOP] != 0 && r == row - 1 {
      bottom := bottom + [(id, req[TOP])];
      mine := mine + [(BOTTOM, req[TOP])];
    }
    if req[RIGHT] != 0 && c == col + 1 {
      left := left + [(id, req[RIGHT])];
      mine := mine + [(LEFT, req[RIGHT])];
    }
    if req[BOTTOM] != 0 && r == row + 1 {
      top := top + [(id, req[BOTTOM])];
      mine := mine + [(TOP, req[BOTTOM])];
    }
    if req[LEFT] != 0 && c == col - 1 {
      right := right + [(id, req[LEFT])];
      mine := mine + [(RIGHT, req[LEFT])];
    }
  }

  /** The last four tests: the overloaded row and column move the requested edges themselves. */
  method ExamineOwn(id: int, r: int, c: int, row: int, col: int, req: seq<int>,
                    top0: seq<(int, int)>, right0: seq<(int, int)>, bottom0: seq<(int, int)>, left0: seq<(int, int)>,
                    mine0: seq<(int, int)>)
    returns (top: seq<(int, int)>, right: seq<(int, int)>, bottom: seq<(int, int)>, left: seq<(int, int)>,
             mine: seq<(int, int)>)
    requires |req| == 4
    ensures top == top0 + Opt(req[TOP] != 0 && r == row, (id, req[TOP]))
    ensures right == right0 + Opt(req[RIGHT] != 0 && c == col, (id, req[RIGHT]))
    ensures bottom == bottom0 + Opt(req[BOTTOM] != 0 && r == row, (id, req[BOTTOM]))
    ensures left == left0 + Opt(req[LEFT] != 0 && c == col, (id, req[LEFT]))
    ensures mine == mine0 + Opt(req[TOP] != 0 && r == row, (TOP, req[TOP])) +
                    Opt(req[RIGHT] != 0 && c == col, (RIGHT, req[RIGHT])) +
                    Opt(req[BOTTOM] != 0 && r == row, (BOTTOM, req[BOTTOM])) +
                    Opt(req[LEFT] != 0 && c == col, (LEFT, req[LEFT]))
  {
    top, right, bottom, left := top0, right0, bottom0, left0;
    mine := mine0;
    if req[TOP] != 0 && r == row {
      top := top + [(id, req[TOP])];
      mine := mine + [(TOP, req[TOP])];
    }
    if req[RIGHT] != 0 && c == col {
      right := right + [(id, req[RIGHT])];
      mine := mine + [(RIGHT, req[RIGHT])];
    }
    if req[BOTTOM] != 0 && r == row {
      bottom := bottom + [(id, req[BOTTOM])];
      mine := mine + [(BOTTOM, req[BOTTOM])];
    }
    if req[LEFT] != 0 && c == col {
      left := left + [(id, req[LEFT])];
      mine := mine + [(LEFT, req[LEFT])];
    }
  }
}
