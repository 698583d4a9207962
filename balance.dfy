// The load balancing of the Python simulation at the level of values: the
// request an overloaded partition makes, the per-edge lists the grid builds
// from it and why they agree with the per-partition lists, the bounds every
// partition ends with, and the boid counts the negotiated strategy predicts
// before it lets a change through.
module Balance {
  import opened Common
  import opened Migration
  import opened Planner
  import opened Affected

  /**
   * The request identify_affected_boidcpus works with: the partition's own
   * when it supplies one, the default one-step request otherwise.
   */
  function RequestOf(requested: Option<seq<int>>, c: seq<int>, row: int, col: int, cfg: Config): (req: seq<int>)
    requires |c| == 4 && (requested.Some? ==> |requested.value| == 4)
    ensures |req| == 4
  {
    if requested.Some? then requested.value else DefaultRequest(c, row, col, cfg)
  }

  // ---------------------------------------------------------------------
  // The per-edge lists (boidcpus_to_change).

  /** The [id, steps] pair partition j+1 adds to the list of edge e, if it moves that edge. */
  function EdgeEntry(pos: seq<(int, int)>, over: (int, int), req: seq<int>, e: int, j: int): seq<(int, int)>
    requires |req| == 4 && IsEdge(e) && 0 <= j < |pos|
  {
    var s := StepsFor(e, pos[j].0, pos[j].1, over.0, over.1, req);
    Opt(s != 0, (j + 1, s))
  }

  /**
   * The list of edge e after the first m partitions (at grid positions pos)
   * have been examined.
   */
  function ByEdge(pos: seq<(int, int)>, over: (int, int), req: seq<int>, e: int, m: nat): seq<(int, int)>
    requires |req| == 4 && IsEdge(e) && m <= |pos|
  {
    if m == 0 then [] else ByEdge(pos, over, req, e, m - 1) + EdgeEntry(pos, over, req, e, m - 1)
  }

  /**
   * The list of edge e names partition id with s steps exactly when s is the
   * nonzero number of steps StepsFor gives that partition's edge e; the ids
   * rise strictly along the list.
   */
  lemma ByEdgeMembers(pos: seq<(int, int)>, over: (int, int), req: seq<int>, e: int, m: nat)
    requires |req| == 4 && IsEdge(e) && m <= |pos|
    ensures forall id, s :: (id, s) in ByEdge(pos, over, req, e, m) <==>
      1 <= id <= m && s == StepsFor(e, pos[id - 1].0, pos[id - 1].1, over.0, over.1, req) && s != 0
    ensures IdsRise(ByEdge(pos, over, req, e, m), m)
  {
    ByEdgeMembership(pos, over, req, e, m);
    ByEdgeRise(pos, over, req, e, m);
  }

  lemma {:induction false} ByEdgeMembership(pos: seq<(int, int)>, over: (int, int), req: seq<int>, e: int, m: nat)
    requires |req| == 4 && IsEdge(e) && m <= |pos|
    ensures forall id, s :: (id, s) in ByEdge(pos, over, req, e, m) <==>
      1 <= id <= m && s == StepsFor(e, pos[id - 1].0, pos[id - 1].1, over.0, over.1, req) && s != 0
  {
    if m > 0 {
      var r0 := ByEdge(pos, over, req, e, m - 1);
      var o := EdgeEntry(pos, over, req, e, m - 1);
      ByEdgeMembership(pos, over, req, e, m - 1);
      forall id, s ensures (id, s) in r0 + o <==>
        1 <= id <= m && s == StepsFor(e, pos[id - 1].0, pos[id - 1].1, over.0, over.1, req) && s != 0
      {
        assert (id, s) in r0 + o <==> (id, s) in r0 || (id, s) in o;
      }
    }
  }

  lemma {:induction false} ByEdgeRise(pos: seq<(int, int)>, over: (int, int), req: seq<int>, e: int, m: nat)
    requires |req| == 4 && IsEdge(e) && m <= |pos|
    ensures IdsRise(ByEdge(pos, over, req, e, m), m)
  {
    if m > 0 {
      var r0 := ByEdge(pos, over, req, e, m - 1);
      var o := EdgeEntry(pos, over, req, e, m - 1);
      var r := r0 + o;
      ByEdgeRise(pos, over, req, e, m - 1);
      assert |o| <= 1 && forall i :: 0 <= i < |o| ==> o[i].0 == m;
      forall i | 0 <= i < |r| ensures 1 <= r[i].0 <= m {
        if i < |r0| {
          assert r[i] == r0[i];
        } else {
          assert r[i] == o[i - |r0|];
        }
      }
      forall i, j | 0 <= i < j < |r| ensures r[i].0 < r[j].0 {
        assert i < |r0| && r[i] == r0[i];
        if j >= |r0| {
          assert r[j] == o[j - |r0|];
        } else {
          assert r[j] == r0[j];
        }
      }
    }
  }

  /** One more partition examined adds its entry to the end of the list. */
  lemma ByEdgeNext(pos: seq<(int, int)>, over: (int, int), req: seq<int>, e: int, j: nat, before: seq<(int, int)>, after: seq<(int, int)>)
    requires |req| == 4 && IsEdge(e) && j < |pos|
    requires before == ByEdge(pos, over, req, e, j)
    requires after == before + Opt(StepsFor(e, pos[j].0, pos[j].1, over.0, over.1, req) != 0,
                                   (j + 1, StepsFor(e, pos[j].0, pos[j].1, over.0, over.1, req)))
    ensures after == ByEdge(pos, over, req, e, j + 1)
  {
  }

  /** Partition id has an entry among the first i of a list. */
  predicate Listed(list: seq<(int, int)>, i: int, id: int)
    requires 0 <= i <= |list|
  {
    exists t :: 0 <= t < i && list[t].0 == id
  }

  /**
   * Walking a list whose ids rise, entry i names a partition no earlier
   * entry names, and is the only partition it adds.
   */
  lemma ListedStep(list: seq<(int, int)>, m: int, i: int)
    requires IdsRise(list, m) && 0 <= i < |list|
    ensures !Listed(list, i, list[i].0)
    ensures forall id :: Listed(list, i + 1, id) <==> Listed(list, i, id) || id == list[i].0
  {
  }

  /** Over the whole list of edge e, partition j+1 is listed exactly when its edge e moves. */
  lemma ListedAll(pos: seq<(int, int)>, over: (int, int), req: seq<int>, e: int, j: int)
    requires |req| == 4 && IsEdge(e) && 0 <= j < |pos|
    ensures var list := ByEdge(pos, over, req, e, |pos|);
      Listed(list, |list|, j + 1) <==> StepsFor(e, pos[j].0, pos[j].1, over.0, over.1, req) != 0
  {
    var list := ByEdge(pos, over, req, e, |pos|);
    var s := StepsFor(e, pos[j].0, pos[j].1, over.0, over.1, req);
    ByEdgeMembers(pos, over, req, e, |pos|);
    if Listed(list, |list|, j + 1) {
      var t :| 0 <= t < |list| && list[t].0 == j + 1;
      var u := list[t].1;
      assert (j + 1, u) in list;
      assert 1 <= j + 1 <= |pos| && u == StepsFor(e, pos[j + 1 - 1].0, pos[j + 1 - 1].1, over.0, over.1, req) && u != 0;
    }
    if s != 0 {
      assert (j + 1, s) in list;
      var t :| 0 <= t < |list| && list[t] == (j + 1, s);
      assert list[t].0 == j + 1;
      assert Listed(list, |list|, j + 1);
    }
  }

  // ---------------------------------------------------------------------
  // Applying the per-edge lists, edge by edge and entry by entry.

  /**
   * Bounds b and minimal flags f of all partitions, starting from bs and fs,
   * once the lists of the edges before e have been applied.
   */
  predicate AtStage(b: seq<seq<int>>, f: seq<bool>, bs: seq<seq<int>>, fs: seq<bool>, pos: seq<(int, int)>,
                    over: (int, int), req: seq<int>, step: int, e: nat)
    requires |req| == 4 && e <= 4
  {
    |b| == |pos| && |f| == |pos| && |bs| == |pos| && |fs| == |pos| &&
    (forall j :: 0 <= j < |pos| ==> |bs[j]| == 4) &&
    forall j :: 0 <= j < |pos| ==>
      b[j] == Staged(bs[j], pos[j].0, pos[j].1, over, req, step, e) &&
      f[j] == (if TouchedBefore(pos[j].0, pos[j].1, over, req, e) then false else fs[j])
  }

  /** As AtStage, with the first i entries of the list of edge e applied as well. */
  predicate MidStage(b: seq<seq<int>>, f: seq<bool>, bs: seq<seq<int>>, fs: seq<bool>, pos: seq<(int, int)>,
                     over: (int, int), req: seq<int>, step: int, e: int, list: seq<(int, int)>, i: int)
    requires |req| == 4 && IsEdge(e) && 0 <= i <= |list|
  {
    |b| == |pos| && |f| == |pos| && |bs| == |pos| && |fs| == |pos| &&
    (forall j :: 0 <= j < |pos| ==> |bs[j]| == 4) &&
    forall j :: 0 <= j < |pos| ==>
      b[j] == Staged(bs[j], pos[j].0, pos[j].1, over, req, step, if Listed(list, i, j + 1) then e + 1 else e) &&
      f[j] == (if TouchedBefore(pos[j].0, pos[j].1, over, req, e) || Listed(list, i, j + 1) then false else fs[j])
  }

  /** Before any list is applied, the bounds and flags are those the walk starts from. */
  lemma StageZero(bs: seq<seq<int>>, fs: seq<bool>, pos: seq<(int, int)>, over: (int, int), req: seq<int>, step: int)
    requires |req| == 4 && |bs| == |pos| && |fs| == |pos| && forall j :: 0 <= j < |pos| ==> |bs[j]| == 4
    ensures AtStage(bs, fs, bs, fs, pos, over, req, step, 0)
  {
  }

  lemma StageStart(b: seq<seq<int>>, f: seq<bool>, bs: seq<seq<int>>, fs: seq<bool>, pos: seq<(int, int)>,
                   over: (int, int), req: seq<int>, step: int, e: int, list: seq<(int, int)>)
    requires |req| == 4 && IsEdge(e) && AtStage(b, f, bs, fs, pos, over, req, step, e)
    ensures MidStage(b, f, bs, fs, pos, over, req, step, e, list, 0)
  {
  }

  /**
   * Applying entry i of the list of edge e (change_bounds of partition id
   * by s steps) moves edge e of that partition, which no earlier entry
   * named, and clears its flag.
   */
  lemma StageStep(b: seq<seq<int>>, f: seq<bool>, bs: seq<seq<int>>, fs: seq<bool>, pos: seq<(int, int)>,
                  over: (int, int), req: seq<int>, step: int, e: int, list: seq<(int, int)>, i: int)
    requires |req| == 4 && IsEdge(e) && list == ByEdge(pos, over, req, e, |pos|) && 0 <= i < |list|
    requires MidStage(b, f, bs, fs, pos, over, req, step, e, list, i)
    ensures 1 <= list[i].0 <= |pos|
    ensures var k := list[i].0 - 1;
      MidStage(b[k := MovedEdge(b[k], e, Shrinks(e, pos[k].0, pos[k].1, over.0, over.1), list[i].1, step)],
               f[k := false], bs, fs, pos, over, req, step, e, list, i + 1)
  {
    EntryOfEdge(pos, over, req, e, list, i);
    ListedMove(b, f, bs, fs, pos, over, req, step, e, list, i);
  }

  /** StageStep over any list whose ids rise and whose entry i holds its partition's steps of edge e. */
  lemma ListedMove(b: seq<seq<int>>, f: seq<bool>, bs: seq<seq<int>>, fs: seq<bool>, pos: seq<(int, int)>,
                   over: (int, int), req: seq<int>, step: int, e: int, list: seq<(int, int)>, i: int)
    requires |req| == 4 && IsEdge(e) && 0 <= i < |list| && IdsRise(list, |pos|)
    requires list[i].1 == StepsFor(e, pos[list[i].0 - 1].0, pos[list[i].0 - 1].1, over.0, over.1, req)
    requires MidStage(b, f, bs, fs, pos, over, req, step, e, list, i)
    ensures var k := list[i].0 - 1;
      MidStage(b[k := MovedEdge(b[k], e, Shrinks(e, pos[k].0, pos[k].1, over.0, over.1), list[i].1, step)],
               f[k := false], bs, fs, pos, over, req, step, e, list, i + 1)
  {
    ListedStep(list, |pos|, i);
    var k := list[i].0 - 1;
    var b' := b[k := MovedEdge(b[k], e, Shrinks(e, pos[k].0, pos[k].1, over.0, over.1), list[i].1, step)];
    var f' := f[k := false];
    forall j | 0 <= j < |pos|
      ensures b'[j] == Staged(bs[j], pos[j].0, pos[j].1, over, req, step, if Listed(list, i + 1, j + 1) then e + 1 else e)
      ensures f'[j] == (if TouchedBefore(pos[j].0, pos[j].1, over, req, e) || Listed(list, i + 1, j + 1) then false else fs[j])
    {
      StageStepAt(b[j], f[j], bs[j], fs[j], pos[j].0, pos[j].1, over, req, step, e,
                  Listed(list, i, j + 1), Listed(list, i + 1, j + 1), j == k, list[i].1);
    }
  }

  /** StageStep for one partition: the one entry i names moves its edge e and loses its flag; the rest keep theirs. */
  lemma StageStepAt(bj: seq<int>, fj: bool, bsj: seq<int>, fsj: bool, row: int, col: int, over: (int, int), req: seq<int>,
                    step: int, e: int, before: bool, after: bool, mine: bool, s: int)
    requires |bsj| == 4 && |req| == 4 && IsEdge(e)
    requires bj == Staged(bsj, row, col, over, req, step, if before then e + 1 else e)
    requires fj == (if TouchedBefore(row, col, over, req, e) || before then false else fsj)
    requires mine ==> !before && after && s == StepsFor(e, row, col, over.0, over.1, req)
    requires !mine ==> after == before
    ensures (if mine then MovedEdge(bj, e, Shrinks(e, row, col, over.0, over.1), s, step) else bj) ==
      Staged(bsj, row, col, over, req, step, if after then e + 1 else e)
    ensures (if mine then false else fj) == (if TouchedBefore(row, col, over, req, e) || after then false else fsj)
  {
  }

  /** Entry i of edge e's list names a partition and the steps of that partition's edge e. */
  lemma EntryOfEdge(pos: seq<(int, int)>, over: (int, int), req: seq<int>, e: int, list: seq<(int, int)>, i: int)
    requires |req| == 4 && IsEdge(e) && list == ByEdge(pos, over, req, e, |pos|) && 0 <= i < |list|
    ensures 1 <= list[i].0 <= |pos| && IdsRise(list, |pos|)
    ensures list[i].1 == StepsFor(e, pos[list[i].0 - 1].0, pos[list[i].0 - 1].1, over.0, over.1, req)
  {
    ByEdgeMembers(pos, over, req, e, |pos|);
    assert list[i] in list;
  }

  lemma StageEnd(b: seq<seq<int>>, f: seq<bool>, bs: seq<seq<int>>, fs: seq<bool>, pos: seq<(int, int)>,
                 over: (int, int), req: seq<int>, step: int, e: int, list: seq<(int, int)>)
    requires |req| == 4 && IsEdge(e) && list == ByEdge(pos, over, req, e, |pos|)
    requires MidStage(b, f, bs, fs, pos, over, req, step, e, list, |list|)
    ensures AtStage(b, f, bs, fs, pos, over, req, step, e + 1)
  {
    forall j | 0 <= j < |pos|
      ensures b[j] == Staged(bs[j], pos[j].0, pos[j].1, over, req, step, e + 1)
      ensures f[j] == (if TouchedBefore(pos[j].0, pos[j].1, over, req, e + 1) then false else fs[j])
    {
      ListedAll(pos, over, req, e, j);
      if !Listed(list, |list|, j + 1) {
        MovedEdgeZero(Staged(bs[j], pos[j].0, pos[j].1, over, req, step, e), e,
                      Shrinks(e, pos[j].0, pos[j].1, over.0, over.1), step);
      }
    }
  }

  /**
   * Bounds b and minimal flags f of all partitions after boidcpu_overloaded,
   * from bs and fs before it: when the change went through, every partition
   * has its rebounded rectangle and has lost its minimal flag exactly when
   * its own list of edge changes is not empty; otherwise nothing changed.
   */
  predicate Rebalanced(b: seq<seq<int>>, f: seq<bool>, bs: seq<seq<int>>, fs: seq<bool>, pos: seq<(int, int)>,
                       over: (int, int), req: seq<int>, step: int, allow: bool)
    requires |req| == 4
  {
    |b| == |pos| && |f| == |pos| && |bs| == |pos| && |fs| == |pos| &&
    (forall j :: 0 <= j < |pos| ==> |bs[j]| == 4) &&
    forall j :: 0 <= j < |pos| ==>
      b[j] == (if allow then Rebounded(bs[j], pos[j].0, pos[j].1, over.0, over.1, req, step) else bs[j]) &&
      f[j] == (if allow && EntriesFor(pos[j].0, pos[j].1, over.0, over.1, req) != [] then false else fs[j])
  }

  /** Once all four lists are applied, the change has gone through. */
  lemma StageFinal(b: seq<seq<int>>, f: seq<bool>, bs: seq<seq<int>>, fs: seq<bool>, pos: seq<(int, int)>,
                   over: (int, int), req: seq<int>, step: int)
    requires |req| == 4 && AtStage(b, f, bs, fs, pos, over, req, step, 4)
    ensures Rebalanced(b, f, bs, fs, pos, over, req, step, true)
  {
    forall j | 0 <= j < |pos|
      ensures b[j] == Rebounded(bs[j], pos[j].0, pos[j].1, over.0, over.1, req, step)
      ensures f[j] == (if EntriesFor(pos[j].0, pos[j].1, over.0, over.1, req) != [] then false else fs[j])
    {
      StagedRebounded(bs[j], pos[j].0, pos[j].1, over, req, step);
      TouchedIffListed(pos[j].0, pos[j].1, over, req);
    }
  }

  /** A refused change leaves every bound and flag as it was. */
  lemma Refused(bs: seq<seq<int>>, fs: seq<bool>, pos: seq<(int, int)>, over: (int, int), req: seq<int>, step: int)
    requires |req| == 4 && |bs| == |pos| && |fs| == |pos| && forall j :: 0 <= j < |pos| ==> |bs[j]| == 4
    ensures Rebalanced(bs, fs, bs, fs, pos, over, req, step, false)
  {
  }

  /** The ids of a list lie in 1..m and rise strictly along it. */
  predicate IdsRise(r: seq<(int, int)>, m: int)
  {
    (forall i :: 0 <= i < |r| ==> 1 <= r[i].0 <= m) &&
    (forall i, j :: 0 <= i < j < |r| ==> r[i].0 < r[j].0)
  }

  /**
   * The two structures identify_affected_boidcpus returns agree: [id, s] is
   * in the list of edge e exactly when [e, s] is in the list of partition id.
   */
  lemma ListsAgree(pos: seq<(int, int)>, over: (int, int), req: seq<int>, e: int, id: int, s: int)
    requires |req| == 4 && IsEdge(e)
    ensures (id, s) in ByEdge(pos, over, req, e, |pos|) <==>
      1 <= id <= |pos| && (e, s) in EntriesFor(pos[id - 1].0, pos[id - 1].1, over.0, over.1, req)
  {
    ByEdgeMembers(pos, over, req, e, |pos|);
    if 1 <= id <= |pos| {
      EntriesMembers(pos[id - 1].0, pos[id - 1].1, over.0, over.1, req);
    }
  }

  // ---------------------------------------------------------------------
  // The bounds after the request is applied.

  /**
   * The bounds of the partition at (row, col) once the edges before e have
   * been moved by the steps StepsFor gives them, in edge order.
   */
  function Staged(c: seq<int>, row: int, col: int, over: (int, int), req: seq<int>, step: int, e: nat): (r: seq<int>)
    requires |c| == 4 && |req| == 4 && e <= 4
    ensures |r| == 4
  {
    if e == 0 then c
    else MovedEdge(Staged(c, row, col, over, req, step, e - 1), e - 1, Shrinks(e - 1, row, col, over.0, over.1),
                   StepsFor(e - 1, row, col, over.0, over.1, req), step)
  }

  /** Moving an edge by no steps leaves the bounds as they are. */
  lemma MovedEdgeZero(c: seq<int>, e: int, decrease: bool, step: int)
    requires |c| == 4 && IsEdge(e)
    ensures MovedEdge(c, e, decrease, 0, step) == c
  {
    var r := MovedEdge(c, e, decrease, 0, step);
    assert r[EdgeToCoord(e)] == c[EdgeToCoord(e)];
    assert forall i :: 0 <= i < 4 ==> r[i] == c[i];
  }

  /**
   * Moving all four edges in turn, each by its StepsFor, gives exactly the
   * rebounded rectangle: the order in which the per-edge lists are applied
   * does not matter.
   */
  lemma StagedRebounded(c: seq<int>, row: int, col: int, over: (int, int), req: seq<int>, step: int)
    requires |c| == 4 && |req| == 4
    ensures Staged(c, row, col, over, req, step, 4) == Rebounded(c, row, col, over.0, over.1, req, step)
  {
    var s1 := Staged(c, row, col, over, req, step, 1);
    var s2 := Staged(c, row, col, over, req, step, 2);
    var s3 := Staged(c, row, col, over, req, step, 3);
    var s4 := Staged(c, row, col, over, req, step, 4);
    var r := Rebounded(c, row, col, over.0, over.1, req, step);
    assert Staged(c, row, col, over, req, step, 0) == c;
    assert s1 == MovedEdge(c, TOP, Shrinks(TOP, row, col, over.0, over.1), StepsFor(TOP, row, col, over.0, over.1, req), step);
    assert s2 == MovedEdge(s1, RIGHT, Shrinks(RIGHT, row, col, over.0, over.1), StepsFor(RIGHT, row, col, over.0, over.1, req), step);
    assert s3 == MovedEdge(s2, BOTTOM, Shrinks(BOTTOM, row, col, over.0, over.1), StepsFor(BOTTOM, row, col, over.0, over.1, req), step);
    assert s4 == MovedEdge(s3, LEFT, Shrinks(LEFT, row, col, over.0, over.1), StepsFor(LEFT, row, col, over.0, over.1, req), step);
    assert s4[Y_MIN] == s1[Y_MIN] == r[Y_MIN];
    assert s4[X_MAX] == s2[X_MAX] && s2[X_MAX] == r[X_MAX];
    assert s4[Y_MAX] == s3[Y_MAX] && s3[Y_MAX] == r[Y_MAX];
    assert s4[X_MIN] == r[X_MIN];
  }

  /** Some edge of the partition at (row, col) before edge e moves. */
  predicate TouchedBefore(row: int, col: int, over: (int, int), req: seq<int>, e: nat)
    requires |req| == 4 && e <= 4
  {
    e > 0 && (TouchedBefore(row, col, over, req, e - 1) || StepsFor(e - 1, row, col, over.0, over.1, req) != 0)
  }

  /**
   * A partition receives change_bounds (and so loses its minimal flag)
   * exactly when its own list of edge changes is not empty.
   */
  lemma TouchedIffListed(row: int, col: int, over: (int, int), req: seq<int>)
    requires |req| == 4
    ensures TouchedBefore(row, col, over, req, 4) <==> EntriesFor(row, col, over.0, over.1, req) != []
  {
    var entries := EntriesFor(row, col, over.0, over.1, req);
    EntriesMembers(row, col, over.0, over.1, req);
    assert TouchedBefore(row, col, over, req, 1) <==> StepsFor(TOP, row, col, over.0, over.1, req) != 0;
    assert TouchedBefore(row, col, over, req, 2) <==>
      TouchedBefore(row, col, over, req, 1) || StepsFor(RIGHT, row, col, over.0, over.1, req) != 0;
    assert TouchedBefore(row, col, over, req, 3) <==>
      TouchedBefore(row, col, over, req, 2) || StepsFor(BOTTOM, row, col, over.0, over.1, req) != 0;
    assert TouchedBefore(row, col, over, req, 4) <==>
      StepsFor(TOP, row, col, over.0, over.1, req) != 0 || StepsFor(RIGHT, row, col, over.0, over.1, req) != 0 ||
      StepsFor(BOTTOM, row, col, over.0, over.1, req) != 0 || StepsFor(LEFT, row, col, over.0, over.1, req) != 0;
    if StepsFor(TOP, row, col, over.0, over.1, req) != 0 {
      assert (TOP, StepsFor(TOP, row, col, over.0, over.1, req)) in entries;
    } else if StepsFor(RIGHT, row, col, over.0, over.1, req) != 0 {
      assert (RIGHT, StepsFor(RIGHT, row, col, over.0, over.1, req)) in entries;
    } else if StepsFor(BOTTOM, row, col, over.0, over.1, req) != 0 {
      assert (BOTTOM, StepsFor(BOTTOM, row, col, over.0, over.1, req)) in entries;
    } else if StepsFor(LEFT, row, col, over.0, over.1, req) != 0 {
      assert (LEFT, StepsFor(LEFT, row, col, over.0, over.1, req)) in entries;
    }
    if entries != [] {
      var e1, s1 := entries[0].0, entries[0].1;
      assert (e1, s1) in entries;
      assert e1 == TOP || e1 == RIGHT || e1 == BOTTOM || e1 == LEFT;
    }
  }

  // ---------------------------------------------------------------------
  // The prediction of evaluate_boundary_change.

  /** Which edges a list of [edge, steps] requests names. */
  function EdgeFlags(requests: seq<(int, int)>): (f: seq<bool>)
    requires forall i :: 0 <= i < |requests| ==> IsEdge(requests[i].0)
    ensures |f| == 4
  {
    if |requests| == 0 then [false, false, false, false]
    else
      var e := requests[|requests| - 1].0;
      assert IsEdge(e);
      EdgeFlags(requests[..|requests| - 1])[e := true]
  }

  /** Edge e is flagged exactly when some request names it. */
  lemma {:induction false} EdgeFlagsMeaning(requests: seq<(int, int)>, e: int)
    requires forall i :: 0 <= i < |requests| ==> IsEdge(requests[i].0)
    requires IsEdge(e)
    ensures EdgeFlags(requests)[e] <==> exists i :: 0 <= i < |requests| && requests[i].0 == e
  {
    if |requests| > 0 {
      var init := requests[..|requests| - 1];
      EdgeFlagsMeaning(init, e);
      if exists i :: 0 <= i < |init| && init[i].0 == e {
        var i :| 0 <= i < |init| && init[i].0 == e;
        assert requests[i] == init[i];
      }
      if exists i :: 0 <= i < |requests| - 1 && requests[i].0 == e {
        var i :| 0 <= i < |requests| - 1 && requests[i].0 == e;
        assert init[i] == requests[i];
      }
    }
  }

  /**
   * Neighbour d lies across every edge it would take: it is wanted when each
   * edge between it and the partition moves (both edges for a diagonal).
   */
  predicate Wanted(f: seq<bool>, d: int)
    requires |f| == 4 && IsBearing(d)
  {
    (RowStep(d) == -1 ==> f[TOP]) && (RowStep(d) == 1 ==> f[BOTTOM]) &&
    (ColStep(d) == 1 ==> f[RIGHT]) && (ColStep(d) == -1 ==> f[LEFT]) &&
    (RowStep(d) != 0 || ColStep(d) != 0)
  }

  /** Adding an id to a set kept as a list in insertion order. */
  function AddId(ids: seq<int>, x: int): seq<int>
  {
    if x in ids then ids else ids + [x]
  }

  /**
   * The neighbour ids evaluate_boundary_change collects, in the order it
   * adds them: the diagonals whose two edges move, then the sides whose edge
   * moves.
   */
  function AffectedIds(f: seq<bool>, nbrs: seq<int>): seq<int>
    requires |f| == 4 && |nbrs| == 8
  {
    var a := if f[TOP] && f[LEFT] then AddId([], nbrs[NORTHWEST]) else [];
    var b := if f[TOP] && f[RIGHT] then AddId(a, nbrs[NORTHEAST]) else a;
    var c := if f[BOTTOM] && f[RIGHT] then AddId(b, nbrs[SOUTHEAST]) else b;
    var d := if f[BOTTOM] && f[LEFT] then AddId(c, nbrs[SOUTHWEST]) else c;
    var e := if f[TOP] then AddId(d, nbrs[NORTH]) else d;
    var g := if f[RIGHT] then AddId(e, nbrs[EAST]) else e;
    var h := if f[BOTTOM] then AddId(g, nbrs[SOUTH]) else g;
    if f[LEFT] then AddId(h, nbrs[WEST]) else h
  }

  predicate DistinctInts(s: seq<int>)
  {
    forall i, j :: 0 <= i < j < |s| ==> s[i] != s[j]
  }

  lemma AddIdKeeps(ids: seq<int>, x: int)
    requires DistinctInts(ids)
    ensures DistinctInts(AddId(ids, x))
  {
  }

  /**
   * The collected ids are exactly the neighbours at the wanted bearings,
   * each once.
   */
  lemma AffectedIdsMeaning(f: seq<bool>, nbrs: seq<int>)
    requires |f| == 4 && |nbrs| == 8
    ensures DistinctInts(AffectedIds(f, nbrs))
    ensures forall x :: x in AffectedIds(f, nbrs) <==> exists d :: IsBearing(d) && Wanted(f, d) && nbrs[d] == x
  {
    AffectedIdsDistinct(f, nbrs);
    forall x ensures x in AffectedIds(f, nbrs) <==> exists d :: IsBearing(d) && Wanted(f, d) && nbrs[d] == x {
      AffectedIdsMember(f, nbrs, x);
      WantedTable(f);
      if exists d :: IsBearing(d) && Wanted(f, d) && nbrs[d] == x {
        var d :| IsBearing(d) && Wanted(f, d) && nbrs[d] == x;
        assert d == 0 || d == 1 || d == 2 || d == 3 || d == 4 || d == 5 || d == 6 || d == 7;
      }
    }
  }

  lemma AffectedIdsDistinct(f: seq<bool>, nbrs: seq<int>)
    requires |f| == 4 && |nbrs| == 8
    ensures DistinctInts(AffectedIds(f, nbrs))
  {
    var a := if f[TOP] && f[LEFT] then AddId([], nbrs[NORTHWEST]) else [];
    var b := if f[TOP] && f[RIGHT] then AddId(a, nbrs[NORTHEAST]) else a;
    var c := if f[BOTTOM] && f[RIGHT] then AddId(b, nbrs[SOUTHEAST]) else b;
    var d := if f[BOTTOM] && f[LEFT] then AddId(c, nbrs[SOUTHWEST]) else c;
    var e := if f[TOP] then AddId(d, nbrs[NORTH]) else d;
    var g := if f[RIGHT] then AddId(e, nbrs[EAST]) else e;
    var h := if f[BOTTOM] then AddId(g, nbrs[SOUTH]) else g;
    AddIdKeeps([], nbrs[NORTHWEST]);
    AddIdKeeps(a, nbrs[NORTHEAST]);
    AddIdKeeps(b, nbrs[SOUTHEAST]);
    AddIdKeeps(c, nbrs[SOUTHWEST]);
    AddIdKeeps(d, nbrs[NORTH]);
    AddIdKeeps(e, nbrs[EAST]);
    AddIdKeeps(g, nbrs[SOUTH]);
    AddIdKeeps(h, nbrs[WEST]);
  }

  lemma AffectedIdsMember(f: seq<bool>, nbrs: seq<int>, x: int)
    requires |f| == 4 && |nbrs| == 8
    ensures x in AffectedIds(f, nbrs) <==>
      (f[TOP] && f[LEFT] && x == nbrs[NORTHWEST]) || (f[TOP] && f[RIGHT] && x == nbrs[NORTHEAST]) ||
      (f[BOTTOM] && f[RIGHT] && x == nbrs[SOUTHEAST]) || (f[BOTTOM] && f[LEFT] && x == nbrs[SOUTHWEST]) ||
      (f[TOP] && x == nbrs[NORTH]) || (f[RIGHT] && x == nbrs[EAST]) ||
      (f[BOTTOM] && x == nbrs[SOUTH]) || (f[LEFT] && x == nbrs[WEST])
  {
    var a := if f[TOP] && f[LEFT] then AddId([], nbrs[NORTHWEST]) else [];
    var b := if f[TOP] && f[RIGHT] then AddId(a, nbrs[NORTHEAST]) else a;
    var c := if f[BOTTOM] && f[RIGHT] then AddId(b, nbrs[SOUTHEAST]) else b;
    var d := if f[BOTTOM] && f[LEFT] then AddId(c, nbrs[SOUTHWEST]) else c;
    var e := if f[TOP] then AddId(d, nbrs[NORTH]) else d;
    var g := if f[RIGHT] then AddId(e, nbrs[EAST]) else e;
    var h := if f[BOTTOM] then AddId(g, nbrs[SOUTH]) else g;
    AddIdMember([], nbrs[NORTHWEST], x);
    AddIdMember(a, nbrs[NORTHEAST], x);
    AddIdMember(b, nbrs[SOUTHEAST], x);
    AddIdMember(c, nbrs[SOUTHWEST], x);
    AddIdMember(d, nbrs[NORTH], x);
    AddIdMember(e, nbrs[EAST], x);
    AddIdMember(g, nbrs[SOUTH], x);
    AddIdMember(h, nbrs[WEST], x);
  }

  lemma AddIdMember(ids: seq<int>, x: int, y: int)
    ensures y in AddId(ids, x) <==> y in ids || y == x
  {
  }

  /** The wanted bearings, one by one. */
  lemma WantedTable(f: seq<bool>)
    requires |f| == 4
    ensures Wanted(f, NORTHWEST) == (f[TOP] && f[LEFT]) && Wanted(f, NORTH) == f[TOP]
    ensures Wanted(f, NORTHEAST) == (f[TOP] && f[RIGHT]) && Wanted(f, EAST) == f[RIGHT]
    ensures Wanted(f, SOUTHEAST) == (f[BOTTOM] && f[RIGHT]) && Wanted(f, SOUTH) == f[BOTTOM]
    ensures Wanted(f, SOUTHWEST) == (f[BOTTOM] && f[LEFT]) && Wanted(f, WEST) == f[LEFT]
  {
  }

  /**
   * get_boidcpu_boids: the list of partition id, read as Python reads
   * boidcpus[id - 1], where id 0 means the last partition.
   */
  function BoidsOf(lists: seq<seq<Boid>>, id: int): seq<Boid>
    requires 0 <= id <= |lists| && |lists| > 0
  {
    if id == 0 then lists[|lists| - 1] else lists[id - 1]
  }

  /** The boids of the given neighbours, one list after another. */
  function Collected(lists: seq<seq<Boid>>, ids: seq<int>): seq<Boid>
    requires |lists| > 0 && forall i :: 0 <= i < |ids| ==> 0 <= ids[i] <= |lists|
  {
    if |ids| == 0 then [] else Collected(lists, ids[..|ids| - 1]) + BoidsOf(lists, ids[|ids| - 1])
  }

  /** Collecting one more neighbour appends its boids. */
  lemma CollectedNext(lists: seq<seq<Boid>>, ids: seq<int>, t: int, own: seq<Boid>, acc: seq<Boid>)
    requires |lists| > 0 && 0 <= t < |ids| && forall i :: 0 <= i < |ids| ==> 0 <= ids[i] <= |lists|
    requires acc == own + Collected(lists, ids[..t])
    ensures acc + lists[if ids[t] == 0 then |lists| - 1 else ids[t] - 1] == own + Collected(lists, ids[..t + 1])
  {
    assert ids[..t + 1][..t] == ids[..t];
    var before, next := Collected(lists, ids[..t]), BoidsOf(lists, ids[t]);
    assert Collected(lists, ids[..t + 1]) == before + next;
    AppendAssoc(own, before, next);
  }

  /** How many of the boids lie within the rectangle, by evaluate_boundary_change's closed test. */
  function CountWithin(bs: seq<Boid>, c: seq<int>): nat
    requires |c| == 4
  {
    if |bs| == 0 then 0 else CountWithin(bs[..|bs| - 1], c) + (if Inside(bs[|bs| - 1], c) then 1 else 0)
  }

  /** Counting two lists one after the other adds their counts. */
  lemma {:induction false} CountWithinAppend(a: seq<Boid>, b: seq<Boid>, c: seq<int>)
    requires |c| == 4
    ensures CountWithin(a + b, c) == CountWithin(a, c) + CountWithin(b, c)
    decreases |b|
  {
    if |b| == 0 {
      assert a + b == a;
    } else {
      assert (a + b)[..|a + b| - 1] == a + b[..|b| - 1];
      CountWithinAppend(a, b[..|b| - 1], c);
    }
  }

  /**
   * The count never exceeds the number of boids checked, and it reaches it
   * exactly when every boid lies within.
   */
  lemma {:induction false} CountWithinBound(bs: seq<Boid>, c: seq<int>)
    requires |c| == 4
    ensures CountWithin(bs, c) <= |bs|
    ensures CountWithin(bs, c) == |bs| <==> forall i :: 0 <= i < |bs| ==> Inside(bs[i], c)
    decreases |bs|
  {
    if |bs| > 0 {
      var init := bs[..|bs| - 1];
      CountWithinBound(init, c);
      if forall i :: 0 <= i < |bs| ==> Inside(bs[i], c) {
        assert forall i :: 0 <= i < |init| ==> Inside(init[i], c) by {
          forall i | 0 <= i < |init| ensures Inside(init[i], c) {
            assert init[i] == bs[i];
          }
        }
      }
      if CountWithin(bs, c) == |bs| {
        forall i | 0 <= i < |bs| ensures Inside(bs[i], c) {
          if i < |bs| - 1 {
            assert init[i] == bs[i];
          }
        }
      }
    }
  }

  /**
   * The boids partition j checks: its own followed by those of the affected
   * neighbours its request list brings in.
   */
  function Checked(lists: seq<seq<Boid>>, nbrs: seq<int>, requests: seq<(int, int)>, j: int): seq<Boid>
    requires 0 <= j < |lists|
    requires forall i :: 0 <= i < |requests| ==> IsEdge(requests[i].0)
    requires requests != [] ==> |nbrs| == 8 && forall d :: 0 <= d < 8 ==> 0 <= nbrs[d] <= |lists|
  {
    if requests == [] then lists[j]
    else
      AffectedIdsIn(EdgeFlags(requests), nbrs, |lists|);
      lists[j] + Collected(lists, AffectedIds(EdgeFlags(requests), nbrs))
  }

  /** Every id gathered lies in the grid when every neighbour does. */
  lemma AffectedIdsIn(f: seq<bool>, nbrs: seq<int>, n: int)
    requires |f| == 4 && |nbrs| == 8 && forall d :: 0 <= d < 8 ==> 0 <= nbrs[d] <= n
    ensures forall i :: 0 <= i < |AffectedIds(f, nbrs)| ==> 0 <= AffectedIds(f, nbrs)[i] <= n
  {
    var r := AffectedIds(f, nbrs);
    AffectedIdsMeaning(f, nbrs);
    forall i | 0 <= i < |r| ensures 0 <= r[i] <= n {
      assert r[i] in r;
    }
  }

  /**
   * The number of boids partition j predicts for itself: of the boids it
   * checks, those within its rebounded rectangle.
   */
  function Predicted(lists: seq<seq<Boid>>, nbrs: seq<int>, bs: seq<int>, pos: (int, int), over: (int, int),
                     req: seq<int>, step: int, j: int): nat
    requires 0 <= j < |lists| && |bs| == 4 && |req| == 4
    requires |nbrs| == 8 && forall d :: 0 <= d < 8 ==> 0 <= nbrs[d] <= |lists|
  {
    var requests := EntriesFor(pos.0, pos.1, over.0, over.1, req);
    EntriesMeaning(pos.0, pos.1, over.0, over.1, req);
    EntriesEdges(requests);
    CountWithin(Checked(lists, nbrs, requests, j), Rebounded(bs, pos.0, pos.1, over.0, over.1, req, step))
  }

  /** Every pair of a list that means what EntriesMeaning says names an edge. */
  lemma EntriesEdges(requests: seq<(int, int)>)
    requires forall e, s :: (e, s) in requests ==> IsEdge(e)
    ensures forall i :: 0 <= i < |requests| ==> IsEdge(requests[i].0)
  {
    forall i | 0 <= i < |requests| ensures IsEdge(requests[i].0) {
      var e, s := requests[i].0, requests[i].1;
      assert (e, s) == requests[i] && (e, s) in requests;
    }
  }

  /** A predicted count above 110% of the threshold vetoes the change. */
  predicate Overloads(count: int, threshold: int)
  {
    count as real > threshold as real * 1.1
  }

  /** How many of the predicted counts would overload their partition. */
  function OverloadedCount(counts: seq<int>, threshold: int): nat
  {
    if counts == [] then 0
    else OverloadedCount(counts[..|counts| - 1], threshold) + (if Overloads(counts[|counts| - 1], threshold) then 1 else 0)
  }

  /** No count is vetoed exactly when none of them overloads. */
  lemma {:induction false} OverloadedCountZero(counts: seq<int>, threshold: int)
    ensures OverloadedCount(counts, threshold) == 0 <==> forall i :: 0 <= i < |counts| ==> !Overloads(counts[i], threshold)
    ensures OverloadedCount(counts, threshold) <= |counts|
  {
    if counts != [] {
      var init := counts[..|counts| - 1];
      OverloadedCountZero(init, threshold);
      assert forall i :: 0 <= i < |init| ==> init[i] == counts[i];
    }
  }

  /** The values of f at 0..m-1, in order. */
  function Prefix(f: int -> int, m: nat): (r: seq<int>)
    ensures |r| == m
  {
    if m == 0 then [] else Prefix(f, m - 1) + [f(m - 1)]
  }

  lemma {:induction false} PrefixAt(f: int -> int, m: nat, j: int)
    requires 0 <= j < m
    ensures Prefix(f, m)[j] == f(j)
  {
    if j < m - 1 {
      PrefixAt(f, m - 1, j);
    }
  }

  /** Every partition has four bounds and eight neighbours, each 0 or the id of a partition. */
  predicate Wired(ns: seq<seq<int>>, bs: seq<seq<int>>, n: int)
  {
    |ns| == n && |bs| == n &&
    forall j :: 0 <= j < n ==> |bs[j]| == 4 && |ns[j]| == 8 && forall d :: 0 <= d < 8 ==> 0 <= ns[j][d] <= n
  }

  /** Partition j+1's prediction, for every j of the grid (and 0 elsewhere). */
  function PredictedOf(lists: seq<seq<Boid>>, ns: seq<seq<int>>, bs: seq<seq<int>>, pos: seq<(int, int)>,
                       over: (int, int), req: seq<int>, step: int): int -> int
    requires Wired(ns, bs, |lists|) && |pos| == |lists| && |req| == 4
  {
    j => if 0 <= j < |lists| then Predicted(lists, ns[j], bs[j], pos[j], over, req, step, j) else 0
  }

  /** Every entry of a partition's list of edge changes names an edge. */
  lemma EntriesAreEdges(row: int, col: int, overRow: int, overCol: int, req: seq<int>)
    requires |req| == 4
    ensures forall i :: 0 <= i < |EntriesFor(row, col, overRow, overCol, req)| ==>
      IsEdge(EntriesFor(row, col, overRow, overCol, req)[i].0)
  {
    EntriesMeaning(row, col, overRow, overCol, req);
    EntriesEdges(EntriesFor(row, col, overRow, overCol, req));
  }

  /**
   * What evaluate_boundary_change counts for partition j+1's own list of
   * edge changes is its prediction: applying the list in order gives the
   * rebounded rectangle.
   */
  lemma EvaluationPredicts(lists: seq<seq<Boid>>, ns: seq<seq<int>>, bs: seq<seq<int>>, pos: seq<(int, int)>,
                           over: (int, int), req: seq<int>, step: int, j: int, counter: int)
    requires Wired(ns, bs, |lists|) && |pos| == |lists| && |req| == 4
    requires 0 <= j < |lists|
    requires forall i :: 0 <= i < |EntriesFor(pos[j].0, pos[j].1, over.0, over.1, req)| ==>
      IsEdge(EntriesFor(pos[j].0, pos[j].1, over.0, over.1, req)[i].0)
    requires counter == CountWithin(Checked(lists, ns[j], EntriesFor(pos[j].0, pos[j].1, over.0, over.1, req), j),
                                    ApplyEntries(bs[j], EntriesFor(pos[j].0, pos[j].1, over.0, over.1, req), pos[j].0, pos[j].1, over, step))
    ensures counter == PredictedOf(lists, ns, bs, pos, over, req, step)(j)
  {
    EntriesGiveRebounded(bs[j], pos[j].0, pos[j].1, over.0, over.1, req, step);
  }

  /** The predicted counts of all partitions, in id order (new_boid_counts). */
  function Predictions(lists: seq<seq<Boid>>, ns: seq<seq<int>>, bs: seq<seq<int>>, pos: seq<(int, int)>,
                       over: (int, int), req: seq<int>, step: int): seq<int>
    requires Wired(ns, bs, |lists|) && |pos| == |lists| && |req| == 4
  {
    Prefix(PredictedOf(lists, ns, bs, pos, over, req, step), |lists|)
  }

  /**
   * The change goes through unless the negotiated strategy (type 3) finds
   * some partition whose predicted count overloads it: the number of vetoes
   * among the predicted counts must be zero.
   */
  predicate Allowed(lists: seq<seq<Boid>>, ns: seq<seq<int>>, bs: seq<seq<int>>, pos: seq<(int, int)>,
                    over: (int, int), req: seq<int>, cfg: Config)
    requires |ns| == |lists| && |bs| == |lists| && |pos| == |lists| && |req| == 4
    requires forall j :: 0 <= j < |lists| ==> |bs[j]| == 4
    requires cfg.loadBalanceType == 3 ==> forall j :: 0 <= j < |lists| ==>
      |ns[j]| == 8 && forall d :: 0 <= d < 8 ==> 0 <= ns[j][d] <= |lists|
  {
    cfg.loadBalanceType != 3 ||
    OverloadedCount(Predictions(lists, ns, bs, pos, over, req, cfg.stepSize), cfg.boidThreshold) == 0
  }

  /**
   * Under strategy 3 one partition whose predicted count exceeds 110% of the
   * threshold vetoes the change, and an allowed change overloads none; the
   * other strategies allow every change.
   */
  lemma VetoAt(lists: seq<seq<Boid>>, ns: seq<seq<int>>, bs: seq<seq<int>>, pos: seq<(int, int)>,
               over: (int, int), req: seq<int>, cfg: Config, j: int)
    requires Wired(ns, bs, |lists|) && |pos| == |lists| && |req| == 4
    requires 0 <= j < |lists|
    ensures cfg.loadBalanceType != 3 ==> Allowed(lists, ns, bs, pos, over, req, cfg)
    ensures cfg.loadBalanceType == 3 ==>
      (Overloads(Predicted(lists, ns[j], bs[j], pos[j], over, req, cfg.stepSize, j), cfg.boidThreshold) ==>
         !Allowed(lists, ns, bs, pos, over, req, cfg))
  {
    var p := Predictions(lists, ns, bs, pos, over, req, cfg.stepSize);
    PrefixAt(PredictedOf(lists, ns, bs, pos, over, req, cfg.stepSize), |lists|, j);
    OverloadedCountZero(p, cfg.boidThreshold);
  }

  /** Under strategy 3, a change no predicted count overloads is allowed. */
  lemma NoVetoAllowed(lists: seq<seq<Boid>>, ns: seq<seq<int>>, bs: seq<seq<int>>, pos: seq<(int, int)>,
                      over: (int, int), req: seq<int>, cfg: Config)
    requires Wired(ns, bs, |lists|) && |pos| == |lists| && |req| == 4
    requires forall j :: 0 <= j < |lists| ==>
      !Overloads(Predicted(lists, ns[j], bs[j], pos[j], over, req, cfg.stepSize, j), cfg.boidThreshold)
    ensures Allowed(lists, ns, bs, pos, over, req, cfg)
  {
    var p := Predictions(lists, ns, bs, pos, over, req, cfg.stepSize);
    forall i | 0 <= i < |p| ensures !Overloads(p[i], cfg.boidThreshold) {
      PrefixAt(PredictedOf(lists, ns, bs, pos, over, req, cfg.stepSize), |lists|, i);
    }
    OverloadedCountZero(p, cfg.boidThreshold);
  }
}
