// The boid hand-over of the Python simulations as a function of the boids
// every partition holds: one transfer, the scan of one partition as the
// source writes it (over the list it is shrinking) and as a scan over a
// snapshot of that list, and a sweep over all partitions.
module Transfers {
  import opened Common
  import opened Migration

  /** The boid list and the boid count of every partition; partition id k+1 at index k. */
  datatype Holdings = Holdings(boids: seq<seq<Boid>>, counts: seq<int>)

  predicate Fits(h: Holdings) { |h.boids| == |h.counts| }

  /** Every neighbour id names one of n partitions or is 0 (no neighbour). */
  predicate NeighboursIn(nbrs: seq<int>, n: int)
  {
    (|nbrs| == 0 || |nbrs| == 8) && forall d :: 0 <= d < |nbrs| ==> 0 <= nbrs[d] <= n
  }

  /**
   * The scans below are stated for any rule that names the partition a boid
   * goes to; the partitions use determine_boid_transfer over their own
   * neighbours and bounds.
   */
  ghost predicate Aims(target: Boid -> Option<int>, n: int)
  {
    forall b :: target(b).Some? ==> 1 <= target(b).value <= n
  }

  function TargetOf(nbrs: seq<int>, c: seq<int>): (target: Boid -> Option<int>)
    requires |nbrs| == 0 || |nbrs| == 8
    requires |c| == 4
  {
    b => TransferTarget(nbrs, c, b)
  }

  /**
   * The rule of a partition whose neighbours are among the n partitions
   * sends boids only to those partitions, and never to itself when it is
   * not its own neighbour.
   */
  lemma TargetOfAims(nbrs: seq<int>, c: seq<int>, n: int, self: int)
    requires NeighboursIn(nbrs, n) && |c| == 4
    ensures Aims(TargetOf(nbrs, c), n)
    ensures self !in nbrs ==> forall b :: TargetOf(nbrs, c)(b) != Some(self)
  {
    forall b | TargetOf(nbrs, c)(b).Some?
      ensures 1 <= TargetOf(nbrs, c)(b).value <= n
    {
      var d :| 0 <= d < |nbrs| && nbrs[d] == TransferTarget(nbrs, c, b).value;
    }
  }

  /** Every partition's neighbours are among the n partitions, never itself. */
  predicate Linked(ns: seq<seq<int>>, n: int)
  {
    forall k :: 0 <= k < |ns| ==> NeighboursIn(ns[k], n) && (k + 1) !in ns[k]
  }

  /** Giving partition k+1 a fitting neighbour list keeps the partitions linked. */
  lemma LinkedUpdate(ns: seq<seq<int>>, n: int, k: int, nbrs: seq<int>)
    requires Linked(ns, n) && 0 <= k < |ns| && NeighboursIn(nbrs, n) && (k + 1) !in nbrs
    ensures Linked(ns[k := nbrs], n)
  {
  }

  predicate Shaped(ns: seq<seq<int>>, bs: seq<seq<int>>)
  {
    |ns| == |bs| && forall k :: 0 <= k < |ns| ==> (|ns[k]| == 0 || |ns[k]| == 8) && |bs[k]| == 4
  }

  /**
   * transfer_boid of partition k+1 to partition `to`: the target appends the
   * boid and counts one more, then the sender drops every boid carrying its
   * id and counts one fewer.
   */
  function Move(h: Holdings, k: int, b: Boid, to: int): (r: Holdings)
    requires Fits(h) && 0 <= k < |h.boids| && 1 <= to <= |h.boids|
    ensures Fits(r) && |r.boids| == |h.boids|
    ensures b in h.boids[k] ==> |r.boids[k]| <= |h.boids[k]| + (if to - 1 == k then 0 else -1)
  {
    var accepted := Holdings(h.boids[to - 1 := h.boids[to - 1] + [b]], h.counts[to - 1 := h.counts[to - 1] + 1]);
    assert b in h.boids[k] ==> accepted.boids[k][|accepted.boids[k]| - 1].id == b.id || b in accepted.boids[k];
    Holdings(accepted.boids[k := WithoutId(accepted.boids[k], b.id)], accepted.counts[k := accepted.counts[k] - 1])
  }

  /** Partition j after a transfer: the target appends, then the sender drops the id; the rest stay. */
  lemma MoveAt(h: Holdings, k: int, b: Boid, to: int, j: int)
    requires Fits(h) && 0 <= k < |h.boids| && 1 <= to <= |h.boids| && 0 <= j < |h.boids|
    ensures var accepted := if j == to - 1 then h.boids[j] + [b] else h.boids[j];
      var counted := if j == to - 1 then h.counts[j] + 1 else h.counts[j];
      Move(h, k, b, to).boids[j] == (if j == k then WithoutId(accepted, b.id) else accepted) &&
      Move(h, k, b, to).counts[j] == (if j == k then counted - 1 else counted)
  {
  }

  /** A transfer moves one unit of count from sender to target: the total is kept. */
  lemma MoveKeepsTotal(h: Holdings, k: int, b: Boid, to: int)
    requires Fits(h) && 0 <= k < |h.boids| && 1 <= to <= |h.boids|
    ensures Sum(Move(h, k, b, to).counts) == Sum(h.counts)
  {
    var c1 := h.counts[to - 1 := h.counts[to - 1] + 1];
    SumUpdate(h.counts, to - 1, h.counts[to - 1] + 1);
    SumUpdate(c1, k, c1[k] - 1);
  }

  /**
   * A transfer to another partition takes the boid out of the sender, puts
   * it at the end of the target and leaves every other partition alone.
   */
  lemma MoveEffect(h: Holdings, k: int, b: Boid, to: int)
    requires Fits(h) && 0 <= k < |h.boids| && 1 <= to <= |h.boids| && to - 1 != k
    ensures Move(h, k, b, to).boids[to - 1] == h.boids[to - 1] + [b]
    ensures forall x :: x in Move(h, k, b, to).boids[k] <==> x in h.boids[k] && x.id != b.id
    ensures forall j :: 0 <= j < |h.boids| && j != k && j != to - 1 ==> Move(h, k, b, to).boids[j] == h.boids[j]
  {
  }

  /**
   * transfer_step as written: the loop walks the live list of partition k
   * by position while each transfer rewrites that list, so the boid that
   * slides into the position of a removed one is never examined.
   */
  function LiveRun(h: Holdings, k: int, target: Boid -> Option<int>, i: nat): (r: Holdings)
    requires Fits(h) && 0 <= k < |h.boids| && Aims(target, |h.boids|)
    ensures Fits(r) && |r.boids| == |h.boids|
    decreases |h.boids[k]| - i
  {
    if i >= |h.boids[k]| then h
    else
      var b := h.boids[k][i];
      match target(b)
      case None => LiveRun(h, k, target, i + 1)
      case Some(to) =>
        assert b in h.boids[k];
        LiveRun(Move(h, k, b, to), k, target, i + 1)
  }

  /**
   * The scan of partition k over a snapshot of its list: every boid that was
   * there when the scan began is examined once, in order.
   */
  function SnapshotRun(h: Holdings, k: int, target: Boid -> Option<int>, pending: seq<Boid>): (r: Holdings)
    requires Fits(h) && 0 <= k < |h.boids| && Aims(target, |h.boids|)
    ensures Fits(r) && |r.boids| == |h.boids|
    decreases |pending|
  {
    if |pending| == 0 then h
    else match target(pending[0])
      case None => SnapshotRun(h, k, target, pending[1..])
      case Some(to) => SnapshotRun(Move(h, k, pending[0], to), k, target, pending[1..])
  }

  /** The boids of a list that have no partition to go to. */
  function Staying(target: Boid -> Option<int>, s: seq<Boid>): (r: seq<Boid>)
    ensures |r| <= |s|
  {
    if |s| == 0 then []
    else (if target(s[0]).None? then [s[0]] else []) + Staying(target, s[1..])
  }

  /** The boids of a list that go to partition `to`, in list order. */
  function SentTo(target: Boid -> Option<int>, s: seq<Boid>, to: int): (r: seq<Boid>)
    ensures |r| <= |s|
  {
    if |s| == 0 then []
    else (if target(s[0]) == Some(to) then [s[0]] else []) + SentTo(target, s[1..], to)
  }

  /** The number of boids of a list that leave. */
  function Leaving(target: Boid -> Option<int>, s: seq<Boid>): (r: nat)
        ensures r == |s| - |Staying(target, s)|
  {
    if |s| == 0 then 0
    else (if target(s[0]).None? then 0 else 1) + Leaving(target, s[1..])
  }

  /** The boids that stay are those of the list with nowhere to go. */
  lemma {:induction false} StayingMembers(target: Boid -> Option<int>, s: seq<Boid>)
    ensures forall b :: b in Staying(target, s) <==> b in s && target(b).None?
  {
    if |s| > 0 {
      StayingMembers(target, s[1..]);
      assert s == [s[0]] + s[1..];
    }
  }

  /** The boids sent to a partition are those of the list bound for it. */
  lemma {:induction false} SentToMembers(target: Boid -> Option<int>, s: seq<Boid>, to: int)
    ensures forall b :: b in SentTo(target, s, to) <==> b in s && target(b) == Some(to)
  {
    if |s| > 0 {
      SentToMembers(target, s[1..], to);
      assert s == [s[0]] + s[1..];
    }
  }

  /**
   * The snapshot scan does what transfer_step is for. With distinct boid ids
   * and no partition its own neighbour, partition k keeps exactly the boids
   * that have nowhere to go, in order, and counts one fewer for every boid
   * that left. The lemma covers a scan part-way through: `kept` have been
   * examined and stayed, `pending` are still to come.
   */
  lemma {:induction false} SnapshotKeeps(h: Holdings, k: int, target: Boid -> Option<int>,
                                          kept: seq<Boid>, pending: seq<Boid>)
    requires Fits(h) && 0 <= k < |h.boids| && Aims(target, |h.boids|)
    requires forall b :: target(b) != Some(k + 1)
    requires h.boids[k] == kept + pending && DistinctIds(kept + pending)
    ensures SnapshotRun(h, k, target, pending).boids[k] == kept + Staying(target, pending)
    ensures SnapshotRun(h, k, target, pending).counts[k] == h.counts[k] - Leaving(target, pending)
    decreases |pending|
  {
    if |pending| > 0 {
      var p := pending[0];
      var rest := pending[1..];
      assert pending == [p] + rest;
      match target(p)
      case None =>
        assert (kept + [p]) + rest == kept + pending;
        SnapshotKeeps(h, k, target, kept + [p], rest);
        assert kept + Staying(target, pending) == (kept + [p]) + Staying(target, rest);
      case Some(to) =>
        DropPending(h, k, kept, p, rest, to);
        SnapshotKeeps(Move(h, k, p, to), k, target, kept, rest);
        assert SnapshotRun(h, k, target, pending) == SnapshotRun(Move(h, k, p, to), k, target, rest);
        assert Staying(target, pending) == Staying(target, rest);
    }
  }

  /** Sending the next pending boid away leaves the examined ones and the rest. */
  lemma DropPending(h: Holdings, k: int, kept: seq<Boid>, p: Boid, rest: seq<Boid>, to: int)
    requires Fits(h) && 0 <= k < |h.boids| && 1 <= to <= |h.boids| && to != k + 1
    requires h.boids[k] == kept + ([p] + rest) && DistinctIds(kept + ([p] + rest))
    ensures Move(h, k, p, to).boids[k] == kept + rest && DistinctIds(kept + rest)
    ensures Move(h, k, p, to).counts[k] == h.counts[k] - 1
  {
    var s := kept + ([p] + rest);
    WithoutIdAt(s, |kept|);
    assert s[..|kept|] == kept && s[|kept| + 1..] == rest;
    DistinctIdsRemove(s, |kept|);
  }

  /**
   * The other half: every other partition receives, at the end of its list
   * and in order, the boids of the scanned list bound for it, and counts
   * one more for each.
   */
  lemma {:induction false} SnapshotDelivers(h: Holdings, k: int, target: Boid -> Option<int>, pending: seq<Boid>, j: int)
    requires Fits(h) && 0 <= k < |h.boids| && Aims(target, |h.boids|)
    requires 0 <= j < |h.boids| && j != k
    ensures SnapshotRun(h, k, target, pending).boids[j] == h.boids[j] + SentTo(target, pending, j + 1)
    ensures SnapshotRun(h, k, target, pending).counts[j] == h.counts[j] + |SentTo(target, pending, j + 1)|
    decreases |pending|
  {
    if |pending| > 0 {
      var p := pending[0];
      var rest := pending[1..];
      match target(p)
      case None =>
        SnapshotDelivers(h, k, target, rest, j);
        assert SnapshotRun(h, k, target, pending) == SnapshotRun(h, k, target, rest);
        assert SentTo(target, pending, j + 1) == SentTo(target, rest, j + 1);
      case Some(to) =>
        var h' := Move(h, k, p, to);
        var r := SnapshotRun(h', k, target, rest);
        var extra := if to == j + 1 then [p] else [];
        assert SnapshotRun(h, k, target, pending) == r;
        assert SentTo(target, pending, j + 1) == extra + SentTo(target, rest, j + 1);
        assert h'.boids[j] == h.boids[j] + extra && h'.counts[j] == h.counts[j] + |extra| by {
          MoveElsewhere(h, k, p, to, j);
        }
        assert r.boids[j] == h'.boids[j] + SentTo(target, rest, j + 1) &&
               r.counts[j] == h'.counts[j] + |SentTo(target, rest, j + 1)| by {
          SnapshotDelivers(h', k, target, rest, j);
        }
        assert (h.boids[j] + extra) + SentTo(target, rest, j + 1) == h.boids[j] + (extra + SentTo(target, rest, j + 1));
    }
  }

  /** A transfer from partition k changes another partition only if it is the target. */
  lemma MoveElsewhere(h: Holdings, k: int, b: Boid, to: int, j: int)
    requires Fits(h) && 0 <= k < |h.boids| && 1 <= to <= |h.boids| && 0 <= j < |h.boids| && j != k
    ensures Move(h, k, b, to).boids[j] == h.boids[j] + (if to == j + 1 then [b] else [])
    ensures Move(h, k, b, to).counts[j] == h.counts[j] + (if to == j + 1 then 1 else 0)
  {
  }

  /** One boid of partition k offered to its transfer rule: moved if the rule names a partition. */
  function Offered(h: Holdings, k: int, target: Boid -> Option<int>, b: Boid): (r: Holdings)
    requires Fits(h) && 0 <= k < |h.boids| && Aims(target, |h.boids|)
  {
    match target(b)
    case None => h
    case Some(to) => Move(h, k, b, to)
  }

  /**
   * One step of the scan as written: the boid at the index is offered, and
   * a boid handed to another partition leaves the list shorter.
   */
  lemma LiveRunStep(h: Holdings, k: int, target: Boid -> Option<int>, i: nat)
    requires Fits(h) && 0 <= k < |h.boids| && Aims(target, |h.boids|) && i < |h.boids[k]|
    requires forall b :: target(b) != Some(k + 1)
    ensures LiveRun(h, k, target, i) == LiveRun(Offered(h, k, target, h.boids[k][i]), k, target, i + 1)
    ensures |Offered(h, k, target, h.boids[k][i]).boids[k]| - (i + 1) < |h.boids[k]| - i
  {
    assert h.boids[k][i] in h.boids[k];
  }

  /** Any scan, as written or over a snapshot, keeps the total boid count. */
  lemma {:induction false} LiveRunKeepsTotal(h: Holdings, k: int, target: Boid -> Option<int>, i: nat)
    requires Fits(h) && 0 <= k < |h.boids| && Aims(target, |h.boids|)
    ensures Sum(LiveRun(h, k, target, i).counts) == Sum(h.counts)
    decreases |h.boids[k]| - i
  {
    if i < |h.boids[k]| {
      var b := h.boids[k][i];
      match target(b)
      case None => LiveRunKeepsTotal(h, k, target, i + 1);
      case Some(to) =>
        assert b in h.boids[k];
        MoveKeepsTotal(h, k, b, to);
        LiveRunKeepsTotal(Move(h, k, b, to), k, target, i + 1);
    }
  }

  lemma {:induction false} SnapshotRunKeepsTotal(h: Holdings, k: int, target: Boid -> Option<int>, pending: seq<Boid>)
    requires Fits(h) && 0 <= k < |h.boids| && Aims(target, |h.boids|)
    ensures Sum(SnapshotRun(h, k, target, pending).counts) == Sum(h.counts)
    decreases |pending|
  {
    if |pending| > 0 {
      match target(pending[0])
      case None => SnapshotRunKeepsTotal(h, k, target, pending[1..]);
      case Some(to) =>
        MoveKeepsTotal(h, k, pending[0], to);
        SnapshotRunKeepsTotal(Move(h, k, pending[0], to), k, target, pending[1..]);
    }
  }

  /**
   * transfer_step over every partition in id order, each scanning a
   * snapshot of its list as it stands when its turn comes (boids received
   * from earlier partitions included).
   */
  function Sweep(h: Holdings, ns: seq<seq<int>>, bs: seq<seq<int>>, k: nat): (r: Holdings)
    requires Fits(h) && |ns| == |h.boids| && Shaped(ns, bs) && Linked(ns, |ns|)
    ensures Fits(r) && |r.boids| == |h.boids|
    decreases |h.boids| - k
  {
    if k >= |h.boids| then h
    else
      TargetOfAims(ns[k], bs[k], |ns|, k + 1);
      Sweep(SnapshotRun(h, k, TargetOf(ns[k], bs[k]), h.boids[k]), ns, bs, k + 1)
  }

  lemma {:induction false} SweepKeepsTotal(h: Holdings, ns: seq<seq<int>>, bs: seq<seq<int>>, k: nat)
    requires Fits(h) && |ns| == |h.boids| && Shaped(ns, bs) && Linked(ns, |ns|)
    ensures Sum(Sweep(h, ns, bs, k).counts) == Sum(h.counts)
    decreases |h.boids| - k
  {
    if k < |h.boids| {
      TargetOfAims(ns[k], bs[k], |ns|, k + 1);
      SnapshotRunKeepsTotal(h, k, TargetOf(ns[k], bs[k]), h.boids[k]);
      SweepKeepsTotal(SnapshotRun(h, k, TargetOf(ns[k], bs[k]), h.boids[k]), ns, bs, k + 1);
    }
  }

  // The scan as written against the snapshot scan.

  const West := [2, 2, 2, 2, 2, 2, 2, 2]
  const Square := [0, 0, 10, 10]
  const A := Boid(1, -1.0, 5.0)
  const B := Boid(2, -1.0, 5.0)

  /** Both boids are past the west bound, and every neighbour is partition 2. */
  lemma WestTargets()
    ensures Aims(TargetOf(West, Square), 2)
    ensures TransferTarget(West, Square, A) == Some(2) && TransferTarget(West, Square, B) == Some(2)
  {
    TargetOfAims(West, Square, 2, 1);
  }

  /** Sending A from [[A, B], []] leaves [[B], [A]]. */
  lemma SendFirst()
    ensures Move(Holdings([[A, B], []], [2, 0]), 0, A, 2) == Holdings([[B], [A]], [1, 1])
  {
    assert WithoutId([A, B], 1) == [B] by {
      assert [A, B][1..] == [B] && [B][1..] == [];
      assert WithoutId([B], 1) == [B] + WithoutId([], 1);
    }
    assert [] + [A] == [A];
  }

  /** Sending B from [[B], [A]] leaves [[], [A, B]]. */
  lemma SendSecond()
    ensures Move(Holdings([[B], [A]], [1, 1]), 0, B, 2) == Holdings([[], [A, B]], [0, 2])
  {
    assert WithoutId([B], 2) == [] by {
      assert [B][1..] == [];
    }
    assert [A] + [B] == [A, B];
  }

  /**
   * Two boids both past the west bound of partition 1, whose neighbours are
   * all partition 2: the scan as written sends the first and never looks at
   * the second, which stays behind although it has a partition to go to.
   */
  lemma LiveRunSkipsBoid()
    ensures LiveRun(Holdings([[A, B], []], [2, 0]), 0, TargetOf(West, Square), 0).boids == [[B], [A]]
    ensures TransferTarget(West, Square, B) == Some(2)
  {
    WestTargets();
    SendFirst();
    var h1 := Holdings([[B], [A]], [1, 1]);
    assert LiveRun(h1, 0, TargetOf(West, Square), 1) == h1;
  }

  /** On the same input the snapshot scan sends both boids. */
  lemma SnapshotSendsBoth()
    ensures SnapshotRun(Holdings([[A, B], []], [2, 0]), 0, TargetOf(West, Square), [A, B]).boids == [[], [A, B]]
  {
    WestTargets();
    SendFirst();
    SendSecond();
    var h1 := Holdings([[B], [A]], [1, 1]);
    assert [A, B][1..] == [B] && [B][1..] == [];
    assert SnapshotRun(h1, 0, TargetOf(West, Square), [B]) ==
           SnapshotRun(Holdings([[], [A, B]], [0, 2]), 0, TargetOf(West, Square), []);
  }
}
