// The BoidCPU core of the FPGA implementation: its boid array, the queue of
// boids arriving from neighbours, the buffer of commands waiting to be sent,
// and the bound tests, transfers and packing that move boids between cores.
module FpgaBoidCpu {
  import opened Common
  import opened Wire
  import Migration

  const MAX_OUTPUT_CMDS := 15
  const BOIDS_PER_MSG := 9

  // ---------------------------------------------------------------------
  // Bound tests.

  /**
   * isBoidBeyondSingle for a side bearing: strictly past the bound, the
   * sixteenths of the position compared with the whole-pixel bound.
   */
  predicate BeyondSingle(b: Boid, c: seq<int>, edge: int)
    requires |c| == 4 && edge in {NORTH, EAST, SOUTH, WEST}
  {
    if edge == NORTH then b.py < 16 * c[Y_MIN]
    else if edge == EAST then b.px > 16 * c[X_MAX]
    else if edge == SOUTH then b.py > 16 * c[Y_MAX]
    else b.px < 16 * c[X_MIN]
  }

  /** isBoidBeyond as written: every diagonal bearing gets the north-and-west test. */
  predicate IsBoidBeyond(b: Boid, c: seq<int>, d: int)
    requires |c| == 4 && IsBearing(d)
  {
    if d % 2 == 0 then BeyondSingle(b, c, NORTH) && BeyondSingle(b, c, WEST)
    else BeyondSingle(b, c, d)
  }

  /** The boid as the Python partitions see it: its position in pixels. */
  function AsMigration(b: Boid): Migration.Boid
  {
    Migration.Boid(b.id, b.px as real / 16.0, b.py as real / 16.0)
  }

  /**
   * The side tests agree with the rule of the Python partitions; the
   * diagonal tests agree only for north-west.
   */
  lemma SideTestsAgree(b: Boid, c: seq<int>, d: int)
    requires |c| == 4 && IsBearing(d)
    ensures d % 2 == 1 ==> (IsBoidBeyond(b, c, d) <==> Migration.Beyond(AsMigration(b), c, d))
    ensures d % 2 == 0 ==> (IsBoidBeyond(b, c, d) <==> Migration.Beyond(AsMigration(b), c, NORTHWEST))
  {
    var m := AsMigration(b);
    assert BeyondSingle(b, c, NORTH) <==> Migration.BeyondNorth(m, c);
    assert BeyondSingle(b, c, EAST) <==> Migration.BeyondEast(m, c);
    assert BeyondSingle(b, c, SOUTH) <==> Migration.BeyondSouth(m, c);
    assert BeyondSingle(b, c, WEST) <==> Migration.BeyondWest(m, c);
  }

  // ---------------------------------------------------------------------
  // The escape list of calculateEscapedBoids.

  /** A bearing of calculateEscapedBoids applies: a neighbour is there and the boid is beyond. */
  predicate Escaping(nbrs: seq<int>, c: seq<int>, b: Boid, d: int)
    requires |nbrs| == 8 && |c| == 4 && IsBearing(d)
  {
    nbrs[d] > 0 && IsBoidBeyond(b, c, d)
  }

  /** The (id, recipient) pairs recorded for one boid over bearings 0 .. k-1. */
  function BearingEscapes(nbrs: seq<int>, c: seq<int>, b: Boid, k: int): (r: seq<(int, int)>)
    requires |nbrs| == 8 && |c| == 4 && 0 <= k <= 8
    ensures |r| <= k
    ensures forall d :: 0 <= d < k && Escaping(nbrs, c, b, d) ==> (b.id, nbrs[d]) in r
    ensures forall e :: e in r ==> e.0 == b.id && exists d :: 0 <= d < k && e.1 == nbrs[d] && Escaping(nbrs, c, b, d)
  {
    if k == 0 then []
    else BearingEscapes(nbrs, c, b, k - 1) + (if Escaping(nbrs, c, b, k - 1) then [(b.id, nbrs[k - 1])] else [])
  }

  /**
   * calculateEscapedBoids' list: for each boid in order, one pair for every
   * bearing that applies; nothing stops at the first.
   */
  function Escapes(nbrs: seq<int>, c: seq<int>, s: seq<Boid>): (r: seq<(int, int)>)
    requires |nbrs| == 8 && |c| == 4
    ensures |r| <= 8 * |s|
    ensures forall e :: e in r ==> exists i :: 0 <= i < |s| && e.0 == s[i].id
  {
    if |s| == 0 then []
    else
      var p := s[..|s| - 1];
      var r := Escapes(nbrs, c, p) + BearingEscapes(nbrs, c, s[|s| - 1], 8);
      assert forall i :: 0 <= i < |p| ==> p[i] == s[i];
      r
  }

  /**
   * Every bearing that applies to a boid is listed, and the list is empty
   * exactly when no bearing applies to any boid: only then is an ACK sent
   * instead of a transfer.
   */
  lemma {:induction false} EscapesComplete(nbrs: seq<int>, c: seq<int>, s: seq<Boid>)
    requires |nbrs| == 8 && |c| == 4
    ensures forall i, d :: 0 <= i < |s| && IsBearing(d) && Escaping(nbrs, c, s[i], d) ==> (s[i].id, nbrs[d]) in Escapes(nbrs, c, s)
    ensures |Escapes(nbrs, c, s)| == 0 <==> forall i, d :: 0 <= i < |s| && IsBearing(d) ==> !Escaping(nbrs, c, s[i], d)
  {
    if |s| > 0 {
      var p := s[..|s| - 1];
      var x := s[|s| - 1];
      var last := BearingEscapes(nbrs, c, x, 8);
      var r := Escapes(nbrs, c, s);
      EscapesComplete(nbrs, c, p);
      assert r == Escapes(nbrs, c, p) + last;
      forall i, d | 0 <= i < |s| && IsBearing(d) && Escaping(nbrs, c, s[i], d) ensures (s[i].id, nbrs[d]) in r {
        if i < |p| {
          assert p[i] == s[i];
          assert (s[i].id, nbrs[d]) in Escapes(nbrs, c, p);
        } else {
          assert (x.id, nbrs[d]) in last;
        }
      }
      if |r| == 0 {
        forall i, d | 0 <= i < |s| && IsBearing(d) ensures !Escaping(nbrs, c, s[i], d) {
          if i < |p| {
            assert p[i] == s[i];
          } else if Escaping(nbrs, c, x, d) {
            assert (x.id, nbrs[d]) in last;
          }
        }
      } else if |last| > 0 {
        assert last[0] in last;
        var d :| 0 <= d < 8 && last[0].1 == nbrs[d] && Escaping(nbrs, c, x, d);
        assert IsBearing(d) && Escaping(nbrs, c, s[|s| - 1], d);
        assert |r| > 0;
      } else {
        var i, d :| 0 <= i < |p| && IsBearing(d) && Escaping(nbrs, c, p[i], d);
        assert p[i] == s[i];
      }
    }
  }

  /** The ids of a pair list. */
  function Ids(pairs: seq<(int, int)>): (ids: seq<int>)
    ensures |ids| == |pairs| && forall i :: 0 <= i < |pairs| ==> ids[i] == pairs[i].0
  {
    seq(|pairs|, i requires 0 <= i < |pairs| => pairs[i].0)
  }

  // ---------------------------------------------------------------------
  // Removal in transmitBoids.

  /** The first index holding the id, or the length when there is none. */
  function FirstIndex(s: seq<Boid>, id: int): (k: nat)
    ensures k <= |s|
    ensures k < |s| ==> s[k].id == id
    ensures forall j :: 0 <= j < k ==> s[j].id != id
  {
    if |s| == 0 then 0
    else if s[0].id == id then 0
    else 1 + FirstIndex(s[1..], id)
  }

  /**
   * One pass of transmitBoids' removal loop: the entries after the first
   * one with the id move down by one; when no entry has the id nothing
   * moves; either way the count drops by one, so an absent id loses the
   * last boid.
   */
  function RemoveShift(s: seq<Boid>, id: int): (r: seq<Boid>)
    requires |s| > 0
    ensures |r| == |s| - 1
    ensures forall t :: 0 <= t < |r| ==> r[t] == if FirstIndex(s, id) <= t then s[t + 1] else s[t]
  {
    var k := FirstIndex(s, id);
    if k < |s| then s[..k] + s[k + 1..] else s[..|s| - 1]
  }

  /** The removal loop over the ids in order. */
  function RemoveAll(s: seq<Boid>, ids: seq<int>): (r: seq<Boid>)
    requires |ids| <= |s|
    ensures |r| == |s| - |ids|
  {
    if |ids| == 0 then s
    else RemoveShift(RemoveAll(s, ids[..|ids| - 1]), ids[|ids| - 1])
  }

  /** The removal loop never introduces a boid: whatever is left was there before. */
  lemma {:induction false} RemoveAllKeeps(s: seq<Boid>, ids: seq<int>)
    requires |ids| <= |s|
    ensures forall b :: b in RemoveAll(s, ids) ==> b in s
  {
    if |ids| > 0 {
      var r := RemoveAll(s, ids[..|ids| - 1]);
      RemoveAllKeeps(s, ids[..|ids| - 1]);
      var r' := RemoveShift(r, ids[|ids| - 1]);
      forall b | b in r' ensures b in s {
        var t :| 0 <= t < |r'| && r'[t] == b;
        assert b in r;
      }
    }
  }

  /** Removing one more id removes it from what the earlier ids left. */
  lemma RemoveAllNext(s: seq<Boid>, done: seq<int>, id: int)
    requires |done| < |s|
    ensures RemoveAll(s, done + [id]) == RemoveShift(RemoveAll(s, done), id)
  {
    assert (done + [id])[..|done|] == done;
  }

  /** The ids of a list are pairwise distinct. */
  predicate UniqueIds(s: seq<Boid>)
  {
    forall i, j :: 0 <= i < j < |s| ==> s[i].id != s[j].id
  }

  // ---------------------------------------------------------------------
  // The intended escape list: one pair per boid, by the Python rule.

  /** The neighbour a boid should go to, by the transfer rule of the Python partitions. */
  function Route(nbrs: seq<int>, c: seq<int>, b: Boid): (r: Option<int>)
    requires |nbrs| == 8 && |c| == 4
    ensures r.Some? ==> r.value != 0 && r.value in nbrs
    ensures r.Some? <==> exists d :: IsBearing(d) && Migration.Fires(nbrs, c, AsMigration(b), d)
  {
    Migration.TransferTarget(nbrs, c, AsMigration(b))
  }

  /** One pair for each boid that has a route, in boid order. */
  function Routes(nbrs: seq<int>, c: seq<int>, s: seq<Boid>): (r: seq<(int, int)>)
    requires |nbrs| == 8 && |c| == 4
    ensures |r| <= |s|
  {
    if |s| == 0 then []
    else
      var b := s[|s| - 1];
      Routes(nbrs, c, s[..|s| - 1]) + (match Route(nbrs, c, b) case Some(t) => [(b.id, t)] case None => [])
  }

  /** The boids that have no route, in order. */
  function Staying(nbrs: seq<int>, c: seq<int>, s: seq<Boid>): (r: seq<Boid>)
    requires |nbrs| == 8 && |c| == 4
    ensures |r| + |Routes(nbrs, c, s)| == |s|
    ensures forall b :: b in r ==> b in s && Route(nbrs, c, b).None?
  {
    if |s| == 0 then []
    else
      var b := s[|s| - 1];
      var p := Staying(nbrs, c, s[..|s| - 1]);
      assert forall x :: x in p ==> x in s;
      p + (if Route(nbrs, c, b).None? then [b] else [])
  }

  /**
   * With one pair per escaping boid and distinct ids, the removal loop
   * removes exactly the escaping boids and keeps the others in order.
   */
  lemma RoutesRemoveExactly(nbrs: seq<int>, c: seq<int>, s: seq<Boid>)
    requires |nbrs| == 8 && |c| == 4 && UniqueIds(s)
    ensures RemoveAll(s, Ids(Routes(nbrs, c, s))) == Staying(nbrs, c, s)
  {
    RemoveRoutedPrefix(nbrs, c, s, []);
    assert s + [] == s && Staying(nbrs, c, s) + [] == Staying(nbrs, c, s);
  }

  lemma {:induction false} RemoveRoutedPrefix(nbrs: seq<int>, c: seq<int>, p: seq<Boid>, q: seq<Boid>)
    requires |nbrs| == 8 && |c| == 4 && UniqueIds(p + q)
    ensures RemoveAll(p + q, Ids(Routes(nbrs, c, p))) == Staying(nbrs, c, p) + q
    decreases |p|
  {
    if |p| > 0 {
      var p', x := p[..|p| - 1], p[|p| - 1];
      assert p + q == p' + ([x] + q);
      RemoveRoutedPrefix(nbrs, c, p', [x] + q);
      var st := Staying(nbrs, c, p');
      var rt := Route(nbrs, c, x);
      RoutedSnoc(nbrs, c, p);
      assert st + ([x] + q) == st + [x] + q;
      var ids := Ids(Routes(nbrs, c, p));
      if rt.Some? {
        StayingIdsBefore(nbrs, c, p', x, q);
        RemoveFirst(st, x, q);
        assert RemoveAll(p + q, ids) == RemoveShift(RemoveAll(p + q, ids[..|ids| - 1]), x.id);
      } else {
        assert ids == Ids(Routes(nbrs, c, p'));
      }
    }
  }

  /** Routes and Staying of a list, one boid at a time from the end. */
  lemma RoutedSnoc(nbrs: seq<int>, c: seq<int>, p: seq<Boid>)
    requires |nbrs| == 8 && |c| == 4 && |p| > 0
    ensures var p', x := p[..|p| - 1], p[|p| - 1];
      var rt := Route(nbrs, c, x);
      (rt.None? ==> Staying(nbrs, c, p) == Staying(nbrs, c, p') + [x] && Ids(Routes(nbrs, c, p)) == Ids(Routes(nbrs, c, p'))) &&
      (rt.Some? ==> Staying(nbrs, c, p) == Staying(nbrs, c, p') &&
                    Ids(Routes(nbrs, c, p))[..|Routes(nbrs, c, p)| - 1] == Ids(Routes(nbrs, c, p')) &&
                    |Routes(nbrs, c, p)| > 0 && Ids(Routes(nbrs, c, p))[|Routes(nbrs, c, p)| - 1] == x.id)
  {
  }

  /** No boid staying among the first ones shares the id of a later boid. */
  lemma StayingIdsBefore(nbrs: seq<int>, c: seq<int>, p': seq<Boid>, x: Boid, q: seq<Boid>)
    requires |nbrs| == 8 && |c| == 4 && UniqueIds(p' + ([x] + q))
    ensures forall j :: 0 <= j < |Staying(nbrs, c, p')| ==> Staying(nbrs, c, p')[j].id != x.id
  {
    var st := Staying(nbrs, c, p');
    var all := p' + ([x] + q);
    forall j | 0 <= j < |st| ensures st[j].id != x.id {
      assert st[j] in p';
      var i :| 0 <= i < |p'| && p'[i] == st[j];
      assert all[i] == p'[i] && all[|p'|] == x;
    }
  }

  /** Removing the id of x from a list where x is the first to carry it cuts out x alone. */
  lemma RemoveFirst(st: seq<Boid>, x: Boid, q: seq<Boid>)
    requires forall j :: 0 <= j < |st| ==> st[j].id != x.id
    ensures RemoveShift(st + [x] + q, x.id) == st + q
  {
    var r := st + [x] + q;
    assert r[|st|] == x;
    assert FirstIndex(r, x.id) == |st|;
    assert r[..|st|] == st && r[|st| + 1..] == q;
  }

  // ---------------------------------------------------------------------
  // Commands and the output buffer.

  /** generateOutput: a command is kept only while the buffer has room. */
  function EnqueueOne(out: seq<seq<int>>, cmd: seq<int>): (r: seq<seq<int>>)
  {
    if |out| > MAX_OUTPUT_CMDS - 1 then out else out + [cmd]
  }

  /** Several generateOutput calls in a row. */
  function Enqueue(out: seq<seq<int>>, cmds: seq<seq<int>>): (r: seq<seq<int>>)
  {
    if |cmds| == 0 then out else EnqueueOne(Enqueue(out, cmds[..|cmds| - 1]), cmds[|cmds| - 1])
  }

  /** A buffer with room keeps a prefix of what is sent and drops the rest, never more than 15 commands. */
  lemma {:induction false} EnqueueKeepsPrefix(out: seq<seq<int>>, cmds: seq<seq<int>>)
    requires |out| <= MAX_OUTPUT_CMDS
    ensures Enqueue(out, cmds) == out + cmds[..Min(|cmds|, MAX_OUTPUT_CMDS - |out|)]
    ensures |Enqueue(out, cmds)| <= MAX_OUTPUT_CMDS
  {
    if |cmds| > 0 {
      EnqueueKeepsPrefix(out, cmds[..|cmds| - 1]);
      var m := Min(|cmds| - 1, MAX_OUTPUT_CMDS - |out|);
      assert cmds[..|cmds| - 1][..m] == cmds[..m];
      if |out| + m < MAX_OUTPUT_CMDS {
        assert cmds[..m] + [cmds[|cmds| - 1]] == cmds[..m + 1];
      }
    }
  }

  lemma EnqueueSnoc(out: seq<seq<int>>, cmds: seq<seq<int>>, cmd: seq<int>)
    ensures Enqueue(out, cmds + [cmd]) == EnqueueOne(Enqueue(out, cmds), cmd)
  {
    assert (cmds + [cmd])[..|cmds|] == cmds;
  }

  /** sendAck's command. */
  function Ack(from: int, mode: int): (cmd: seq<int>)
    ensures cmd == Command(1, CONTROLLER_ID, from, CMD_ACK, [mode])
  {
    Command(1, CONTROLLER_ID, from, CMD_ACK, [mode])
  }

  /** transmitBoids' message for one pair: the first boid with the id, sent whole. */
  function Send(s: seq<Boid>, pair: (int, int), from: int): (r: seq<seq<int>>)
    ensures |r| <= 1
    ensures |r| == 1 <==> exists k :: 0 <= k < |s| && s[k].id == pair.0
  {
    var k := FirstIndex(s, pair.0);
    if k < |s| then [Command(5, pair.1, from, CMD_BOID, BoidWords(s[k]))] else []
  }

  /** transmitBoids' messages, one per pair whose id is found. */
  function Sends(s: seq<Boid>, pairs: seq<(int, int)>, from: int): (r: seq<seq<int>>)
    ensures |r| <= |pairs|
    ensures forall cmd :: cmd in r ==> |cmd| == 9 && cmd[CMD_TYPE] == CMD_BOID && cmd[CMD_FROM] == from
  {
    if |pairs| == 0 then [] else Sends(s, pairs[..|pairs| - 1], from) + Send(s, pairs[|pairs| - 1], from)
  }

  // ---------------------------------------------------------------------
  // Packing boids into messages.

  /** The message count packBoidsForSending computes: 3n words over bodies of 29. */
  function AsWrittenMsgCount(n: nat): nat
  {
    (BOID_DATA_LENGTH * n + MAX_CMD_BODY_LEN - 2) / (MAX_CMD_BODY_LEN - 1)
  }

  /** The message count needed at nine boids a message. */
  function NeededMsgCount(n: nat): nat
  {
    (n + BOIDS_PER_MSG - 1) / BOIDS_PER_MSG
  }

  /** A command whose length word is its length and whose body has a first word. */
  predicate Sized(cmd: seq<int>)
  {
    |cmd| >= 5 && cmd[CMD_LEN] == |cmd|
  }

  /** Message i of msgs: the count of messages still to follow, then the packed boids 9i .. 9i+8. */
  function Message(bs: seq<Boid>, i: nat, msgs: nat, to: int, from: int, kind: int): (cmd: seq<int>)
    requires forall k :: 0 <= k < |bs| ==> WellFormed(bs[k])
    requires i < msgs && BOIDS_PER_MSG * i <= |bs|
    ensures Sized(cmd) && cmd[CMD_HEADER_LEN] == msgs - i - 1
    ensures cmd[CMD_LEN] <= CMD_HEADER_LEN + MAX_CMD_BODY_LEN
  {
    var chunk := bs[BOIDS_PER_MSG * i..Min(BOIDS_PER_MSG * i + BOIDS_PER_MSG, |bs|)];
    var body := [msgs - i - 1] + Slots(chunk);
    Command(BOID_DATA_LENGTH * |chunk| + 1, to, from, kind, body)
  }

  /** The body built from boids 9i up to end, the lesser of 9i + 9 and the boid count, makes message i. */
  lemma ChunkMessage(bs: seq<Boid>, i: nat, msgs: nat, to: int, from: int, kind: int, end: int, body: seq<int>)
    requires forall k :: 0 <= k < |bs| ==> WellFormed(bs[k])
    requires i < msgs && BOIDS_PER_MSG * i <= end == Min(BOIDS_PER_MSG * i + BOIDS_PER_MSG, |bs|)
    requires body == [msgs - i - 1] + Slots(bs[BOIDS_PER_MSG * i..end])
    ensures Command(|body|, to, from, kind, body) == Message(bs, i, msgs, to, from, kind)
  {
  }

  /** The messages for a boid list in msgs parts. */
  function Messages(bs: seq<Boid>, msgs: nat, to: int, from: int, kind: int): (cmds: seq<seq<int>>)
    requires forall k :: 0 <= k < |bs| ==> WellFormed(bs[k])
    requires BOIDS_PER_MSG * msgs < |bs| + BOIDS_PER_MSG
    ensures |cmds| == msgs
    ensures forall i :: 0 <= i < msgs ==> cmds[i] == Message(bs, i, msgs, to, from, kind)
  {
    seq(msgs, i requires 0 <= i < msgs => Message(bs, i, msgs, to, from, kind))
  }

  /** The lone message sent when there are no boids: a body of one zero. */
  function EmptyMessage(to: int, from: int, kind: int): seq<int>
  {
    Command(1, to, from, kind, [0])
  }

  /** What packBoidsForSending sends, as written. */
  function Packed(bs: seq<Boid>, to: int, from: int, kind: int): (cmds: seq<seq<int>>)
    requires forall k :: 0 <= k < |bs| ==> WellFormed(bs[k])
  {
    if |bs| == 0 then [EmptyMessage(to, from, kind)]
    else
      AsWrittenCountFits(|bs|);
      Messages(bs, AsWrittenMsgCount(|bs|), to, from, kind)
  }

  /** What packBoidsForSending would send with a count of ceil(n / 9) messages. */
  function PackedAll(bs: seq<Boid>, to: int, from: int, kind: int): (cmds: seq<seq<int>>)
    requires forall k :: 0 <= k < |bs| ==> WellFormed(bs[k])
  {
    if |bs| == 0 then [EmptyMessage(to, from, kind)]
    else Messages(bs, NeededMsgCount(|bs|), to, from, kind)
  }

  lemma AsWrittenCountFits(n: nat)
    ensures BOIDS_PER_MSG * AsWrittenMsgCount(n) < n + BOIDS_PER_MSG
    ensures n > 0 ==> AsWrittenMsgCount(n) > 0
  {
  }

  /**
   * The receiver's reading of one message: (length - 5) / 3 boids, each
   * parsed from its three words, the two packed words as 32-bit words.
   */
  function Unpacked(cmd: seq<int>): (bs: seq<Boid>)
    requires Sized(cmd)
    ensures |bs| == (|cmd| - 5) / BOID_DATA_LENGTH
    ensures forall k :: 0 <= k < |bs| ==> bs[k] == SlotAt(cmd, k)
  {
    var n := (|cmd| - 5) / BOID_DATA_LENGTH;
    seq(n, k requires 0 <= k < n => SlotAt(cmd, k))
  }

  /** parsePackedBoid for slot k of a message: the two packed words read as 32-bit words. */
  function SlotAt(cmd: seq<int>, k: nat): Boid
    requires 8 + 3 * k <= |cmd|
  {
    ParseBoid([U32(cmd[5 + 3 * k]), U32(cmd[6 + 3 * k]), cmd[7 + 3 * k]])
  }

  /** A slot holding a packed boid parses to that boid. */
  lemma SlotRoundTrip(cmd: seq<int>, k: nat, b: Boid)
    requires 8 + 3 * k <= |cmd| && WellFormed(b)
    requires cmd[5 + 3 * k..8 + 3 * k] == PackBoid(b)
    ensures SlotAt(cmd, k) == b
  {
    var slot := PackBoid(b);
    var j := 3 * k;
    assert cmd[5 + j] == slot[0] && cmd[6 + j] == slot[1] && cmd[7 + j] == slot[2];
    assert [U32(cmd[5 + j]), U32(cmd[6 + j]), cmd[7 + j]] == slot;
    BoidRoundTrip(b);
  }

  /** Every boid the receiver reads from a list of messages, in order. */
  function Delivered(cmds: seq<seq<int>>): (bs: seq<Boid>)
    requires forall i :: 0 <= i < |cmds| ==> Sized(cmds[i])
  {
    if |cmds| == 0 then [] else Delivered(cmds[..|cmds| - 1]) + Unpacked(cmds[|cmds| - 1])
  }

  /** The receiver reads back exactly the boids of one message. */
  lemma MessageRoundTrip(bs: seq<Boid>, i: nat, msgs: nat, to: int, from: int, kind: int)
    requires forall k :: 0 <= k < |bs| ==> WellFormed(bs[k])
    requires i < msgs && BOIDS_PER_MSG * i <= |bs|
    ensures Unpacked(Message(bs, i, msgs, to, from, kind)) ==
            bs[BOIDS_PER_MSG * i..Min(BOIDS_PER_MSG * i + BOIDS_PER_MSG, |bs|)]
  {
    var chunk := bs[BOIDS_PER_MSG * i..Min(BOIDS_PER_MSG * i + BOIDS_PER_MSG, |bs|)];
    var body := [msgs - i - 1] + Slots(chunk);
    var cmd := Message(bs, i, msgs, to, from, kind);
    assert cmd == Command(|body|, to, from, kind, body);
    assert body[..|body|] == body;
    assert cmd[5..] == Slots(chunk);
    var u := Unpacked(cmd);
    assert |u| == |chunk|;
    forall k | 0 <= k < |chunk| ensures u[k] == chunk[k] {
      SlotsAt(chunk, k);
      assert cmd[5 + 3 * k..8 + 3 * k] == cmd[5..][3 * k..3 * k + 3];
      SlotRoundTrip(cmd, k, chunk[k]);
    }
  }

  /** The first k messages deliver what the first k - 1 deliver, then what message k - 1 carries. */
  lemma DeliveredPrefix(cmds: seq<seq<int>>, k: nat)
    requires forall i :: 0 <= i < |cmds| ==> Sized(cmds[i])
    requires 0 < k <= |cmds|
    ensures Delivered(cmds[..k]) == Delivered(cmds[..k - 1]) + Unpacked(cmds[k - 1])
  {
    var pre := cmds[..k];
    assert pre[..k - 1] == cmds[..k - 1];
  }

  /** The first k of msgs messages deliver the boids before 9k. */
  lemma {:induction false} MessagesDeliver(bs: seq<Boid>, msgs: nat, k: nat, to: int, from: int, kind: int)
    requires forall j :: 0 <= j < |bs| ==> WellFormed(bs[j])
    requires BOIDS_PER_MSG * msgs < |bs| + BOIDS_PER_MSG && k <= msgs
    ensures Delivered(Messages(bs, msgs, to, from, kind)[..k]) == bs[..Min(BOIDS_PER_MSG * k, |bs|)]
  {
    var cmds := Messages(bs, msgs, to, from, kind);
    if k > 0 {
      var lo := BOIDS_PER_MSG * (k - 1);
      var hi := Min(lo + BOIDS_PER_MSG, |bs|);
      assert lo <= |bs| && Min(BOIDS_PER_MSG * k, |bs|) == hi;
      MessagesDeliver(bs, msgs, k - 1, to, from, kind);
      assert Delivered(cmds[..k - 1]) == bs[..lo];
      DeliveredPrefix(cmds, k);
      assert cmds[k - 1] == Message(bs, k - 1, msgs, to, from, kind);
      MessageRoundTrip(bs, k - 1, msgs, to, from, kind);
      SliceJoin(bs, lo, hi);
    }
  }

  /** With ceil(n / 9) messages the receiver reads back the whole boid list, in order. */
  lemma PackedAllRoundTrip(bs: seq<Boid>, to: int, from: int, kind: int)
    requires forall j :: 0 <= j < |bs| ==> WellFormed(bs[j])
    ensures Delivered(PackedAll(bs, to, from, kind)) == bs
    ensures forall cmd :: cmd in PackedAll(bs, to, from, kind) ==> cmd[CMD_LEN] <= CMD_HEADER_LEN + MAX_CMD_BODY_LEN
  {
    var cmds := PackedAll(bs, to, from, kind);
    if |bs| > 0 {
      var m := NeededMsgCount(|bs|);
      MessagesDeliver(bs, m, m, to, from, kind);
      assert cmds[..m] == cmds;
      forall cmd | cmd in cmds
        ensures cmd[CMD_LEN] <= CMD_HEADER_LEN + MAX_CMD_BODY_LEN
      {
        var i :| 0 <= i < m && cmds[i] == cmd;
        assert cmd == Message(bs, i, m, to, from, kind);
      }
    } else {
      assert cmds[..0] == [];
    }
  }

  /** As written, the receiver reads only the first 9 * ceil(3n / 29) boids. */
  lemma PackedDelivers(bs: seq<Boid>, to: int, from: int, kind: int)
    requires forall j :: 0 <= j < |bs| ==> WellFormed(bs[j])
    ensures Delivered(Packed(bs, to, from, kind)) == bs[..Min(BOIDS_PER_MSG * AsWrittenMsgCount(|bs|), |bs|)]
  {
    var cmds := Packed(bs, to, from, kind);
    if |bs| > 0 {
      var m := AsWrittenMsgCount(|bs|);
      AsWrittenCountFits(|bs|);
      MessagesDeliver(bs, m, m, to, from, kind);
      assert cmds[..m] == cmds;
    } else {
      assert cmds[..0] == [];
    }
  }

  /** Nineteen boids go out in two messages of nine: the last one is never sent. */
  lemma PackedLosesBoid(bs: seq<Boid>, to: int, from: int, kind: int)
    requires forall j :: 0 <= j < |bs| ==> WellFormed(bs[j])
    requires |bs| == 19
    ensures |Packed(bs, to, from, kind)| == 2
    ensures Delivered(Packed(bs, to, from, kind)) == bs[..18]
  {
    PackedDelivers(bs, to, from, kind);
  }

  // ---------------------------------------------------------------------
  // A boid past two sides.

  /** The neighbours and bounds of the example: every neighbour present, a 10-pixel square. */
  const EX_NBRS := [4, 5, 6, 7, 8, 9, 10, 11]
  const EX_BOUNDS := [0, 0, 10, 10]
  /** Past the north and the east bound. */
  const EX_CORNER := Boid(1, 170, -5, 0, 0)
  /** Well inside. */
  const EX_INSIDE := Boid(2, 80, 80, 0, 0)

  lemma CornerBearings()
    ensures BearingEscapes(EX_NBRS, EX_BOUNDS, EX_CORNER, 8) == [(1, 5), (1, 7)]
  {
    var a := EX_CORNER;
    assert BearingEscapes(EX_NBRS, EX_BOUNDS, a, 2) == [(1, 5)];
    assert BearingEscapes(EX_NBRS, EX_BOUNDS, a, 4) == [(1, 5), (1, 7)];
    assert BearingEscapes(EX_NBRS, EX_BOUNDS, a, 6) == [(1, 5), (1, 7)];
  }

  lemma InsideBearings()
    ensures BearingEscapes(EX_NBRS, EX_BOUNDS, EX_INSIDE, 8) == []
  {
    assert BearingEscapes(EX_NBRS, EX_BOUNDS, EX_INSIDE, 2) == [];
    assert BearingEscapes(EX_NBRS, EX_BOUNDS, EX_INSIDE, 4) == [];
    assert BearingEscapes(EX_NBRS, EX_BOUNDS, EX_INSIDE, 6) == [];
  }

  /**
   * Two boids, the first past the north and east bounds: it is listed for
   * the north and for the east neighbour, so it is sent to both; the
   * second removal finds no boid with its id and drops the other boid,
   * which never left.
   */
  lemma EscapesDuplicateBoid()
    ensures Escapes(EX_NBRS, EX_BOUNDS, [EX_CORNER, EX_INSIDE]) == [(1, 5), (1, 7)]
    ensures |Sends([EX_CORNER, EX_INSIDE], [(1, 5), (1, 7)], 3)| == 2
    ensures RemoveAll([EX_CORNER, EX_INSIDE], Ids([(1, 5), (1, 7)])) == []
  {
    ExampleEscapes();
    ExampleSends();
    ExampleRemoval();
  }

  lemma ExampleEscapes()
    ensures Escapes(EX_NBRS, EX_BOUNDS, [EX_CORNER, EX_INSIDE]) == [(1, 5), (1, 7)]
  {
    var a, b := EX_CORNER, EX_INSIDE;
    CornerBearings();
    InsideBearings();
    assert [a, b][..1] == [a];
    assert [a][..0] == [];
    assert Escapes(EX_NBRS, EX_BOUNDS, [a]) == [(1, 5), (1, 7)];
  }

  lemma ExampleSends()
    ensures |Sends([EX_CORNER, EX_INSIDE], [(1, 5), (1, 7)], 3)| == 2
  {
    var s := [EX_CORNER, EX_INSIDE];
    assert s[0].id == 1;
    assert |Send(s, (1, 5), 3)| == 1;
    assert |Send(s, (1, 7), 3)| == 1;
    assert [(1, 5), (1, 7)][..1] == [(1, 5)];
    assert [(1, 5)][..0] == [];
  }

  lemma ExampleRemoval()
    ensures RemoveAll([EX_CORNER, EX_INSIDE], Ids([(1, 5), (1, 7)])) == []
  {
    var a, b := EX_CORNER, EX_INSIDE;
    var ids := Ids([(1, 5), (1, 7)]);
    assert ids == [1, 1] && ids[..1] == [1];
    assert [1][..0] == [];
    assert FirstIndex([a, b], 1) == 0;
    assert RemoveAll([a, b], [1]) == [b];
    assert FirstIndex([b], 1) == 1;
  }

  /** By the transfer rule the same boid goes north-east alone and the other boid stays. */
  lemma RoutesCornerOnce()
    ensures Routes(EX_NBRS, EX_BOUNDS, [EX_CORNER, EX_INSIDE]) == [(1, 6)]
    ensures RemoveAll([EX_CORNER, EX_INSIDE], Ids(Routes(EX_NBRS, EX_BOUNDS, [EX_CORNER, EX_INSIDE]))) == [EX_INSIDE]
  {
    var a, b := EX_CORNER, EX_INSIDE;
    var m := AsMigration(a);
    assert Migration.Fires(EX_NBRS, EX_BOUNDS, m, NORTHEAST);
    assert !Migration.Fires(EX_NBRS, EX_BOUNDS, m, NORTHWEST);
    assert Migration.TransferBearing(EX_NBRS, EX_BOUNDS, m) == Some(NORTHEAST);
    var mb := AsMigration(b);
    assert Migration.Inside(mb, EX_BOUNDS);
    assert Route(EX_NBRS, EX_BOUNDS, b).None?;
    assert [a, b][..1] == [a];
    assert Routes(EX_NBRS, EX_BOUNDS, [a]) == [(1, 6)];
    assert Ids([(1, 6)]) == [1];
  }

  // ---------------------------------------------------------------------
  // Load balancing and containment.

  /** Storing into a 12-bit signed register. */
  function I12(x: int): (r: int)
    ensures -0x800 <= r < 0x800 && (r - x) % 0x1000 == 0
    ensures -0x800 <= x < 0x800 ==> r == x
  {
    (x + 0x800) % 0x1000 - 0x800
  }

  /**
   * loadBalance's new bounds: each edge moves by its signed 4-bit field of
   * the word times the vision radius, in 12-bit registers.
   */
  function Rebounded(c: seq<int>, word: int, vr: int): (r: seq<int>)
    requires |c| == 4
    ensures |r| == 4
  {
    [I12(c[X_MIN] + vr * Field(word, WEST_IDX)), I12(c[Y_MIN] + vr * Field(word, NORTH_IDX)),
     I12(c[X_MAX] + vr * Field(word, EAST_IDX)), I12(c[Y_MAX] + vr * Field(word, SOUTH_IDX))]
  }

  /**
   * calcNextBoidPositions' containment: a position past the right or
   * bottom of the area wraps to 0, one below 0 wraps to the far side.
   */
  function Contained(b: Boid, w: int, h: int): (r: Boid)
    requires 0 <= w && 0 <= h
    ensures 0 <= r.px <= 16 * w && 0 <= r.py <= 16 * h
    ensures r.id == b.id && r.vx == b.vx && r.vy == b.vy
    ensures 0 <= b.px <= 16 * w ==> r.px == b.px
    ensures 0 <= b.py <= 16 * h ==> r.py == b.py
  {
    Boid(b.id, if b.px > 16 * w then 0 else if b.px < 0 then 16 * w else b.px,
               if b.py > 16 * h then 0 else if b.py < 0 then 16 * h else b.py, b.vx, b.vy)
  }

  /** The boids commitAcceptedBoids builds from queued entries. */
  function Commits(qs: seq<seq<int>>): (bs: seq<Boid>)
    requires forall k :: 0 <= k < |qs| ==> |qs[k]| == 5
    ensures |bs| == |qs| && forall k :: 0 <= k < |qs| ==> bs[k] == Committed(qs[k])
  {
    seq(|qs|, k requires 0 <= k < |qs| && |qs[k]| == 5 => Committed(qs[k]))
  }

  // ---------------------------------------------------------------------
  // The core's state.

  /**
   * One BoidCPU core: its bounds, neighbour table, boid array and counter,
   * the queue of boids received in the transfer phase and the buffer of
   * commands waiting to go out. MAX_BOIDS, MAX_QUEUED_BOIDS,
   * VISION_RADIUS and CMD_BOUNDS_AT_MIN are parameters.
   */
  class BoidCpu {
    const id: int
    const maxBoids: int
    const maxQueued: int
    const visionRadius: int
    const boundsAtMin: int
    const simWidth: int
    const simHeight: int
    const nbrs: seq<int>
    const nbrsSetup: bool
    const coords: array<int>
    const boids: array<Boid>
    var boidCount: int
    const queue: array<seq<int>>
    var queuedCount: int
    var outputs: seq<seq<int>>

    ghost predicate Valid()
      reads this, coords, boids, queue
    {
      coords.Length == 4 && |nbrs| == 8 && (forall d :: 0 <= d < 8 ==> IsU8(nbrs[d])) &&
      boids.Length == maxBoids < TWO8 && 0 <= boidCount <= maxBoids &&
      (forall i :: 0 <= i < boidCount ==> WellFormed(boids[i])) &&
      queue.Length == maxQueued && 0 <= queuedCount <= maxQueued &&
      (forall i :: 0 <= i < queuedCount ==> |queue[i]| == 5) &&
      |outputs| <= MAX_OUTPUT_CMDS && 0 <= simWidth < 0x800 && 0 <= simHeight < 0x800
    }

    /** boidCPUCoords: [xmin, ymin, xmax, ymax]. */
    function Bounds(): seq<int>
      reads coords
    {
      coords[..]
    }

    /** The boids held: the first boidCount entries of the array. */
    function Boids(): seq<Boid>
      requires 0 <= boidCount <= boids.Length
      reads this, boids
    {
      boids[..boidCount]
    }

    constructor (id: int, maxBoids: int, maxQueued: int, visionRadius: int, boundsAtMin: int,
                 bounds: seq<int>, nbrs: seq<int>, nbrsSetup: bool, simWidth: int, simHeight: int,
                 initial: seq<Boid>)
      requires |bounds| == 4 && |nbrs| == 8 && forall d :: 0 <= d < 8 ==> IsU8(nbrs[d])
      requires |initial| <= maxBoids < TWO8 && 0 <= maxQueued
      requires forall i :: 0 <= i < |initial| ==> WellFormed(initial[i])
      requires 0 <= simWidth < 0x800 && 0 <= simHeight < 0x800
      ensures Valid() && Bounds() == bounds && Boids() == initial && queuedCount == 0 && outputs == []
      ensures this.id == id && this.maxBoids == maxBoids && this.maxQueued == maxQueued
      ensures this.visionRadius == visionRadius && this.boundsAtMin == boundsAtMin
      ensures this.nbrs == nbrs && this.nbrsSetup == nbrsSetup
      ensures this.simWidth == simWidth && this.simHeight == simHeight
    {
      this.id := id;
      this.maxBoids := maxBoids;
      this.maxQueued := maxQueued;
      this.visionRadius := visionRadius;
      this.boundsAtMin := boundsAtMin;
      this.simWidth := simWidth;
      this.simHeight := simHeight;
      this.nbrs := nbrs;
      this.nbrsSetup := nbrsSetup;
      coords := new int[4](i requires 0 <= i < 4 => bounds[i]);
      boids := new Boid[maxBoids](i requires 0 <= i < maxBoids =>
        if i < |initial| then initial[i] else Boid(0, 0, 0, 0, 0));
      boidCount := |initial|;
      queue := new seq<int>[maxQueued](i => []);
      queuedCount := 0;
      outputs := [];
      new;
      assert coords[..] == bounds;
      assert boids[..boidCount] == initial;
    }

    /** generateOutput: the command is dropped when 15 are already waiting. */
    method GenerateOutput(len: nat, to: int, kind: int, data: seq<int>)
      requires Valid() && len <= |data|
      modifies this
      ensures Valid() && boidCount == old(boidCount) && queuedCount == old(queuedCount)
      ensures outputs == EnqueueOne(old(outputs), Command(len, to, id, kind, data))
    {
      if |outputs| > MAX_OUTPUT_CMDS - 1 {
      } else {
        outputs := outputs + [Command(len, to, id, kind, data)];
      }
    }

    /** sendAck. */
    method SendAck(mode: int)
      requires Valid()
      modifies this
      ensures Valid() && boidCount == old(boidCount) && queuedCount == old(queuedCount)
      ensures outputs == EnqueueOne(old(outputs), Ack(id, mode))
    {
      GenerateOutput(1, CONTROLLER_ID, CMD_ACK, [mode]);
    }

    /** The recording loops of calculateEscapedBoids: every boid against every bearing. */
    method EscapedBoids() returns (pairs: seq<(int, int)>)
      requires Valid()
      ensures pairs == Escapes(nbrs, Bounds(), Boids())
    {
      var c := Bounds();
      pairs := [];
      for i := 0 to boidCount
        invariant pairs == Escapes(nbrs, c, boids[..i])
      {
        var b := boids[i];
        ghost var before := pairs;
        for d := 0 to 8
          invariant pairs == before + BearingEscapes(nbrs, c, b, d)
        {
          if nbrs[d] > 0 && IsBoidBeyond(b, c, d) {
            pairs := pairs + [(b.id, nbrs[d])];
          }
        }
        assert boids[..i + 1][..i] == boids[..i];
      }
    }

    /** The search loop of transmitBoids: the index of the first boid with this id, or the count. */
    method FindBoid(target: int) returns (j: int)
      requires Valid()
      ensures j == FirstIndex(Boids(), target)
    {
      j := 0;
      while j < boidCount && boids[j].id != target
        invariant 0 <= j <= boidCount
        invariant forall t :: 0 <= t < j ==> boids[t].id != target
      {
        j := j + 1;
      }
    }

    /** The sending loop of transmitBoids: one CMD_BOID per pair whose boid is held. */
    method SendPairs(pairs: seq<(int, int)>)
      requires Valid()
      modifies this
      ensures Valid() && boidCount == old(boidCount) && queuedCount == old(queuedCount)
      ensures outputs == Enqueue(old(outputs), Sends(Boids(), pairs, id))
    {
      ghost var s0 := Boids();
      ghost var out0 := outputs;
      for i := 0 to |pairs|
        invariant Valid() && boidCount == old(boidCount) && queuedCount == old(queuedCount) && Boids() == s0
        invariant outputs == Enqueue(out0, Sends(s0, pairs[..i], id))
      {
        var j := FindBoid(pairs[i].0);
        ghost var before := Sends(s0, pairs[..i], id);
        assert pairs[..i + 1][..i] == pairs[..i];
        assert Sends(s0, pairs[..i + 1], id) == before + Send(s0, pairs[i], id);
        if j < boidCount {
          ghost var cmd := Command(5, pairs[i].1, id, CMD_BOID, BoidWords(s0[j]));
          assert Send(s0, pairs[i], id) == [cmd];
          GenerateOutput(5, pairs[i].1, CMD_BOID, BoidWords(boids[j]));
          EnqueueSnoc(out0, before, cmd);
        } else {
          assert before + Send(s0, pairs[i], id) == before;
        }
      }
      assert pairs[..|pairs|] == pairs;
    }

    /**
     * One removal pass of transmitBoids: every entry from the first with
     * this id onwards takes its successor's value, and the count drops by
     * one whether or not the id was found.
     */
    method RemoveBoid(target: int)
      requires Valid() && boidCount > 0
      modifies this, boids
      ensures Valid() && queuedCount == old(queuedCount) && outputs == old(outputs)
      ensures boidCount == old(boidCount) - 1
      ensures Boids() == RemoveShift(old(Boids()), target)
    {
      ghost var cur := Boids();
      ghost var k := FirstIndex(cur, target);
      ghost var r := RemoveShift(cur, target);
      ghost var n := boidCount;
      var found := false;
      var j := 0;
      while j < boidCount - 1
        invariant 0 <= j <= n - 1 && boidCount == n
        invariant found <==> k < j
        invariant forall t :: 0 <= t < j ==> boids[t] == r[t]
        invariant forall t :: j <= t < n ==> boids[t] == cur[t]
        invariant forall t :: 0 <= t < n ==> WellFormed(boids[t])
        modifies boids
      {
        if boids[j].id == target {
          found := true;
        }
        if found {
          boids[j] := boids[j + 1];
        }
        assert boids[j] == r[j];
        j := j + 1;
      }
      boidCount := boidCount - 1;
      assert Boids() == r;
    }

    /**
     * transmitBoids: first one CMD_BOID message per pair whose id is found,
     * then one removal pass per pair, then an ACK.
     */
    method TransmitBoids(pairs: seq<(int, int)>)
      requires Valid() && |pairs| <= boidCount
      modifies this, boids
      ensures Valid() && queuedCount == old(queuedCount)
      ensures boidCount == old(boidCount) - |pairs|
      ensures Boids() == RemoveAll(old(Boids()), Ids(pairs))
      ensures outputs == Enqueue(old(outputs), Sends(old(Boids()), pairs, id) + [Ack(id, MODE_TRAN_BOIDS)])
    {
      ghost var s0 := Boids();
      SendPairs(pairs);
      ghost var sent := outputs;
      ghost var ids := Ids(pairs);
      for i := 0 to |pairs|
        invariant Valid() && boidCount == |s0| - i && queuedCount == old(queuedCount) && outputs == sent
        invariant Boids() == RemoveAll(s0, ids[..i])
      {
        TakeNext(ids, i);
        RemoveAllNext(s0, ids[..i], ids[i]);
        RemoveBoid(pairs[i].0);
      }
      assert ids[..|pairs|] == ids;
      SendAck(MODE_TRAN_BOIDS);
      EnqueueSnoc(old(outputs), Sends(s0, pairs, id), Ack(id, MODE_TRAN_BOIDS));
    }

    /**
     * calculateEscapedBoids as written: the pairs of every applicable
     * bearing go to transmitBoids; with none, only an ACK is sent. More
     * pairs than boids is outside the model.
     */
    method CalculateEscapedBoids()
      requires Valid() && |Escapes(nbrs, Bounds(), Boids())| <= boidCount
      modifies this, boids
      ensures Valid() && queuedCount == old(queuedCount)
      ensures var pairs := Escapes(nbrs, old(Bounds()), old(Boids()));
        boidCount == old(boidCount) - |pairs| && Boids() == RemoveAll(old(Boids()), Ids(pairs)) &&
        outputs == Enqueue(old(outputs), Sends(old(Boids()), pairs, id) + [Ack(id, MODE_TRAN_BOIDS)])
    {
      var pairs := EscapedBoids();
      if |pairs| > 0 {
        TransmitBoids(pairs);
      } else {
        SendAck(MODE_TRAN_BOIDS);
        assert Ids(pairs) == [] && Sends(old(Boids()), pairs, id) + [Ack(id, MODE_TRAN_BOIDS)] == [Ack(id, MODE_TRAN_BOIDS)];
        EnqueueSnoc(old(outputs), [], Ack(id, MODE_TRAN_BOIDS));
        assert [] + [Ack(id, MODE_TRAN_BOIDS)] == [Ack(id, MODE_TRAN_BOIDS)];
      }
    }

    /**
     * calculateEscapedBoids with one pair per escaping boid, chosen by the
     * transfer rule: the boids that stay are exactly the boids without a
     * route, in order.
     */
    method RouteEscapedBoids()
      requires Valid()
      modifies this, boids
      ensures Valid() && queuedCount == old(queuedCount)
      ensures var pairs := Routes(nbrs, old(Bounds()), old(Boids()));
        boidCount == old(boidCount) - |pairs| && Boids() == RemoveAll(old(Boids()), Ids(pairs)) &&
        outputs == Enqueue(old(outputs), Sends(old(Boids()), pairs, id) + [Ack(id, MODE_TRAN_BOIDS)])
      ensures UniqueIds(old(Boids())) ==> Boids() == Staying(nbrs, Bounds(), old(Boids()))
    {
      var pairs := Routes(nbrs, Bounds(), Boids());
      ghost var s0 := Boids();
      ghost var c0 := Bounds();
      if |pairs| > 0 {
        TransmitBoids(pairs);
      } else {
        SendAck(MODE_TRAN_BOIDS);
        assert Ids(pairs) == [] && Sends(s0, pairs, id) + [Ack(id, MODE_TRAN_BOIDS)] == [Ack(id, MODE_TRAN_BOIDS)];
        EnqueueSnoc(old(outputs), [], Ack(id, MODE_TRAN_BOIDS));
        assert [] + [Ack(id, MODE_TRAN_BOIDS)] == [Ack(id, MODE_TRAN_BOIDS)];
      }
      assert Bounds() == c0 && Boids() == RemoveAll(s0, Ids(pairs));
      if UniqueIds(s0) {
        RoutesRemoveExactly(nbrs, c0, s0);
      }
    }

    /** acceptBoid: the five body words are queued while fewer than MAX_QUEUED_BOIDS - 1 wait. */
    method AcceptBoid(body: seq<int>)
      requires Valid() && |body| >= 5
      modifies this, queue
      ensures Valid() && boidCount == old(boidCount) && Boids() == old(Boids()) && outputs == old(outputs)
      ensures old(queuedCount) < maxQueued - 1 ==>
        queuedCount == old(queuedCount) + 1 && queue[..queuedCount] == old(queue[..queuedCount]) + [Queued(body)]
      ensures old(queuedCount) >= maxQueued - 1 ==>
        queuedCount == old(queuedCount) && queue[..queuedCount] == old(queue[..queuedCount])
    {
      if queuedCount < maxQueued - 1 {
        queue[queuedCount] := Queued(body);
        queuedCount := queuedCount + 1;
      }
    }

    /**
     * commitAcceptedBoids: queued boids are appended in order while the
     * count is below MAX_BOIDS - 1, the rest are dropped, and the queue is
     * emptied.
     */
    method CommitAcceptedBoids()
      requires Valid()
      modifies this, boids
      ensures Valid() && queuedCount == 0 && outputs == old(outputs)
      ensures var room := if old(boidCount) < maxBoids - 1 then maxBoids - 1 - old(boidCount) else 0;
        var taken := Min(old(queuedCount), room);
        boidCount == old(boidCount) + taken && Boids() == old(Boids()) + Commits(old(queue[..taken]))
    {
      ghost var s0 := Boids();
      ghost var n0 := boidCount;
      ghost var room := if boidCount < maxBoids - 1 then maxBoids - 1 - boidCount else 0;
      for i := 0 to queuedCount
        invariant boidCount == n0 + Min(i, room) && queuedCount == old(queuedCount) && outputs == old(outputs)
        invariant boids[..boidCount] == s0 + Commits(queue[..Min(i, room)])
        invariant forall t :: 0 <= t < boidCount ==> WellFormed(boids[t])
      {
        if boidCount < maxBoids - 1 {
          ghost var m := Min(i, room);
          assert queue[..m + 1] == queue[..m] + [queue[i]];
          assert Commits(queue[..m + 1]) == Commits(queue[..m]) + [Committed(queue[i])];
          boids[boidCount] := Committed(queue[i]);
          boidCount := boidCount + 1;
        }
      }
      queuedCount := 0;
    }

    /**
     * The containment step of calcNextBoidPositions, given each boid as
     * its update left it, then the ACK.
     */
    method CalcNextBoidPositions(moved: seq<Boid>)
      requires Valid() && |moved| == boidCount && forall i :: 0 <= i < |moved| ==> WellFormed(moved[i])
      modifies this, boids
      ensures Valid() && boidCount == old(boidCount) && queuedCount == old(queuedCount)
      ensures forall i :: 0 <= i < boidCount ==> boids[i] == Contained(moved[i], simWidth, simHeight)
      ensures outputs == EnqueueOne(old(outputs), Ack(id, MODE_POS_BOIDS))
    {
      for i := 0 to boidCount
        invariant forall t :: 0 <= t < i ==> boids[t] == Contained(moved[t], simWidth, simHeight)
        invariant forall t :: i <= t < boidCount ==> boids[t] == old(boids[t])
        modifies boids
      {
        var b := moved[i];
        var x, y := b.px, b.py;
        if x > 16 * simWidth {
          x := 0;
        } else if x < 0 {
          x := 16 * simWidth;
        }
        if y > 16 * simHeight {
          y := 0;
        } else if y < 0 {
          y := 16 * simHeight;
        }
        boids[i] := Boid(b.id, x, y, b.vx, b.vy);
      }
      SendAck(MODE_POS_BOIDS);
    }

    /** fromNeighbour: the sender is one of the eight neighbours, once the table is set up. */
    method FromNeighbour(from: int) returns (r: bool)
      requires Valid()
      ensures r <==> nbrsSetup && from in nbrs
    {
      r := false;
      if nbrsSetup {
        for i := 0 to 8
          invariant r <==> from in nbrs[..i]
        {
          if from == nbrs[i] {
            r := true;
          }
          assert nbrs[..i + 1] == nbrs[..i] + [nbrs[i]];
        }
        assert nbrs[..8] == nbrs;
      }
    }

    /**
     * loadBalance: the four edges move by their fields, then the core
     * reports a minimal width and height (2), width (0) or height (1).
     */
    method LoadBalance(word: int) returns (code: Option<int>)
      requires Valid()
      modifies this, coords
      ensures Valid() && boidCount == old(boidCount) && queuedCount == old(queuedCount) && Boids() == old(Boids())
      ensures Bounds() == Rebounded(old(Bounds()), word, visionRadius)
      ensures var w, h := I12(coords[X_MAX] - coords[X_MIN]), I12(coords[Y_MAX] - coords[Y_MIN]);
        (code == Some(2) <==> w <= visionRadius && h <= visionRadius) &&
        (code == Some(0) <==> w <= visionRadius < h) &&
        (code == Some(1) <==> h <= visionRadius < w) &&
        (code.None? <==> visionRadius < w && visionRadius < h)
      ensures code.Some? ==> outputs == EnqueueOne(old(outputs), Command(1, CONTROLLER_ID, id, boundsAtMin, [code.value]))
      ensures code.None? ==> outputs == old(outputs)
    {
      MoveEdges(word);
      var width := I12(coords[2] - coords[0]);
      var height := I12(coords[3] - coords[1]);
      if width <= visionRadius && height <= visionRadius {
        code := Some(2);
      } else if width <= visionRadius {
        code := Some(0);
      } else if height <= visionRadius {
        code := Some(1);
      } else {
        code := None;
      }
      if code.Some? {
        GenerateOutput(1, CONTROLLER_ID, boundsAtMin, [code.value]);
      }
    }

    /** The four edge updates of loadBalance: each edge moves by its 4-bit change times the vision radius. */
    method MoveEdges(word: int)
      requires coords.Length == 4
      modifies coords
      ensures Bounds() == Rebounded(old(Bounds()), word, visionRadius)
    {
      coords[Y_MIN] := I12(coords[Y_MIN] + visionRadius * Field(word, NORTH_IDX));
      coords[X_MAX] := I12(coords[X_MAX] + visionRadius * Field(word, EAST_IDX));
      coords[Y_MAX] := I12(coords[Y_MAX] + visionRadius * Field(word, SOUTH_IDX));
      coords[X_MIN] := I12(coords[X_MIN] + visionRadius * Field(word, WEST_IDX));
    }

    /** The packing loop of packBoidsForSending: a part number, then three words per boid. */
    method ChunkBody(start: int, end: int, part: int) returns (body: seq<int>)
      requires Valid() && 0 <= start <= end <= boidCount
      ensures body == [part] + Slots(Boids()[start..end])
    {
      body := [part];
      for j := start to end
        invariant body == [part] + Slots(boids[start..j])
      {
        assert boids[start..j + 1][..j - start] == boids[start..j];
        body := body + PackBoid(boids[j]);
      }
      assert boids[start..end] == Boids()[start..end];
    }

    /** One pass of the message loop: message i, carrying boids 9i up to end. */
    method SendChunk(to: int, kind: int, msgs: nat, i: nat, end: int)
      requires Valid() && i < msgs && BOIDS_PER_MSG * i <= end == Min(BOIDS_PER_MSG * i + BOIDS_PER_MSG, boidCount)
      modifies this
      ensures Valid() && boidCount == old(boidCount) && queuedCount == old(queuedCount) && Boids() == old(Boids())
      ensures outputs == EnqueueOne(old(outputs), Message(Boids(), i, msgs, to, id, kind))
    {
      var body := ChunkBody(BOIDS_PER_MSG * i, end, msgs - i - 1);
      ChunkMessage(Boids(), i, msgs, to, id, kind, end, body);
      GenerateOutput(|body|, to, kind, body);
    }

    /** The message loop of packBoidsForSending for a given message count. */
    method SendMessages(to: int, kind: int, msgs: nat)
      requires Valid() && BOIDS_PER_MSG * msgs < boidCount + BOIDS_PER_MSG
      requires boidCount + BOIDS_PER_MSG < TWO8
      modifies this
      ensures Valid() && boidCount == old(boidCount) && queuedCount == old(queuedCount)
      ensures outputs == Enqueue(old(outputs), Messages(Boids(), msgs, to, id, kind))
    {
      ghost var out0 := outputs;
      ghost var all := Messages(Boids(), msgs, to, id, kind);
      var start := 0;
      var end := start + BOIDS_PER_MSG;
      for i := 0 to msgs
        invariant start == BOIDS_PER_MSG * i && end == start + BOIDS_PER_MSG
        invariant Valid() && boidCount == old(boidCount) && queuedCount == old(queuedCount)
        invariant Boids() == old(Boids())
        invariant outputs == Enqueue(out0, all[..i])
      {
        if end > boidCount {
          end := boidCount;
        }
        SendChunk(to, kind, msgs, i, end);
        TakeNext(all, i);
        EnqueueSnoc(out0, all[..i], all[i]);
        start := start + BOIDS_PER_MSG;
        end := start + BOIDS_PER_MSG;
      }
      assert all[..msgs] == all;
    }

    /**
     * packBoidsForSending as written: ceil(3n / 29) messages of up to nine
     * boids; with no boids, one message whose body is a single zero.
     */
    method PackBoidsForSending(to: int, kind: int)
      requires Valid() && boidCount + BOIDS_PER_MSG < TWO8
      modifies this
      ensures Valid() && boidCount == old(boidCount) && queuedCount == old(queuedCount)
      ensures outputs == Enqueue(old(outputs), Packed(Boids(), to, id, kind))
    {
      if boidCount > 0 {
        var numerator := boidCount * BOID_DATA_LENGTH;
        var msgCount := 0;
        while numerator > 0
          invariant numerator == BOID_DATA_LENGTH * boidCount - (MAX_CMD_BODY_LEN - 1) * msgCount
          invariant numerator > -(MAX_CMD_BODY_LEN - 1)
          decreases numerator
        {
          numerator := numerator - (MAX_CMD_BODY_LEN - 1);
          msgCount := msgCount + 1;
        }
        assert msgCount == AsWrittenMsgCount(boidCount);
        AsWrittenCountFits(boidCount);
        SendMessages(to, kind, msgCount);
      } else {
        GenerateOutput(1, to, kind, [0]);
        EnqueueSnoc(old(outputs), [], EmptyMessage(to, id, kind));
        assert [] + [EmptyMessage(to, id, kind)] == [EmptyMessage(to, id, kind)];
      }
    }

    /** packBoidsForSending with ceil(n / 9) messages: every boid is sent. */
    method SendAllBoids(to: int, kind: int)
      requires Valid() && boidCount + BOIDS_PER_MSG < TWO8
      modifies this
      ensures Valid() && boidCount == old(boidCount) && queuedCount == old(queuedCount)
      ensures outputs == Enqueue(old(outputs), PackedAll(Boids(), to, id, kind))
      ensures Delivered(PackedAll(Boids(), to, id, kind)) == Boids()
    {
      PackedAllRoundTrip(Boids(), to, id, kind);
      if boidCount > 0 {
        SendMessages(to, kind, NeededMsgCount(boidCount));
      } else {
        GenerateOutput(1, to, kind, [0]);
        EnqueueSnoc(old(outputs), [], EmptyMessage(to, id, kind));
        assert [] + [EmptyMessage(to, id, kind)] == [EmptyMessage(to, id, kind)];
      }
    }
  }
}
