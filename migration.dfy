// The rule every Python generation uses to decide whether a boid has left its
// partition and which neighbour takes it over.
module Migration {
  import opened Common

  /** A boid as the partition logic sees it: its id and its position. */
  datatype Boid = Boid(id: int, x: real, y: real)

  /** Bounds are [xmin, ymin, xmax, ymax]; y grows towards the south. */
  predicate BeyondNorth(b: Boid, c: seq<int>) requires |c| == 4 { b.y < c[Y_MIN] as real }
  predicate BeyondEast(b: Boid, c: seq<int>) requires |c| == 4 { b.x > c[X_MAX] as real }
  predicate BeyondSouth(b: Boid, c: seq<int>) requires |c| == 4 { b.y > c[Y_MAX] as real }
  predicate BeyondWest(b: Boid, c: seq<int>) requires |c| == 4 { b.x < c[X_MIN] as real }

  /** The test of one bearing: both bounds for a diagonal, one bound for a side. */
  predicate Beyond(b: Boid, c: seq<int>, d: int)
    requires |c| == 4 && IsBearing(d)
  {
    if d == NORTHWEST then BeyondNorth(b, c) && BeyondWest(b, c)
    else if d == NORTH then BeyondNorth(b, c)
    else if d == NORTHEAST then BeyondNorth(b, c) && BeyondEast(b, c)
    else if d == EAST then BeyondEast(b, c)
    else if d == SOUTHEAST then BeyondSouth(b, c) && BeyondEast(b, c)
    else if d == SOUTH then BeyondSouth(b, c)
    else if d == SOUTHWEST then BeyondSouth(b, c) && BeyondWest(b, c)
    else BeyondWest(b, c)
  }

  /** The boid lies within the closed rectangle of the bounds. */
  predicate Inside(b: Boid, c: seq<int>)
    requires |c| == 4
  {
    c[X_MIN] as real <= b.x <= c[X_MAX] as real && c[Y_MIN] as real <= b.y <= c[Y_MAX] as real
  }

  /** Bearing d applies: there is a neighbour that way and the boid is beyond it. */
  predicate Fires(nbrs: seq<int>, c: seq<int>, b: Boid, d: int)
    requires |nbrs| == 8 && |c| == 4 && IsBearing(d)
  {
    nbrs[d] != 0 && Beyond(b, c, d)
  }

  /**
   * Position of a bearing in the order the transfer rule tries them:
   * NW, NE, SE, SW first, then N, E, S, W.
   */
  function Rank(d: int): (k: int)
    requires IsBearing(d)
    ensures 0 <= k < 8
    ensures d % 2 == 0 <==> k < 4
  {
    if d % 2 == 0 then d / 2 else 4 + d / 2
  }

  /**
   * determine_boid_transfer: the bearing by which the boid leaves, if any.
   * At most one bearing is chosen; it is the first in rank order whose
   * neighbour exists and whose bounds the boid has strictly crossed.
   */
  function TransferBearing(nbrs: seq<int>, c: seq<int>, b: Boid): (r: Option<int>)
    requires |nbrs| == 8 && |c| == 4
    ensures r.Some? ==> IsBearing(r.value) && Fires(nbrs, c, b, r.value)
    ensures r.Some? ==> forall d :: IsBearing(d) && Fires(nbrs, c, b, d) ==> Rank(r.value) <= Rank(d)
    ensures r.None? <==> forall d :: IsBearing(d) ==> !Fires(nbrs, c, b, d)
    ensures Inside(b, c) ==> r.None?
  {
    if Fires(nbrs, c, b, NORTHWEST) then Some(NORTHWEST)
    else if Fires(nbrs, c, b, NORTHEAST) then Some(NORTHEAST)
    else if Fires(nbrs, c, b, SOUTHEAST) then Some(SOUTHEAST)
    else if Fires(nbrs, c, b, SOUTHWEST) then Some(SOUTHWEST)
    else if Fires(nbrs, c, b, NORTH) then Some(NORTH)
    else if Fires(nbrs, c, b, EAST) then Some(EAST)
    else if Fires(nbrs, c, b, SOUTH) then Some(SOUTH)
    else if Fires(nbrs, c, b, WEST) then Some(WEST)
    else None
  }

  /**
   * The partition a boid is handed to: the neighbour at the chosen bearing.
   * A partition whose neighbour list is still empty hands nothing over.
   */
  function TransferTarget(nbrs: seq<int>, c: seq<int>, b: Boid): (r: Option<int>)
    requires |nbrs| == 0 || |nbrs| == 8
    requires |c| == 4
    ensures r.Some? ==> r.value != 0 && r.value in nbrs
    ensures r.Some? <==> |nbrs| == 8 && exists d :: IsBearing(d) && Fires(nbrs, c, b, d)
    ensures |c| == 4 && Inside(b, c) ==> r.None?
  {
    if |nbrs| == 0 then None
    else match TransferBearing(nbrs, c, b)
      case Some(d) => Some(nbrs[d])
      case None => None
  }

  /**
   * A diagonal takes precedence over the sides it combines: a boid past the
   * north and west bounds goes north-west whenever that neighbour exists.
   */
  lemma DiagonalFirst(nbrs: seq<int>, c: seq<int>, b: Boid, d: int)
    requires |nbrs| == 8 && |c| == 4 && IsBearing(d) && d % 2 == 0
    requires Fires(nbrs, c, b, d)
    requires forall e :: IsBearing(e) && e % 2 == 0 && e < d ==> !Fires(nbrs, c, b, e)
    ensures TransferBearing(nbrs, c, b) == Some(d)
  {
    var r := TransferBearing(nbrs, c, b);
    assert Rank(r.value) <= Rank(d);
  }

  /** The list with every boid carrying the given id removed, order kept. */
  function WithoutId(s: seq<Boid>, id: int): (r: seq<Boid>)
    ensures |r| <= |s|
    ensures forall b :: b in r <==> b in s && b.id != id
    ensures (exists k :: 0 <= k < |s| && s[k].id == id) ==> |r| < |s|
  {
    if |s| == 0 then []
    else if s[0].id == id then WithoutId(s[1..], id)
    else [s[0]] + WithoutId(s[1..], id)
  }

  /** The ids of a list are pairwise distinct. */
  predicate DistinctIds(s: seq<Boid>)
  {
    forall i, j :: 0 <= i < j < |s| ==> s[i].id != s[j].id
  }

  /** With distinct ids, removing the id of entry k removes exactly that entry. */
  lemma {:induction false} WithoutIdAt(s: seq<Boid>, k: int)
    requires DistinctIds(s) && 0 <= k < |s|
    ensures WithoutId(s, s[k].id) == s[..k] + s[k + 1..]
  {
    if k == 0 {
      WithoutIdAbsent(s[1..], s[0].id);
      assert s[..0] + s[1..] == s[1..];
    } else {
      DistinctTail(s);
      WithoutIdAt(s[1..], k - 1);
      SpliceCons(s, k);
    }
  }

  lemma DistinctTail(s: seq<Boid>)
    requires DistinctIds(s) && |s| > 0
    ensures DistinctIds(s[1..])
  {
    var tail := s[1..];
    forall i, j | 0 <= i < j < |tail| ensures tail[i].id != tail[j].id {
      assert tail[i] == s[i + 1] && tail[j] == s[j + 1];
    }
  }

  /** Cutting entry k out of s is keeping the head and cutting entry k-1 out of the tail. */
  lemma SpliceCons<T>(s: seq<T>, k: int)
    requires 0 < k < |s|
    ensures s[..k] + s[k + 1..] == [s[0]] + (s[1..][..k - 1] + s[1..][k..])
  {
    assert s[1..][..k - 1] == s[1..k] && s[1..][k..] == s[k + 1..];
    assert s[..k] == [s[0]] + s[1..k];
  }

  /** Removing an id nobody carries changes nothing. */
  lemma {:induction false} WithoutIdAbsent(s: seq<Boid>, id: int)
    requires forall j :: 0 <= j < |s| ==> s[j].id != id
    ensures WithoutId(s, id) == s
  {
    if |s| > 0 {
      WithoutIdAbsent(s[1..], id);
      assert s == [s[0]] + s[1..];
    }
  }

  /** Removing an entry keeps the remaining ids distinct. */
  lemma DistinctIdsRemove(s: seq<Boid>, k: int)
    requires DistinctIds(s) && 0 <= k < |s|
    ensures DistinctIds(s[..k] + s[k + 1..])
  {
    var t := s[..k] + s[k + 1..];
    forall i, j | 0 <= i < j < |t| ensures t[i].id != t[j].id {
      var i', j' := if i < k then i else i + 1, if j < k then j else j + 1;
      assert t[i] == s[i'] && t[j] == s[j'];
    }
  }
}
