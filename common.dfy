// Shared vocabulary of every generation of the boid system: the optional
// value, the eight bearings, the four coordinate slots of a partition and the
// fixed-width integer conversions of the C and C++ cores.
module Common {

  datatype Option<T> = None | Some(value: T)

  // Bearings, in the order every neighbour list uses.
  const NORTHWEST := 0
  const NORTH := 1
  const NORTHEAST := 2
  const EAST := 3
  const SOUTHEAST := 4
  const SOUTH := 5
  const SOUTHWEST := 6
  const WEST := 7

  // Slots of a partition's bounds: [xmin, ymin, xmax, ymax].
  const X_MIN := 0
  const Y_MIN := 1
  const X_MAX := 2
  const Y_MAX := 3

  predicate IsBearing(d: int) { 0 <= d < 8 }

  /** The bearing that points back: NW <-> SE, N <-> S, NE <-> SW, E <-> W. */
  function Opposite(d: int): int
    requires IsBearing(d)
  {
    (d + 4) % 8
  }

  /** Row offset of a bearing: -1 towards the north, +1 towards the south. */
  function RowStep(d: int): int
    requires IsBearing(d)
  {
    if d == NORTHWEST || d == NORTH || d == NORTHEAST then -1
    else if d == SOUTHEAST || d == SOUTH || d == SOUTHWEST then 1
    else 0
  }

  /** Column offset of a bearing: -1 towards the west, +1 towards the east. */
  function ColStep(d: int): int
    requires IsBearing(d)
  {
    if d == NORTHWEST || d == WEST || d == SOUTHWEST then -1
    else if d == NORTHEAST || d == EAST || d == SOUTHEAST then 1
    else 0
  }

  const TWO8 := 0x100
  const TWO16 := 0x1_0000
  const TWO32 := 0x1_0000_0000

  predicate IsU8(x: int) { 0 <= x < TWO8 }
  predicate IsU16(x: int) { 0 <= x < TWO16 }
  predicate IsU32(x: int) { 0 <= x < TWO32 }
  predicate IsI16(x: int) { -0x8000 <= x < 0x8000 }

  /** Storing an integer into an unsigned 8-, 16- or 32-bit variable. */
  function U8(x: int): int { x % TWO8 }
  function U16(x: int): int { x % TWO16 }
  function U32(x: int): int { x % TWO32 }

  /** Reading a 16-bit pattern as a two's-complement number. */
  function I16(w: int): int
    requires IsU16(w)
  {
    if w < 0x8000 then w else w - TWO16
  }

  /** C's integer division, which truncates toward zero. */
  function CDiv(a: int, b: int): int
    requires b != 0
  {
    if a >= 0 then (if b > 0 then a / b else -(a / -b))
    else (if b > 0 then -((-a) / b) else (-a) / (-b))
  }

  /** C's remainder: it has the sign of the dividend. */
  function CRem(a: int, b: int): int
    requires b != 0
  {
    a - b * CDiv(a, b)
  }

  function Abs(x: int): nat { if x < 0 then -x else x }

  function Min(a: int, b: int): int { if a <= b then a else b }
  function Max(a: int, b: int): int { if a >= b then a else b }

  function Sum(s: seq<int>): int
  {
    if |s| == 0 then 0 else Sum(s[..|s| - 1]) + s[|s| - 1]
  }

  lemma {:induction false} SumAppend(s: seq<int>, t: seq<int>)
    ensures Sum(s + t) == Sum(s) + Sum(t)
    decreases |t|
  {
    if |t| == 0 {
      assert s + t == s;
    } else {
      assert (s + t)[..|s + t| - 1] == s + t[..|t| - 1];
      SumAppend(s, t[..|t| - 1]);
    }
  }

  /** Changing one entry changes the sum by the difference. */
  lemma {:induction false} SumUpdate(s: seq<int>, i: int, v: int)
    requires 0 <= i < |s|
    ensures Sum(s[i := v]) == Sum(s) - s[i] + v
  {
    assert s == s[..i] + [s[i]] + s[i + 1..];
    assert s[i := v] == s[..i] + [v] + s[i + 1..];
    SumAppend(s[..i] + [s[i]], s[i + 1..]);
    SumAppend(s[..i] + [v], s[i + 1..]);
    SumAppend(s[..i], [s[i]]);
    SumAppend(s[..i], [v]);
  }

  /** Quotient and remainder are determined by any decomposition with the remainder in range. */
  lemma DivModUnique(v: int, d: int, q: int, r: int)
    requires 0 < d && 0 <= r < d && v == q * d + r
    ensures v / d == q && v % d == r
  {
    var q', r' := v / d, v % d;
    assert v == d * q' + r' && 0 <= r' < d;
    if q > q' {
      assert (q - q') * d == q * d - q' * d;
      MulAtLeast(q - q', d);
    } else if q < q' {
      assert (q' - q) * d == q' * d - q * d;
      MulAtLeast(q' - q, d);
    }
  }

  /** A positive multiple of a positive number is at least that number. */
  lemma {:induction false} MulAtLeast(k: int, d: int)
    requires 1 <= k && 0 < d
    ensures k * d >= d
    decreases k
  {
    if k > 1 {
      MulAtLeast(k - 1, d);
      assert k * d == (k - 1) * d + d;
    }
  }

  // Sequence facts stated once, so that proofs about lists of records need
  // not rediscover them element by element.

  lemma AppendNone<X>(s: seq<X>)
    ensures s + [] == s
  {
  }

  lemma AppendAssoc<X>(a: seq<X>, b: seq<X>, c: seq<X>)
    ensures a + b + c == a + (b + c)
  {
  }

  lemma SliceJoin<X>(s: seq<X>, i: int, j: int)
    requires 0 <= i <= j <= |s|
    ensures s[..i] + s[i..j] == s[..j]
  {
  }

  lemma TakeNext<X>(s: seq<X>, i: int)
    requires 0 <= i < |s|
    ensures s[..i + 1] == s[..i] + [s[i]]
  {
  }

  lemma WholeSlice<X>(s: seq<X>)
    ensures s[..|s|] == s
  {
  }
}
