// The prototype BoidCPU core: its pseudo-random generator, the search for a
// boid to hand to a neighbour, the wrap-around of positions at the edges of
// the simulation area, the output command it builds, and the integer Vector
// operations its boids use. Positions and velocities are 12-bit signed
// integers (int12) that wrap on overflow.
module ProtoBoidCpu {
  import opened Common
  import Wire

  const MAX_BOIDS := 30
  const MAX_CMD_LEN := 10
  const AREA_WIDTH := 720
  const AREA_HEIGHT := 720
  const EDGE_COUNT := 4
  const MAX_NEIGHBOURING_BOIDCPUS := 8
  const POLY_MASK_16: bv16 := 0xD295
  const POLY_MASK_15: bv16 := 0x6699
  /** The Galois toggle mask applied whenever the output bit is 1. */
  const TOGGLE_MASK: bv16 := 0xB400
  const LFSR16_SEED: bv16 := 0xF429
  const LFSR15_SEED: bv16 := 0x51D1
  const FPGA_ID := 123

  // ---------------------------------------------------------------------
  // int12 and the Vector value.

  type Int12 = x: int | -0x800 <= x < 0x800

  /** Storing an integer into an int12 register: two's-complement wrap-around. */
  function Wrap12(v: int): Int12
  {
    (v + 0x800) % 0x1000 - 0x800
  }

  /** Values that differ by a multiple of 4096 are stored as the same int12. */
  lemma Wrap12Shift(v: int, k: int)
    ensures Wrap12(v + 0x1000 * k) == Wrap12(v)
  {
    var a := v + 0x800;
    var q := a / 0x1000;
    var r := a % 0x1000;
    assert a == 0x1000 * q + r && 0 <= r < 0x1000;
    assert a + 0x1000 * k == 0x1000 * (q + k) + r;
    assert (a + 0x1000 * k) % 0x1000 == r;
  }

  /** The value a Vector holds. */
  datatype Vec = Vec(x: Int12, y: Int12, z: Int12)

  const Zero := Vec(0, 0, 0)

  /** The static Vector::add. */
  function Plus(a: Vec, b: Vec): Vec
  {
    Vec(Wrap12(a.x + b.x), Wrap12(a.y + b.y), Wrap12(a.z + b.z))
  }

  /** The static Vector::sub. */
  function Minus(a: Vec, b: Vec): Vec
  {
    Vec(Wrap12(a.x - b.x), Wrap12(a.y - b.y), Wrap12(a.z - b.z))
  }

  /** Vector::mul by an unsigned 8-bit factor. */
  function Scaled(a: Vec, n: int): Vec
  {
    Vec(Wrap12(a.x * n), Wrap12(a.y * n), Wrap12(a.z * n))
  }

  /** One component of Vector::div: C division, which never grows the magnitude. */
  function DivPart(c: Int12, n: int): (q: Int12)
    requires 0 < n
    ensures Abs(q) <= Abs(c)
    ensures (q == 0) <==> Abs(c) < n
  {
    QuotientFacts(Abs(c), n);
    CDiv(c, n)
  }

  /** Integer division of a natural number by a positive one does not exceed it, and is zero only below the divisor. */
  lemma QuotientFacts(a: nat, n: int)
    requires 0 < n
    ensures a / n <= a && (a / n == 0 <==> a < n)
  {
    var q, r := a / n, a % n;
    assert a == q * n + r && 0 <= r < n;
    if q > 0 {
      MulAtLeast(q, n);
      MulAtLeast(n, q);
      assert n * q == q * n;
    }
  }

  /** Vector::div by a nonzero divisor. */
  function Quotient(a: Vec, n: int): Vec
    requires 0 < n
  {
    Vec(DivPart(a.x, n), DivPart(a.y, n), DivPart(a.z, n))
  }

  /** Vector::bound: each component capped from above only. */
  function Capped(a: Vec, n: int): Vec
    requires IsU8(n)
  {
    Vec(Min(a.x, n), Min(a.y, n), Min(a.z, n))
  }

  /** Subtracting what was added gives the vector back, even when the sum wrapped. */
  lemma {:induction false} PlusMinus(a: Vec, b: Vec)
    ensures Minus(Plus(a, b), b) == a
  {
    AddSubWraps(a.x, b.x);
    AddSubWraps(a.y, b.y);
    AddSubWraps(a.z, b.z);
    var p := Plus(a, b);
    assert p.x == Wrap12(a.x + b.x) && p.y == Wrap12(a.y + b.y) && p.z == Wrap12(a.z + b.z);
  }

  /** One component of PlusMinus: the wrapped sum is off by a multiple of 4096, which the second wrap forgets. */
  lemma AddSubWraps(a: Int12, b: Int12)
    ensures Wrap12(Wrap12(a + b) - b) == a
  {
    var s := a + b;
    var k := (s + 0x800) / 0x1000;
    assert Wrap12(s) == s - 0x1000 * k;
    Wrap12Shift(a, -k);
    assert Wrap12(s) - b == a + 0x1000 * (-k);
    DivModUnique(a + 0x800, 0x1000, 0, a + 0x800);
  }

  /** Storing a sum forgets a wrap already applied to one of its terms. */
  lemma WrapSum(v: int, w: int)
    ensures Wrap12(Wrap12(v) + w) == Wrap12(v + w)
  {
    var k := (v + 0x800) / 0x1000;
    assert Wrap12(v) == v - 0x1000 * k;
    Wrap12Shift(v + w, -k);
  }

  /**
   * Vector::mul is repeated Vector::add: multiplying by n + 1 gives the same
   * int12 vector as multiplying by n and adding the vector once more, however
   * often the products wrapped.
   */
  lemma ScaledStep(a: Vec, n: int)
    ensures Scaled(a, n + 1) == Plus(Scaled(a, n), a)
  {
    ScaledPartStep(a.x, n);
    ScaledPartStep(a.y, n);
    ScaledPartStep(a.z, n);
  }

  /** One component of ScaledStep. */
  lemma ScaledPartStep(c: int, n: int)
    ensures Wrap12(c * (n + 1)) == Wrap12(Wrap12(c * n) + c)
  {
    var p := c * n;
    assert c * (n + 1) == p + c;
    WrapSum(p, c);
  }

  /**
   * Vector::div's component is C's truncating division: the remainder left
   * is smaller than the divisor and has the sign of the dividend, so the
   * quotient rounds toward zero.
   */
  lemma DivPartTruncates(c: Int12, n: int)
    requires 0 < n
    ensures var r: int := c - DivPart(c, n) * n; Abs(r) < n && (c >= 0 ==> r >= 0) && (c <= 0 ==> r <= 0)
  {
    var q := DivPart(c, n);
    if c >= 0 {
      assert q == c / n;
      assert c == q * n + c % n;
    } else {
      var a := -(c as int);
      assert q == -(a / n);
      assert a == (a / n) * n + a % n;
    }
  }

  /**
   * Bounding caps every component at n, leaves components already at or
   * below n alone (however negative), and bounding twice is bounding once.
   */
  lemma CappedBounds(a: Vec, n: int)
    requires IsU8(n)
    ensures var c := Capped(a, n); c.x <= n && c.y <= n && c.z <= n
    ensures a.x <= n ==> Capped(a, n).x == a.x
    ensures a.y <= n ==> Capped(a, n).y == a.y
    ensures a.z <= n ==> Capped(a, n).z == a.z
    ensures Capped(Capped(a, n), n) == Capped(a, n)
  {
  }

  /** A Vector object: its methods update the three components in place. */
  class Vector {
    var x: Int12
    var y: Int12
    var z: Int12

    function Value(): Vec
      reads this
    {
      Vec(x, y, z)
    }

    constructor (x0: Int12, y0: Int12, z0: Int12)
      ensures Value() == Vec(x0, y0, z0)
    {
      x, y, z := x0, y0, z0;
    }

    method Add(v: Vec)
      modifies this
      ensures Value() == Plus(old(Value()), v)
    {
      x := Wrap12(x + v.x);
      y := Wrap12(y + v.y);
      z := Wrap12(z + v.z);
    }

    method Sub(v: Vec)
      modifies this
      ensures Value() == Minus(old(Value()), v)
    {
      x := Wrap12(x - v.x);
      y := Wrap12(y - v.y);
      z := Wrap12(z - v.z);
    }

    method Mul(n: int)
      requires IsU8(n)
      modifies this
      ensures Value() == Scaled(old(Value()), n)
    {
      x := Wrap12(x * n);
      y := Wrap12(y * n);
      z := Wrap12(z * n);
    }

    /** A zero divisor leaves the vector as it was. */
    method Div(n: int)
      requires IsU8(n)
      modifies this
      ensures n == 0 ==> Value() == old(Value())
      ensures n != 0 ==> Value() == Quotient(old(Value()), n)
    {
      if n != 0 {
        x := DivPart(x, n);
        y := DivPart(y, n);
        z := DivPart(z, n);
      }
    }

    method Bound(n: int)
      requires IsU8(n)
      modifies this
      ensures Value() == Capped(old(Value()), n)
    {
      if x > n { x := n; }
      if y > n { y := n; }
      if z > n { z := n; }
    }

    /** Vector::empty: true exactly when every component is zero. */
    predicate Empty()
      reads this
      ensures Empty() <==> Value() == Zero
    {
      if x != 0 then false
      else if y != 0 then false
      else z == 0
    }
  }

  // ---------------------------------------------------------------------
  // Boids and the wrap-around at the edges of the area.

  /** A boid as the BoidCPU stores it: its Vectors are held by value. */
  datatype Boid = Boid(id: int, position: Vec, velocity: Vec)

  /** What the default Boid constructor produces. */
  const DefaultBoid := Boid(0, Zero, Zero)

  /** One coordinate of Boid::contain: leaving past one edge re-enters at the other. */
  function WrapCoordinate(c: Int12, limit: int): (r: Int12)
    requires 0 <= limit < 0x800
    ensures 0 <= r <= limit
    ensures 0 <= c <= limit ==> r == c
    ensures c > limit ==> r == 0
    ensures c < 0 ==> r == limit
  {
    if c > limit then 0
    else if c < 0 then limit
    else c
  }

  /** The position Boid::contain leaves: inside the area, z untouched. */
  function Contained(p: Vec): Vec
  {
    Vec(WrapCoordinate(p.x, AREA_WIDTH), WrapCoordinate(p.y, AREA_HEIGHT), p.z)
  }

  /** Containing a position puts it inside the area; positions already inside stay put, so containing twice is containing once. */
  lemma {:induction false} ContainedInArea(p: Vec)
    ensures var q := Contained(p); 0 <= q.x <= AREA_WIDTH && 0 <= q.y <= AREA_HEIGHT && q.z == p.z
    ensures 0 <= p.x <= AREA_WIDTH && 0 <= p.y <= AREA_HEIGHT ==> Contained(p) == p
    ensures Contained(Contained(p)) == Contained(p)
  {
    var q := Contained(p);
    assert 0 <= q.x <= AREA_WIDTH && 0 <= q.y <= AREA_HEIGHT;
    assert WrapCoordinate(q.x, AREA_WIDTH) == q.x;
    assert WrapCoordinate(q.y, AREA_HEIGHT) == q.y;
  }

  // ---------------------------------------------------------------------
  // The search of moveBoids.

  /** The order moveBoids tries the bearings in: the four diagonals, then N, E, S, W. */
  const SEARCH_ORDER := [NORTHWEST, NORTHEAST, SOUTHEAST, SOUTHWEST, NORTH, EAST, SOUTH, WEST]

  /** Where a bearing stands in the search order. */
  function Rank(d: int): int
    requires IsBearing(d)
  {
    if d % 2 == 0 then d / 2 else 4 + d / 2
  }

  /**
   * The bearing moveBoids examines: the first, in the search order, whose
   * neighbour id is nonzero. Only that bearing's condition is ever checked.
   */
  function SearchedBearing(nbrs: seq<int>): (b: Option<int>)
    requires |nbrs| == MAX_NEIGHBOURING_BOIDCPUS
    ensures b.None? <==> forall d :: 0 <= d < MAX_NEIGHBOURING_BOIDCPUS ==> nbrs[d] == 0
    ensures b.Some? ==> IsBearing(b.value) && nbrs[b.value] != 0 && SEARCH_ORDER[Rank(b.value)] == b.value
    ensures b.Some? ==> forall k :: 0 <= k < Rank(b.value) ==> nbrs[SEARCH_ORDER[k]] == 0
  {
    if nbrs[NORTHWEST] != 0 then Some(NORTHWEST)
    else if nbrs[NORTHEAST] != 0 then Some(NORTHEAST)
    else if nbrs[SOUTHEAST] != 0 then Some(SOUTHEAST)
    else if nbrs[SOUTHWEST] != 0 then Some(SOUTHWEST)
    else if nbrs[NORTH] != 0 then Some(NORTH)
    else if nbrs[EAST] != 0 then Some(EAST)
    else if nbrs[SOUTH] != 0 then Some(SOUTH)
    else if nbrs[WEST] != 0 then Some(WEST)
    else None
  }

  /** Whether a position lies beyond the partition's bounds on the side a bearing names. */
  predicate Beyond(p: Vec, coords: seq<int>, d: int)
    requires |coords| == EDGE_COUNT && IsBearing(d)
  {
    var north := p.y < coords[Y_MIN];
    var south := p.y > coords[Y_MAX];
    var west := p.x < coords[X_MIN];
    var east := p.x > coords[X_MAX];
    if d == NORTHWEST then north && west
    else if d == NORTHEAST then north && east
    else if d == SOUTHEAST then south && east
    else if d == SOUTHWEST then south && west
    else if d == NORTH then north
    else if d == EAST then east
    else if d == SOUTH then south
    else west
  }

  /** The boid and recipient moveBoids has settled on after looking at the boids bs. */
  function Chosen(bs: seq<Boid>, nbrs: seq<int>, coords: seq<int>): (Boid, int)
    requires |nbrs| == MAX_NEIGHBOURING_BOIDCPUS && |coords| == EDGE_COUNT
  {
    if bs == [] then (DefaultBoid, 0)
    else
      var prev := Chosen(bs[..|bs| - 1], nbrs, coords);
      var b := bs[|bs| - 1];
      match SearchedBearing(nbrs)
      case None => prev
      case Some(d) => if Beyond(b.position, coords, d) then (b, nbrs[d]) else prev
  }

  /**
   * moveBoids names a recipient exactly when some boid lies beyond the
   * searched bearing; the recipient is that bearing's neighbour and the boid
   * is the last such boid. Otherwise the default boid and 0 remain.
   */
  lemma {:induction false} ChosenIsLastLeaver(bs: seq<Boid>, nbrs: seq<int>, coords: seq<int>)
    requires |nbrs| == MAX_NEIGHBOURING_BOIDCPUS && |coords| == EDGE_COUNT
    ensures var (t, r) := Chosen(bs, nbrs, coords);
      match SearchedBearing(nbrs)
      case None => t == DefaultBoid && r == 0
      case Some(d) =>
        (r == 0 <==> forall i :: 0 <= i < |bs| ==> !Beyond(bs[i].position, coords, d)) &&
        (r == 0 ==> t == DefaultBoid) &&
        (r != 0 ==>
          r == nbrs[d] &&
          exists i :: 0 <= i < |bs| && t == bs[i] && Beyond(bs[i].position, coords, d) &&
            forall j :: i < j < |bs| ==> !Beyond(bs[j].position, coords, d))
  {
    match SearchedBearing(nbrs)
    case None => ChosenWithoutBearing(bs, nbrs, coords);
    case Some(d) => ChosenLastBeyond(bs, nbrs, coords, d);
  }

  /** With no bearing to search, no boid is ever chosen. */
  lemma {:induction false} ChosenWithoutBearing(bs: seq<Boid>, nbrs: seq<int>, coords: seq<int>)
    requires |nbrs| == MAX_NEIGHBOURING_BOIDCPUS && |coords| == EDGE_COUNT
    requires SearchedBearing(nbrs).None?
    ensures Chosen(bs, nbrs, coords) == (DefaultBoid, 0)
  {
    if bs != [] {
      ChosenWithoutBearing(bs[..|bs| - 1], nbrs, coords);
    }
  }

  /** The searched-bearing case of ChosenIsLastLeaver. */
  lemma {:induction false} ChosenLastBeyond(bs: seq<Boid>, nbrs: seq<int>, coords: seq<int>, d: int)
    requires |nbrs| == MAX_NEIGHBOURING_BOIDCPUS && |coords| == EDGE_COUNT
    requires SearchedBearing(nbrs) == Some(d)
    ensures var (t, r) := Chosen(bs, nbrs, coords);
      (r == 0 <==> forall i :: 0 <= i < |bs| ==> !Beyond(bs[i].position, coords, d)) &&
      (r == 0 ==> t == DefaultBoid) &&
      (r != 0 ==>
        r == nbrs[d] &&
        exists i :: 0 <= i < |bs| && t == bs[i] && Beyond(bs[i].position, coords, d) &&
          forall j :: i < j < |bs| ==> !Beyond(bs[j].position, coords, d))
  {
    if bs != [] {
      var init := bs[..|bs| - 1];
      ChosenLastBeyond(init, nbrs, coords, d);
      var (t, r) := Chosen(bs, nbrs, coords);
      var last := |bs| - 1;
      if Beyond(bs[last].position, coords, d) {
        assert t == bs[last] && r == nbrs[d] != 0;
      } else {
        assert (t, r) == Chosen(init, nbrs, coords);
        forall i | 0 <= i < |init|
          ensures init[i] == bs[i]
        {
        }
        if r != 0 {
          var i :| 0 <= i < |init| && t == init[i] && Beyond(init[i].position, coords, d) &&
            forall j :: i < j < |init| ==> !Beyond(init[j].position, coords, d);
          assert t == bs[i];
        }
      }
    }
  }

  // ---------------------------------------------------------------------
  // The LFSR behind getRandom.

  /** One shift of the 16-bit Galois register with toggle mask 0xB400. */
  function LfsrStep(r: bv16): bv16
  {
    if r & 1 == 1 then (r >> 1) ^ TOGGLE_MASK else r >> 1
  }

  /** The register after k shifts. */
  function Shifted(r: bv16, k: nat): bv16
  {
    if k == 0 then r else LfsrStep(Shifted(r, k - 1))
  }

  /** A register that holds zero stays zero, so a loop waiting for a nonzero mask never ends. */
  lemma {:induction false} ZeroRegisterStays(k: nat)
    ensures Shifted(0, k) == 0
  {
    if k > 0 {
      ZeroRegisterStays(k - 1);
    }
  }

  /** The body of shiftLSFR's loop: the output bit is shifted out and, when it is 1, the toggle mask applied. */
  method ShiftOnce(r: bv16) returns (next: bv16)
    ensures next == LfsrStep(r)
  {
    var lsb := r & 1;
    next := r >> 1;
    if lsb == 1 {
      next := next ^ TOGGLE_MASK;
    }
  }

  /**
   * shiftLSFR: shifts the register until it equals the mask and returns the
   * register, that is the mask. The source loops without bound; here at most
   * fuel shifts are made, and returned says whether the mask was reached.
   */
  method ShiftLfsr(lfsr: bv16, mask: bv16, fuel: nat) returns (state: bv16, period: nat, returned: bool)
    ensures returned ==> state == mask && 1 <= period <= fuel && state == Shifted(lfsr, period)
    ensures returned ==> forall k :: 1 <= k < period ==> Shifted(lfsr, k) != mask
    ensures !returned ==> forall k :: 1 <= k <= fuel ==> Shifted(lfsr, k) != mask
    ensures lfsr == 0 && mask != 0 ==> !returned
  {
    state := lfsr;
    period := 0;
    returned := false;
    while period < fuel
      invariant 0 <= period <= fuel && state == Shifted(lfsr, period)
      invariant forall k :: 1 <= k <= period ==> Shifted(lfsr, k) != mask
    {
      state := ShiftOnce(state);
      assert Shifted(lfsr, period + 1) == LfsrStep(Shifted(lfsr, period));
      period := period + 1;
      if state == mask {
        if lfsr == 0 {
          ZeroRegisterStays(period);
        }
        returned := true;
        return;
      }
    }
  }

  /** The value getRandom's exclusive-or of the two registers always yields: 0xD295 xor 0x6699. */
  const LFSR_OUTPUT := (POLY_MASK_16 ^ POLY_MASK_15) as int

  /**
   * What getRandom(min, max) returns once its shifts have ended, whatever the
   * seeds: min plus LFSR_OUTPUT modulo the width of the range, which lies in
   * the range whenever min <= max.
   */
  function RandomValue(min: int, max: int): (v: int)
    requires max - min + 1 != 0
    ensures min <= max ==> min <= v <= max
  {
    min + CRem(LFSR_OUTPUT, max - min + 1)
  }

  /** The exclusive-or is 46092, so the "random" temporary id drawn from 1 to 100 is always 93. */
  lemma RandomIsFixed()
    ensures LFSR_OUTPUT == 46092
    ensures RandomValue(1, 100) == 93
  {
  }

  // ---------------------------------------------------------------------
  // The BoidCPU's state.

  /** The globals of the prototype BoidCPU. */
  class BoidCpu {
    var boidCPUID: int
    var fpgaID: int
    var boidCount: int
    var lfsr16: bv16
    var lfsr15: bv16
    var outputAvailable: bool
    const boids: array<Boid>
    const neighbouringBoidCPUs: array<int>
    const boidCPUCoords: array<int>
    const outputData: array<int>

    ghost predicate Valid()
      reads this
    {
      boids.Length == MAX_BOIDS && neighbouringBoidCPUs.Length == MAX_NEIGHBOURING_BOIDCPUS &&
      boidCPUCoords.Length == EDGE_COUNT && outputData.Length == MAX_CMD_LEN &&
      neighbouringBoidCPUs != boidCPUCoords && neighbouringBoidCPUs != outputData &&
      boidCPUCoords != outputData &&
      0 <= boidCount <= MAX_BOIDS
    }

    /** The scalar state that the output and search operations leave alone. */
    ghost function Config(): (int, int, int, bv16, bv16)
      reads this
    {
      (boidCPUID, fpgaID, boidCount, lfsr16, lfsr15)
    }

    /** The state at power-up: zeroed globals and the two LFSR seeds. */
    constructor ()
      ensures Valid() && fresh(boids) && fresh(neighbouringBoidCPUs) && fresh(boidCPUCoords) && fresh(outputData)
      ensures boidCount == 0 && lfsr16 == LFSR16_SEED && lfsr15 == LFSR15_SEED && !outputAvailable
      ensures forall i :: 0 <= i < MAX_BOIDS ==> boids[i] == DefaultBoid
      ensures neighbouringBoidCPUs[..] == [0, 0, 0, 0, 0, 0, 0, 0] && boidCPUCoords[..] == [0, 0, 0, 0]
    {
      boidCPUID, fpgaID, boidCount := 0, 0, 0;
      lfsr16, lfsr15 := LFSR16_SEED, LFSR15_SEED;
      outputAvailable := false;
      boids := new Boid[MAX_BOIDS](_ => DefaultBoid);
      neighbouringBoidCPUs := new int[MAX_NEIGHBOURING_BOIDCPUS](_ => 0);
      boidCPUCoords := new int[EDGE_COUNT](_ => 0);
      outputData := new int[MAX_CMD_LEN](_ => 0);
      new;
      assert neighbouringBoidCPUs[..] == [0, 0, 0, 0, 0, 0, 0, 0];
      assert boidCPUCoords[..] == [0, 0, 0, 0];
    }

    /**
     * getRandom: two shifts of the 16-bit register and one of the 15-bit
     * one, each to its mask; none is returned when a shift runs out of fuel
     * (where the source would loop for ever). The value never depends on
     * the seeds, and both registers end on their masks.
     */
    method GetRandom(min: int, max: int, fuel: nat) returns (r: Option<int>)
      requires max - min + 1 != 0
      modifies this
      ensures r.Some? ==> r.value == RandomValue(min, max) && lfsr16 == POLY_MASK_16 && lfsr15 == POLY_MASK_15
      ensures boidCPUID == old(boidCPUID) && fpgaID == old(fpgaID) && boidCount == old(boidCount)
      ensures outputAvailable == old(outputAvailable)
    {
      var s, p, ok := ShiftLfsr(lfsr16, POLY_MASK_16, fuel);
      lfsr16 := s;
      if !ok {
        return None;
      }
      var a, pa, oka := ShiftLfsr(lfsr16, POLY_MASK_16, fuel);
      lfsr16 := a;
      if !oka {
        return None;
      }
      var b, pb, okb := ShiftLfsr(lfsr15, POLY_MASK_15, fuel);
      lfsr15 := b;
      if !okb {
        return None;
      }
      r := Some(min + CRem((a ^ b) as int, max - min + 1));
    }

    /** initialisation: a temporary id drawn from 1 to 100, and the board's serial number. */
    method Initialisation(fuel: nat) returns (done: bool)
      modifies this
      ensures done ==> boidCPUID == RandomValue(1, 100) && fpgaID == FPGA_ID
      ensures boidCount == old(boidCount) && outputAvailable == old(outputAvailable)
    {
      var r := GetRandom(1, 100, fuel);
      if r.None? {
        return false;
      }
      boidCPUID := r.value;
      fpgaID := FPGA_ID;
      return true;
    }

    /**
     * generateOutput: the command [len + 4, to, boidCPUID, type] followed by
     * the first len data words goes to the start of the output buffer, and
     * output is flagged as available.
     */
    method GenerateOutput(len: nat, to: int, kind: int, data: seq<int>)
      requires Valid() && len <= |data| && Wire.CMD_HEADER_LEN + len <= MAX_CMD_LEN
      modifies this, outputData
      ensures Valid() && Config() == old(Config()) && outputAvailable
      ensures outputData[..Wire.CMD_HEADER_LEN + len] == Wire.Command(len, to, U32(boidCPUID), kind, data)
      ensures outputData[Wire.CMD_HEADER_LEN + len..] == old(outputData[Wire.CMD_HEADER_LEN + len..])
    {
      outputData[Wire.CMD_LEN] := len + Wire.CMD_HEADER_LEN;
      outputData[Wire.CMD_TO] := to;
      outputData[Wire.CMD_FROM] := U32(boidCPUID);
      outputData[Wire.CMD_TYPE] := kind;
      for i := 0 to len
        modifies outputData
        invariant outputData[..Wire.CMD_HEADER_LEN] == [len + Wire.CMD_HEADER_LEN, to, U32(boidCPUID), kind]
        invariant outputData[Wire.CMD_HEADER_LEN..Wire.CMD_HEADER_LEN + i] == data[..i]
        invariant outputData[Wire.CMD_HEADER_LEN + len..] == old(outputData[Wire.CMD_HEADER_LEN + len..])
      {
        outputData[Wire.CMD_HEADER_LEN + i] := data[i];
        assert outputData[Wire.CMD_HEADER_LEN..Wire.CMD_HEADER_LEN + i + 1] == outputData[Wire.CMD_HEADER_LEN..Wire.CMD_HEADER_LEN + i] + [data[i]];
        assert data[..i + 1] == data[..i] + [data[i]];
      }
      outputAvailable := true;
      assert outputData[..Wire.CMD_HEADER_LEN + len] ==
        outputData[..Wire.CMD_HEADER_LEN] + outputData[Wire.CMD_HEADER_LEN..Wire.CMD_HEADER_LEN + len];
    }

    /** identify: the ping reply [6, 0, id, 3 | id, 123] to the controller. */
    method Identify()
      requires Valid()
      modifies this, outputData
      ensures Valid() && Config() == old(Config()) && outputAvailable
      ensures outputData[..6] == [6, Wire.CMD_BROADCAST, U32(boidCPUID), Wire.CMD_PING_REPLY, U32(boidCPUID), U32(fpgaID)]
    {
      var body := [U32(boidCPUID), U32(fpgaID)];
      GenerateOutput(2, Wire.CMD_BROADCAST, Wire.CMD_PING_REPLY, body);
      assert body[..2] == body;
    }

    /** Boid::contain on the i-th boid: its position is wrapped into the area. */
    method Contain(i: int)
      requires Valid() && 0 <= i < boids.Length
      modifies boids
      ensures boids[..] == old(boids[..])[i := old(boids[i]).(position := Contained(old(boids[i]).position))]
    {
      var p := boids[i].position;
      if p.x > AREA_WIDTH {
        p := p.(x := 0);
      } else if p.x < 0 {
        p := p.(x := AREA_WIDTH);
      }
      if p.y > AREA_HEIGHT {
        p := p.(y := 0);
      } else if p.y < 0 {
        p := p.(y := AREA_HEIGHT);
      }
      boids[i] := boids[i].(position := p);
    }

    /**
     * moveBoids: for every boid, tests only the first bearing with a
     * neighbour; the last boid found beyond it and that neighbour's id are
     * the result. Nothing is changed: the transfer is only announced.
     */
    method MoveBoids() returns (boidToTransfer: Boid, recipientBoidCPU: int)
      requires Valid()
      ensures (boidToTransfer, recipientBoidCPU) == Chosen(boids[..boidCount], neighbouringBoidCPUs[..], boidCPUCoords[..])
    {
      boidToTransfer := DefaultBoid;
      recipientBoidCPU := 0;
      var nbrs := neighbouringBoidCPUs;
      var c := boidCPUCoords;
      for i := 0 to boidCount
        invariant (boidToTransfer, recipientBoidCPU) == Chosen(boids[..i], nbrs[..], c[..])
      {
        var p := boids[i].position;
        if nbrs[NORTHWEST] != 0 {
          if p.y < c[Y_MIN] && p.x < c[X_MIN] {
            boidToTransfer, recipientBoidCPU := boids[i], nbrs[NORTHWEST];
          }
        } else if nbrs[NORTHEAST] != 0 {
          if p.y < c[Y_MIN] && p.x > c[X_MAX] {
            boidToTransfer, recipientBoidCPU := boids[i], nbrs[NORTHEAST];
          }
        } else if nbrs[SOUTHEAST] != 0 {
          if p.y > c[Y_MAX] && p.x > c[X_MAX] {
            boidToTransfer, recipientBoidCPU := boids[i], nbrs[SOUTHEAST];
          }
        } else if nbrs[SOUTHWEST] != 0 {
          if p.y > c[Y_MAX] && p.x < c[X_MIN] {
            boidToTransfer, recipientBoidCPU := boids[i], nbrs[SOUTHWEST];
          }
        } else if nbrs[NORTH] != 0 {
          if p.y < c[Y_MIN] {
            boidToTransfer, recipientBoidCPU := boids[i], nbrs[NORTH];
          }
        } else if nbrs[EAST] != 0 {
          if p.x > c[X_MAX] {
            boidToTransfer, recipientBoidCPU := boids[i], nbrs[EAST];
          }
        } else if nbrs[SOUTH] != 0 {
          if p.y > c[Y_MAX] {
            boidToTransfer, recipientBoidCPU := boids[i], nbrs[SOUTH];
          }
        } else if nbrs[WEST] != 0 {
          if p.x < c[X_MIN] {
            boidToTransfer, recipientBoidCPU := boids[i], nbrs[WEST];
          }
        }
        assert boids[..i + 1][..i] == boids[..i];
      }
    }
  }
}
