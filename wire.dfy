// The words the FPGA BoidCPU cores exchange: a boid's fixed-point position
// and velocity packed two values to a 32-bit word, three words to a boid, and
// the command layout every core uses.
module Wire {
  import opened Common

  /**
   * A boid of the FPGA cores. Positions and velocities are 16-bit fixed-point
   * values with 4 fractional bits, held here as their count of sixteenths;
   * the id is a 16-bit unsigned number.
   */
  datatype Boid = Boid(id: int, px: int, py: int, vx: int, vy: int)

  /** Every field fits its 16-bit register. */
  predicate WellFormed(b: Boid)
  {
    IsU16(b.id) && IsI16(b.px) && IsI16(b.py) && IsI16(b.vx) && IsI16(b.vy)
  }

  // ---------------------------------------------------------------------
  // Commands: [length, to, from, type] followed by the body.

  const CMD_HEADER_LEN := 4
  const MAX_CMD_BODY_LEN := 30
  const CMD_LEN := 0
  const CMD_TO := 1
  const CMD_FROM := 2
  const CMD_TYPE := 3

  const CMD_BROADCAST := 0
  const CONTROLLER_ID := 1
  const BOIDGPU_ID := 2
  const FIRST_BOIDCPU_ID := 3
  const CMD_MULTICAST := 99

  const MODE_INIT := 1
  const CMD_PING := 2
  const CMD_PING_REPLY := 3
  const CMD_USER_INFO := 4
  const CMD_SIM_SETUP := 5
  const MODE_CALC_NBRS := 6
  const CMD_PING_END := 7
  const CMD_NBR_REPLY := 8
  const MODE_POS_BOIDS := 9
  const CMD_LOAD_BAL := 10
  const MODE_TRAN_BOIDS := 11
  const CMD_BOID := 12
  const MODE_DRAW := 14
  const CMD_DRAW_INFO := 15
  const CMD_KILL := 16
  const CMD_ACK := 17

  /** The command generateOutput writes: the header, then the first len body words. */
  function Command(len: nat, to: int, from: int, kind: int, data: seq<int>): (cmd: seq<int>)
    requires len <= |data|
    ensures |cmd| == CMD_HEADER_LEN + len && cmd[CMD_LEN] == |cmd|
    ensures cmd[CMD_TO] == to && cmd[CMD_FROM] == from && cmd[CMD_TYPE] == kind
    ensures cmd[CMD_HEADER_LEN..] == data[..len]
  {
    [len + CMD_HEADER_LEN, to, from, kind] + data[..len]
  }

  // ---------------------------------------------------------------------
  // Two fixed-point values to a word and back.

  /**
   * The top half of a packed word: the value, shifted left by 4 bits in a
   * 32-bit fixed-point register to bring the sixteenths into the integer
   * bits, cast to 32 bits unsigned and shifted into the top 16 bits.
   */
  function HighHalf(v: int): int
  {
    U32(U32(v) * TWO16)
  }

  /**
   * The bottom half: the same cast; a negative value is masked with 0xFFFF
   * to clear the ones its two's complement leaves in the top 16 bits.
   */
  function LowHalf(v: int): int
  {
    if v < 0 then U32(v) % TWO16 else U32(v)
  }

  /**
   * packBoidsForSending's word for two values: the top and bottom halves
   * never share a bit, so OR-ing them is adding them.
   */
  function PackPair(a: int, b: int): (w: int)
    requires IsI16(a) && IsI16(b)
    ensures IsU32(w)
  {
    HalvesApart(a, b);
    HighHalf(a) + LowHalf(b)
  }

  lemma HalvesApart(a: int, b: int)
    requires IsI16(a) && IsI16(b)
    ensures HighHalf(a) == U16(a) * TWO16 && LowHalf(b) == U16(b)
  {
    assert U32(a) % TWO16 == U16(a);
  }

  /**
   * parsePackedBoid's reading of a word: the word as a signed 32-bit number
   * shifted right by 16, and the word cast to a signed 16-bit number, each
   * taken as sixteenths.
   */
  function UnpackPair(w: int): (r: (int, int))
    requires IsU32(w)
    ensures IsI16(r.0) && IsI16(r.1)
  {
    (I16(w / TWO16), I16(w % TWO16))
  }

  /** Unpacking a packed word gives back both values. */
  lemma PairRoundTrip(a: int, b: int)
    requires IsI16(a) && IsI16(b)
    ensures UnpackPair(PackPair(a, b)) == (a, b)
  {
    var w := PackPair(a, b);
    HalvesApart(a, b);
    assert w == U16(a) * TWO16 + U16(b);
    assert w / TWO16 == U16(a) && w % TWO16 == U16(b);
  }

  /** Packing is one-to-one: different pairs give different words. */
  lemma PackPairInjective(a: int, b: int, c: int, d: int)
    requires IsI16(a) && IsI16(b) && IsI16(c) && IsI16(d)
    requires PackPair(a, b) == PackPair(c, d)
    ensures a == c && b == d
  {
    PairRoundTrip(a, b);
    PairRoundTrip(c, d);
  }

  // ---------------------------------------------------------------------
  // A boid as three words: position, velocity, id.

  const BOID_DATA_LENGTH := 3

  /** The three body words packBoidsForSending writes for one boid. */
  function PackBoid(b: Boid): (slot: seq<int>)
    requires WellFormed(b)
    ensures |slot| == BOID_DATA_LENGTH && forall i :: 0 <= i < |slot| ==> IsU32(slot[i])
  {
    [PackPair(b.px, b.py), PackPair(b.vx, b.vy), b.id]
  }

  /** parsePackedBoid on three words: the id is read as a 16-bit number. */
  function ParseBoid(slot: seq<int>): (b: Boid)
    requires |slot| == BOID_DATA_LENGTH && IsU32(slot[0]) && IsU32(slot[1])
    ensures WellFormed(b)
  {
    var pos := UnpackPair(slot[0]);
    var vel := UnpackPair(slot[1]);
    Boid(U16(slot[2]), pos.0, pos.1, vel.0, vel.1)
  }

  /** A parsed slot written by the packer is the boid that was packed. */
  lemma BoidRoundTrip(b: Boid)
    requires WellFormed(b)
    ensures ParseBoid(PackBoid(b)) == b
  {
    PairRoundTrip(b.px, b.py);
    PairRoundTrip(b.vx, b.vy);
  }

  /** The body words of a run of boids, three per boid. */
  function Slots(s: seq<Boid>): (w: seq<int>)
    requires forall i :: 0 <= i < |s| ==> WellFormed(s[i])
    ensures |w| == BOID_DATA_LENGTH * |s|
  {
    if |s| == 0 then [] else Slots(s[..|s| - 1]) + PackBoid(s[|s| - 1])
  }

  /** Slot i of a run holds the packed boid i. */
  lemma {:induction false} SlotsAt(s: seq<Boid>, i: int)
    requires forall k :: 0 <= k < |s| ==> WellFormed(s[k])
    requires 0 <= i < |s|
    ensures Slots(s)[BOID_DATA_LENGTH * i..BOID_DATA_LENGTH * i + BOID_DATA_LENGTH] == PackBoid(s[i])
  {
    var n := |s| - 1;
    var prefix := Slots(s[..n]);
    assert Slots(s) == prefix + PackBoid(s[n]);
    if i < n {
      SlotsAt(s[..n], i);
      assert Slots(s)[3 * i..3 * i + 3] == prefix[3 * i..3 * i + 3];
    } else {
      assert Slots(s)[3 * i..3 * i + 3] == Slots(s)[|prefix|..];
    }
  }

  // ---------------------------------------------------------------------
  // A boid as the five words of a CMD_BOID message.

  /**
   * A fixed-point value stored into a 32-bit integer word: its fraction is
   * dropped toward zero, as a C conversion does.
   */
  function Whole(v: int): int
  {
    CDiv(v, 16)
  }

  /** The body transmitBoids sends for one boid: id, position and velocity as whole numbers. */
  function BoidWords(b: Boid): (w: seq<int>)
    ensures |w| == 5
  {
    [b.id, U32(Whole(b.px)), U32(Whole(b.py)), U32(Whole(b.vx)), U32(Whole(b.vy))]
  }

  /** acceptBoid keeps each of the five words as a signed 16-bit number. */
  function Queued(body: seq<int>): (q: seq<int>)
    requires |body| >= 5
    ensures |q| == 5 && forall i :: 0 <= i < 5 ==> IsI16(q[i])
  {
    [I16(U16(body[0])), I16(U16(body[1])), I16(U16(body[2])), I16(U16(body[3])), I16(U16(body[4]))]
  }

  /** A whole number taken into a 16-bit fixed-point value, saturating at both ends. */
  function Fixed(q: int): (v: int)
    ensures IsI16(v)
  {
    if q * 16 < -0x8000 then -0x8000 else if q * 16 > 0x7FFF then 0x7FFF else q * 16
  }

  /** The boid commitAcceptedBoids builds from a queued entry. */
  function Committed(q: seq<int>): (b: Boid)
    requires |q| == 5
    ensures IsU16(b.id)
  {
    Boid(U16(q[0]), Fixed(q[1]), Fixed(q[2]), Fixed(q[3]), Fixed(q[4]))
  }

  /**
   * A boid handed from one FPGA BoidCPU to another arrives with its id, and
   * with its position and velocity cut to whole pixels toward zero: the
   * fractional sixteenths do not survive the transfer.
   */
  lemma TransferredBoid(b: Boid)
    requires WellFormed(b)
    ensures Committed(Queued(BoidWords(b))) == Boid(b.id, 16 * Whole(b.px), 16 * Whole(b.py), 16 * Whole(b.vx), 16 * Whole(b.vy))
    ensures b.px % 16 == 0 && b.px >= 0 ==> Committed(Queued(BoidWords(b))).px == b.px
  {
    WholeFits(b.px);
    WholeFits(b.py);
    WholeFits(b.vx);
    WholeFits(b.vy);
  }

  lemma WholeFits(v: int)
    requires IsI16(v)
    ensures -0x800 <= Whole(v) < 0x800
    ensures I16(U16(U32(Whole(v)))) == Whole(v) && Fixed(Whole(v)) == 16 * Whole(v)
  {
    var w := Whole(v);
    assert U16(U32(w)) == U16(w);
  }

  // ---------------------------------------------------------------------
  // Edge changes of the naive load balancer: four signed 4-bit fields.

  const NORTH_IDX := 12
  const EAST_IDX := 8
  const SOUTH_IDX := 4
  const WEST_IDX := 0

  predicate IsNibble(v: int) { -8 <= v < 8 }

  /** A 4-bit two's-complement pattern read as a number. */
  function Signed4(p: int): (v: int)
    requires 0 <= p < 16
    ensures IsNibble(v) && (v - p) % 16 == 0
  {
    if p < 8 then p else p - 16
  }

  /** The weight of the lowest bit of the field at a bit offset. */
  function Weight(off: int): (k: int)
    requires off in {0, 4, 8, 12}
    ensures k > 0
  {
    if off == 0 then 1 else if off == 4 then 0x10 else if off == 8 then 0x100 else 0x1000
  }

  /**
   * The 16-bit pattern processLoadData builds: each change, as a 4-bit
   * pattern, OR-ed in at its offset; the fields never overlap.
   */
  function EdgePattern(n: int, e: int, s: int, w: int): (p: int)
    ensures IsU16(p)
  {
    (n % 16) * 0x1000 + (e % 16) * 0x100 + (s % 16) * 0x10 + w % 16
  }

  /** The pattern as it travels: the 16-bit value cast to a 32-bit word, which extends its sign. */
  function EdgeWord(n: int, e: int, s: int, w: int): (word: int)
    ensures IsU32(word)
  {
    U32(I16(EdgePattern(n, e, s, w)))
  }

  /**
   * loadBalance's reading of one field: the word cast to a signed 16-bit
   * number, shifted right by the offset, and cut to a signed 4-bit number.
   */
  function Field(word: int, off: int): (v: int)
    requires off in {0, 4, 8, 12}
    ensures IsNibble(v)
  {
    Signed4((I16(U16(word)) / Weight(off)) % 16)
  }

  /** loadBalance reads back exactly the four changes processLoadData wrote. */
  lemma EdgeWordRoundTrip(n: int, e: int, s: int, w: int)
    requires IsNibble(n) && IsNibble(e) && IsNibble(s) && IsNibble(w)
    ensures Field(EdgeWord(n, e, s, w), NORTH_IDX) == n
    ensures Field(EdgeWord(n, e, s, w), EAST_IDX) == e
    ensures Field(EdgeWord(n, e, s, w), SOUTH_IDX) == s
    ensures Field(EdgeWord(n, e, s, w), WEST_IDX) == w
  {
    var p := EdgePattern(n, e, s, w);
    Digits(p, n % 16, e % 16, s % 16, w % 16);
    NibbleSign(n);
    NibbleSign(e);
    NibbleSign(s);
    NibbleSign(w);
    FieldRead(p, NORTH_IDX);
    FieldRead(p, EAST_IDX);
    FieldRead(p, SOUTH_IDX);
    FieldRead(p, WEST_IDX);
  }

  /** A 16-bit pattern's four 4-bit fields, read back one at a time. */
  lemma Digits(p: int, nn: int, ee: int, ss: int, ww: int)
    requires 0 <= nn < 16 && 0 <= ee < 16 && 0 <= ss < 16 && 0 <= ww < 16
    requires p == nn * 0x1000 + ee * 0x100 + ss * 0x10 + ww
    ensures (p / 0x1000) % 16 == nn && (p / 0x100) % 16 == ee
    ensures (p / 0x10) % 16 == ss && (p / 1) % 16 == ww
  {
    assert p / 0x1000 == nn;
    assert p / 0x100 == nn * 16 + ee;
    LowNibble(nn, ee);
    assert p / 0x10 == (nn * 16 + ee) * 16 + ss;
    LowNibble(nn * 16 + ee, ss);
  }

  /** The low four bits of hi * 16 + x are x. */
  lemma LowNibble(hi: int, x: int)
    requires 0 <= x < 16
    ensures (hi * 16 + x) % 16 == x
  {
  }

  /** A change's 4-bit pattern reads back as the change. */
  lemma NibbleSign(x: int)
    requires IsNibble(x)
    ensures Signed4(x % 16) == x
  {
  }

  /**
   * Sign extension to 32 bits and back to 16 leaves the bits of every field
   * alone: loadBalance reads the 4-bit pattern at the offset.
   */
  lemma FieldRead(p: int, off: int)
    requires IsU16(p) && off in {0, 4, 8, 12}
    ensures Field(U32(I16(p)), off) == Signed4((p / Weight(off)) % 16)
  {
    var v := I16(p);
    assert U16(U32(v)) == p;
    assert Field(U32(v), off) == Signed4((v / Weight(off)) % 16);
    if v != p {
      // subtracting 2^16 takes a multiple of 16 from p / Weight(off)
      if off == 0 {
        Below16(p, 1);
      } else if off == 4 {
        Below16(p, 0x10);
      } else if off == 8 {
        Below16(p, 0x100);
      } else {
        Below16(p, 0x1000);
      }
    }
  }

  /** Taking 2^16, a multiple of 16 * k, from p leaves the field (p / k) % 16 alone. */
  lemma Below16(p: int, k: int)
    requires k == 1 || k == 0x10 || k == 0x100 || k == 0x1000
    ensures ((p - 0x10000) / k) % 16 == (p / k) % 16
  {
    if k == 1 {
      DivModUnique(p - 0x10000, 16, p / 16 - 0x1000, p % 16);
    } else if k == 0x10 {
      DivModUnique(p - 0x10000, 0x10, p / 0x10 - 0x1000, p % 0x10);
      DivModUnique(p / 0x10 - 0x1000, 16, p / 0x10 / 16 - 0x100, p / 0x10 % 16);
    } else if k == 0x100 {
      DivModUnique(p - 0x10000, 0x100, p / 0x100 - 0x100, p % 0x100);
      DivModUnique(p / 0x100 - 0x100, 16, p / 0x100 / 16 - 0x10, p / 0x100 % 16);
    } else {
      DivModUnique(p - 0x10000, 0x1000, p / 0x1000 - 0x10, p % 0x1000);
      DivModUnique(p / 0x1000 - 0x10, 16, p / 0x1000 / 16 - 1, p / 0x1000 % 16);
    }
  }
}
