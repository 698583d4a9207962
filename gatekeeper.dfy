// The Gatekeeper of an FPGA board (the MicroBlaze program): it routes
// commands between the cores on its board, reached over numbered stream
// channels, and the other boards, reached over Ethernet. The configuration
// modelled is the one the program ships with: the BoidMaster resident on
// channel 0, two BoidCPUs on channels 1 and 2, and the Gatekeeper standing in
// for the BoidGPU.
module Gatekeeper {
  import opened Common
  import opened Wire

  const RESIDENT_BOIDCPU_COUNT := 2
  const BOIDMASTER_CHANNEL := 0
  const BOIDCPU_CHANNEL_1 := 1
  const BOIDCPU_CHANNEL_2 := 2
  const ALL_BOIDCPU_CHANNELS := 99
  /** The Gatekeeper's own id, fixed at start-up. */
  const GATEKEEPER_ID := 999

  const MAX_CMD_LEN := CMD_HEADER_LEN + MAX_CMD_BODY_LEN
  const MAX_OUTPUT_CMDS := 15
  const MAX_INPUT_CMDS := 5
  const MAX_BOIDCPU_NEIGHBOURS := 8
  const CMD_SETUP_NEWID_IDX := 0
  const CMD_SETUP_BNBRS_IDX := 7

  /** A command as it arrives on a channel: a header and a length word that counts the whole command. */
  predicate WellFormedCommand(m: seq<int>)
  {
    CMD_HEADER_LEN <= |m| <= MAX_CMD_LEN && m[CMD_LEN] == |m|
  }

  /** Rebuilding a well-formed command from its own fields with another recipient changes only the recipient. */
  lemma Readdressed(m: seq<int>, to: int)
    requires WellFormedCommand(m)
    ensures Command(|m| - CMD_HEADER_LEN, to, m[CMD_FROM], m[CMD_TYPE], m[CMD_HEADER_LEN..]) == m[CMD_TO := to]
  {
    var c := Command(|m| - CMD_HEADER_LEN, to, m[CMD_FROM], m[CMD_TYPE], m[CMD_HEADER_LEN..]);
    assert m[CMD_HEADER_LEN..][..|m| - CMD_HEADER_LEN] == m[CMD_HEADER_LEN..];
    assert forall i :: 0 <= i < |m| ==> c[i] == m[CMD_TO := to][i];
  }

  // ---------------------------------------------------------------------
  // 32-bit words as four Ethernet octets, most significant first.

  /** encodeEthernetMessage's four octets: the masked and shifted bytes of the word's 32-bit image. */
  function Bytes(v: int): (b: seq<int>)
    ensures |b| == 4 && IsU8(b[0]) && IsU8(b[1]) && IsU8(b[2]) && IsU8(b[3])
  {
    [v / 0x100_0000 % 0x100, v / 0x1_0000 % 0x100, v / 0x100 % 0x100, v % 0x100]
  }

  /** decodeEthernetMessage: the four octets shifted into place and joined. */
  function Decode(b0: int, b1: int, b2: int, b3: int): (v: int)
    requires IsU8(b0) && IsU8(b1) && IsU8(b2) && IsU8(b3)
    ensures IsU32(v)
  {
    b0 * 0x100_0000 + b1 * 0x1_0000 + b2 * 0x100 + b3
  }

  /** A number split into its four low base-256 digits and the part above 32 bits. */
  lemma Digits(v: int) returns (k: int, a: int, b: int, c: int, d: int)
    ensures IsU8(a) && IsU8(b) && IsU8(c) && IsU8(d)
    ensures v == k * TWO32 + a * 0x100_0000 + b * 0x1_0000 + c * 0x100 + d
    ensures Bytes(v) == [a, b, c, d]
  {
    d := v % 0x100;
    var v8 := v / 0x100;
    c := v8 % 0x100;
    var v16 := v8 / 0x100;
    b := v16 % 0x100;
    var v24 := v16 / 0x100;
    a := v24 % 0x100;
    k := v24 / 0x100;
    assert v == v16 * 0x1_0000 + c * 0x100 + d;
    assert v == v24 * 0x100_0000 + b * 0x1_0000 + c * 0x100 + d;
    assert v / 0x1_0000 == v16;
    assert v / 0x100_0000 == v24;
  }

  /** Decoding the octets of a word gives back its 32-bit image, the word itself when it is a u32. */
  lemma DecodeBytes(v: int)
    ensures var b := Bytes(v); Decode(b[0], b[1], b[2], b[3]) == U32(v)
  {
    var k, a, b, c, d := Digits(v);
    DivModUnique(v, TWO32, k, Decode(a, b, c, d));
  }

  /** Encoding the word decoded from four octets gives back the same octets. */
  lemma BytesDecode(b0: int, b1: int, b2: int, b3: int)
    requires IsU8(b0) && IsU8(b1) && IsU8(b2) && IsU8(b3)
    ensures Bytes(Decode(b0, b1, b2, b3)) == [b0, b1, b2, b3]
  {
    var v := Decode(b0, b1, b2, b3);
    DivModUnique(v, 0x100_0000, b0, b1 * 0x1_0000 + b2 * 0x100 + b3);
    DivModUnique(b0, 0x100, 0, b0);
    DivModUnique(v, 0x1_0000, b0 * 0x100 + b1, b2 * 0x100 + b3);
    DivModUnique(b0 * 0x100 + b1, 0x100, b0, b1);
    DivModUnique(v, 0x100, b0 * 0x1_0000 + b1 * 0x100 + b2, b3);
    DivModUnique(b0 * 0x1_0000 + b1 * 0x100 + b2, 0x100, b0 * 0x100 + b1, b2);
  }

  /** encodeEthernetMessage: the word's octets at idx..idx+4, and the index moved on by exactly 4. */
  method EncodeWord(value: int, buf: array<int>, idx: int) returns (next: int)
    requires 0 <= idx && idx + 4 <= buf.Length
    modifies buf
    ensures next == idx + 4
    ensures buf[..] == old(buf[..idx]) + Bytes(value) + old(buf[idx + 4..])
  {
    buf[idx] := value / 0x100_0000 % 0x100;
    buf[idx + 1] := value / 0x1_0000 % 0x100;
    buf[idx + 2] := value / 0x100 % 0x100;
    buf[idx + 3] := value % 0x100;
    next := idx + 4;
  }

  /** The octets of a sequence of words, in order. */
  function Encoded(s: seq<int>): (e: seq<int>)
    ensures |e| == 4 * |s|
  {
    if |s| == 0 then [] else Encoded(s[..|s| - 1]) + Bytes(s[|s| - 1])
  }

  /** Word k of a sequence occupies octets 4k..4k+4 of its encoding. */
  lemma {:induction false} EncodedAt(s: seq<int>, k: int)
    requires 0 <= k < |s|
    ensures Encoded(s)[4 * k..4 * k + 4] == Bytes(s[k])
    decreases |s|
  {
    if k < |s| - 1 {
      EncodedAt(s[..|s| - 1], k);
      assert Encoded(s)[..4 * (|s| - 1)] == Encoded(s[..|s| - 1]);
    }
  }

  // ---------------------------------------------------------------------
  // Ethernet frames.

  /** The EmacLite header: destination, source MAC and EtherType octets. */
  const XEL_HEADER_SIZE := 14
  /** The minimum frame size of IEEE 802.3 (minFrameSize, clause 4.4.2), in octets. */
  const MIN_FRAME_SIZE := 64
  const OWN_MAC: seq<int> := [0x00, 0x0A, 0x35, 0x01, 0x02, 0x03]
  const OUTPUT_BUFFER_SIZE := XEL_HEADER_SIZE + MAX_CMD_LEN * MAX_OUTPUT_CMDS * 4
  const INPUT_BUFFER_SIZE := XEL_HEADER_SIZE + MAX_CMD_LEN * MAX_INPUT_CMDS * 4
  /** The number of words processReceivedExternalMessage decodes from a received frame. */
  const INPUT_WORDS := (MAX_CMD_LEN * MAX_INPUT_CMDS - XEL_HEADER_SIZE + 3) / 4

  /** Broadcast destination, own MAC, and the EtherType 0x55AA. */
  const FRAME_HEADER: seq<int> := [0xFF, 0xFF, 0xFF, 0xFF, 0xFF, 0xFF] + OWN_MAC + [0x55, 0xAA]

  /** The zero octets that bring a frame of this many words up to the minimum size. */
  function Padding(words: int): (p: seq<int>)
    ensures |p| == Max(0, MIN_FRAME_SIZE - (XEL_HEADER_SIZE + 4 * words))
    ensures forall i :: 0 <= i < |p| ==> p[i] == 0
  {
    seq(Max(0, MIN_FRAME_SIZE - (XEL_HEADER_SIZE + 4 * words)), _ => 0)
  }

  /** The octets sendExternalMessage hands to the Ethernet controller for a command. */
  function Frame(cmd: seq<int>): seq<int>
  {
    FRAME_HEADER + Encoded(cmd) + Padding(|cmd|)
  }

  /** The word a receiver decodes from octets 14+4k..14+4k+4 of a frame. */
  function WordAt(f: seq<int>, k: nat): int
    requires XEL_HEADER_SIZE + 4 * k + 4 <= |f|
    requires forall i :: 0 <= i < |f| ==> IsU8(f[i])
  {
    Decode(f[XEL_HEADER_SIZE + 4 * k], f[XEL_HEADER_SIZE + 4 * k + 1],
           f[XEL_HEADER_SIZE + 4 * k + 2], f[XEL_HEADER_SIZE + 4 * k + 3])
  }

  /**
   * The frame layout: six 0xFF octets, the own MAC, 0x55 0xAA, the words, and
   * zeros up to 64 octets; its length is max(64, 14 + 4 * words).
   */
  lemma FrameLayout(cmd: seq<int>)
    ensures var f := Frame(cmd);
      |f| == Max(MIN_FRAME_SIZE, XEL_HEADER_SIZE + 4 * |cmd|) &&
      f[..6] == [0xFF, 0xFF, 0xFF, 0xFF, 0xFF, 0xFF] && f[6..12] == OWN_MAC && f[12] == 0x55 && f[13] == 0xAA &&
      f[XEL_HEADER_SIZE..XEL_HEADER_SIZE + 4 * |cmd|] == Encoded(cmd) &&
      (forall i :: XEL_HEADER_SIZE + 4 * |cmd| <= i < |f| ==> f[i] == 0)
  {
    var f := Frame(cmd);
    var e := Encoded(cmd);
    assert f[..6] == [0xFF, 0xFF, 0xFF, 0xFF, 0xFF, 0xFF];
    assert f[XEL_HEADER_SIZE..XEL_HEADER_SIZE + 4 * |cmd|] == e;
  }

  /** Every octet of a frame is a byte. */
  lemma FrameOctets(cmd: seq<int>)
    ensures forall i :: 0 <= i < |Frame(cmd)| ==> IsU8(Frame(cmd)[i])
  {
    var f := Frame(cmd);
    var e := Encoded(cmd);
    EncodedOctets(cmd);
    forall i | 0 <= i < |f|
      ensures IsU8(f[i])
    {
      if XEL_HEADER_SIZE <= i < XEL_HEADER_SIZE + |e| {
        assert f[i] == e[i - XEL_HEADER_SIZE];
      }
    }
  }

  /** Every octet of an encoding is a byte. */
  lemma {:induction false} EncodedOctets(s: seq<int>)
    ensures forall i :: 0 <= i < |Encoded(s)| ==> IsU8(Encoded(s)[i])
    decreases |s|
  {
    if |s| > 0 {
      EncodedOctets(s[..|s| - 1]);
    }
  }

  /** A receiver decoding a frame word by word gets back every word of the command that was sent. */
  lemma FrameRoundTrip(cmd: seq<int>, k: nat)
    requires k < |cmd| && IsU32(cmd[k])
    ensures var f := Frame(cmd);
      XEL_HEADER_SIZE + 4 * k + 4 <= |f| && (forall i :: 0 <= i < |f| ==> IsU8(f[i])) && WordAt(f, k) == cmd[k]
  {
    FrameWord(cmd, k);
    FrameOctets(cmd);
    var f := Frame(cmd);
    var b := Bytes(cmd[k]);
    assert WordAt(f, k) == Decode(b[0], b[1], b[2], b[3]);
    DecodeBytes(cmd[k]);
    DivModUnique(cmd[k], TWO32, 0, cmd[k]);
  }

  /** Word k of a command sits in octets 14 + 4k to 14 + 4k + 3 of its frame. */
  lemma FrameWord(cmd: seq<int>, k: nat)
    requires k < |cmd|
    ensures var f, at, b := Frame(cmd), XEL_HEADER_SIZE + 4 * k, Bytes(cmd[k]);
      at + 4 <= |f| && f[at] == b[0] && f[at + 1] == b[1] && f[at + 2] == b[2] && f[at + 3] == b[3]
  {
    FrameLayout(cmd);
    var f := Frame(cmd);
    EncodedAt(cmd, k);
    var b := Bytes(cmd[k]);
    var at := XEL_HEADER_SIZE + 4 * k;
    var e := Encoded(cmd);
    var mid := f[XEL_HEADER_SIZE..XEL_HEADER_SIZE + 4 * |cmd|];
    assert mid == e && e[4 * k..4 * k + 4] == b;
    assert f[at] == mid[4 * k] == b[0];
    assert f[at + 1] == mid[4 * k + 1] == b[1];
    assert f[at + 2] == mid[4 * k + 2] == b[2];
    assert f[at + 3] == mid[4 * k + 3] == b[3];
  }

  /**
   * The decoding loop of processReceivedExternalMessage: words from octet 14
   * on, four octets each, while the octet index stays below the size of the
   * word buffer.
   */
  method ReadExternalInput(raw: seq<int>) returns (words: seq<int>)
    requires |raw| == INPUT_BUFFER_SIZE && forall i :: 0 <= i < |raw| ==> IsU8(raw[i])
    ensures |words| == INPUT_WORDS
    ensures forall k :: 0 <= k < INPUT_WORDS ==> words[k] == WordAt(raw, k)
  {
    words := [];
    var j := XEL_HEADER_SIZE;
    while j < MAX_CMD_LEN * MAX_INPUT_CMDS
      invariant XEL_HEADER_SIZE <= j <= MAX_CMD_LEN * MAX_INPUT_CMDS + 2
      invariant j == XEL_HEADER_SIZE + 4 * |words|
      invariant forall k :: 0 <= k < |words| ==> words[k] == WordAt(raw, k)
    {
      words := words + [Decode(raw[j], raw[j + 1], raw[j + 2], raw[j + 3])];
      j := j + 4;
    }
  }

  /** A received buffer that starts with a sent frame yields the sent command as its first words. */
  lemma ReceivedRoundTrip(cmd: seq<int>, raw: seq<int>, words: seq<int>)
    requires WellFormedCommand(cmd) && forall i :: 0 <= i < |cmd| ==> IsU32(cmd[i])
    requires |raw| == INPUT_BUFFER_SIZE && forall i :: 0 <= i < |raw| ==> IsU8(raw[i])
    requires raw[..|Frame(cmd)|] == Frame(cmd)
    requires |words| == INPUT_WORDS && forall k :: 0 <= k < INPUT_WORDS ==> words[k] == WordAt(raw, k)
    ensures words[..|cmd|] == cmd
  {
    FrameLayout(cmd);
    FrameOctets(cmd);
    var f := Frame(cmd);
    forall k | 0 <= k < |cmd|
      ensures words[k] == cmd[k]
    {
      FrameRoundTrip(cmd, k);
      assert raw[XEL_HEADER_SIZE + 4 * k..XEL_HEADER_SIZE + 4 * k + 4] == f[XEL_HEADER_SIZE + 4 * k..XEL_HEADER_SIZE + 4 * k + 4];
    }
  }

  // ---------------------------------------------------------------------
  // Routing tables. channelIDList[i] is the id of the BoidCPU on channel i;
  // entry 0 belongs to the BoidMaster's channel and is never written.

  datatype Recipient = External | Internal | InternalAndExternal

  /** recipientLookUp: where a command to `to` from `from` has to go. */
  function RecipientOf(to: int, from: int, ids: seq<int>): Recipient
    requires |ids| == RESIDENT_BOIDCPU_COUNT + 1
  {
    if to == CMD_BROADCAST then InternalAndExternal
    else if to == CONTROLLER_ID then Internal
    else if to == BOIDGPU_ID then External
    else if to == CMD_MULTICAST then (if from in ids[1..] then InternalAndExternal else Internal)
    else if to >= FIRST_BOIDCPU_ID then (if to in ids[1..] then Internal else External)
    else InternalAndExternal
  }

  /** The first channel from i on whose BoidCPU has this id, or 99. */
  function ScanChannels(to: int, ids: seq<int>, i: int): (ch: int)
    requires 1 <= i <= |ids| <= RESIDENT_BOIDCPU_COUNT + 1
    ensures ch == ALL_BOIDCPU_CHANNELS <==> to !in ids[i..]
    ensures ch != ALL_BOIDCPU_CHANNELS ==> i <= ch < |ids| && ids[ch] == to && to !in ids[i..ch]
    decreases |ids| - i
  {
    if i == |ids| then ALL_BOIDCPU_CHANNELS
    else if ids[i] == to then i
    else
      assert ids[i..] == [ids[i]] + ids[i + 1..];
      ScanChannels(to, ids, i + 1)
  }

  /** internalChannelLookUp: channel 0 for the BoidMaster, the BoidCPU's channel, or 99 for all. */
  function ChannelOf(to: int, ids: seq<int>): int
    requires |ids| == RESIDENT_BOIDCPU_COUNT + 1
  {
    if to == CONTROLLER_ID then BOIDMASTER_CHANNEL else ScanChannels(to, ids, 1)
  }

  /**
   * The two tables agree: a command to a BoidCPU id stays on the board exactly
   * when there is a channel for it.
   */
  lemma InternalIffChannel(to: int, from: int, ids: seq<int>)
    requires |ids| == RESIDENT_BOIDCPU_COUNT + 1
    requires to >= FIRST_BOIDCPU_ID && to != CMD_MULTICAST
    ensures RecipientOf(to, from, ids) == Internal <==>
            BOIDCPU_CHANNEL_1 <= ChannelOf(to, ids) <= RESIDENT_BOIDCPU_COUNT
    ensures RecipientOf(to, from, ids) == External <==> ChannelOf(to, ids) == ALL_BOIDCPU_CHANNELS
  {
  }

  /** The channels of a multicast below n: every BoidCPU channel whose id is not the sender's, in order. */
  function MulticastChannels(from: int, ids: seq<int>, n: int): (chs: seq<int>)
    requires 1 <= n <= |ids|
    ensures forall k :: 0 <= k < |chs| ==> 1 <= chs[k] < n && ids[chs[k]] != from
    ensures forall i :: 1 <= i < n && ids[i] != from ==> i in chs
    ensures forall k, l :: 0 <= k < l < |chs| ==> chs[k] < chs[l]
  {
    if n == 1 then [] else MulticastChannels(from, ids, n - 1) + (if ids[n - 1] != from then [n - 1] else [])
  }

  /**
   * sendInternalMessage's choice of channels: a multicast goes down every
   * other BoidCPU channel; during setup a setup command goes down the channel
   * being set up; otherwise the looked-up channel, where anything other than
   * a known channel means both BoidCPU channels.
   */
  function Channels(to: int, from: int, kind: int, setup: bool, setupChannel: int, ids: seq<int>): seq<int>
    requires |ids| == RESIDENT_BOIDCPU_COUNT + 1
  {
    if to == CMD_MULTICAST then MulticastChannels(from, ids, RESIDENT_BOIDCPU_COUNT + 1)
    else
      var ch := if !setup && kind == CMD_SIM_SETUP then setupChannel else ChannelOf(to, ids);
      if ch == BOIDMASTER_CHANNEL || ch == BOIDCPU_CHANNEL_1 || ch == BOIDCPU_CHANNEL_2 then [ch]
      else [BOIDCPU_CHANNEL_1, BOIDCPU_CHANNEL_2]
  }

  /**
   * sendMessage's choice: during setup a setup command stays on the board only
   * when it is for this Gatekeeper or is the one being forwarded to a resident
   * BoidCPU; a ping always leaves the board; everything else follows
   * recipientLookUp.
   */
  function Route(to: int, from: int, kind: int, setup: bool, forwardingSetup: bool, ids: seq<int>): Recipient
    requires |ids| == RESIDENT_BOIDCPU_COUNT + 1
  {
    if !setup && kind == CMD_SIM_SETUP then
      (if to == GATEKEEPER_ID || forwardingSetup then Internal else External)
    else if kind == CMD_PING then External
    else RecipientOf(to, from, ids)
  }

  /** externalMessageRelevant: whether a command from another board is passed on to this board's cores. */
  function Relevant(to: int, from: int, nbrs: seq<int>): bool
  {
    if from == CONTROLLER_ID then true
    else if to == CMD_BROADCAST then true
    else if to == BOIDGPU_ID then false
    else if to == CONTROLLER_ID then true
    else if from >= FIRST_BOIDCPU_ID then from in nbrs
    else false
  }

  /** A command put on one stream channel. */
  datatype Delivery = Delivery(channel: int, cmd: seq<int>)

  function Deliver(chs: seq<int>, cmd: seq<int>): (d: seq<Delivery>)
    ensures |d| == |chs| && forall k :: 0 <= k < |d| ==> d[k] == Delivery(chs[k], cmd)
  {
    seq(|chs|, k requires 0 <= k < |chs| => Delivery(chs[k], cmd))
  }

  lemma DeliverSnoc(chs: seq<int>, ch: int, cmd: seq<int>)
    ensures Deliver(chs + [ch], cmd) == Deliver(chs, cmd) + [Delivery(ch, cmd)]
  {
  }

  // ---------------------------------------------------------------------
  // The neighbour list kept while the resident BoidCPUs are set up.

  predicate NoDups(s: seq<int>)
  {
    forall i, j :: 0 <= i < j < |s| ==> s[i] != s[j]
  }

  /** interceptSetupInfo's update: each neighbour id is appended unless it is listed already. */
  function Merged(list: seq<int>, nbrs: seq<int>): (r: seq<int>)
  {
    if |nbrs| == 0 then list
    else
      var m := Merged(list, nbrs[..|nbrs| - 1]);
      if nbrs[|nbrs| - 1] in m then m else m + [nbrs[|nbrs| - 1]]
  }

  /** Merging keeps the old list as a prefix, adds at most one entry per neighbour, and lists exactly the union. */
  lemma {:induction false} MergedContents(list: seq<int>, nbrs: seq<int>)
    ensures var r := Merged(list, nbrs);
      |list| <= |r| <= |list| + |nbrs| && r[..|list|] == list &&
      forall x :: x in r <==> x in list || x in nbrs
    decreases |nbrs|
  {
    if |nbrs| > 0 {
      var init := nbrs[..|nbrs| - 1];
      MergedContents(list, init);
      assert nbrs == init + [nbrs[|nbrs| - 1]];
    }
  }

  /** Merging into a duplicate-free list leaves it duplicate-free. */
  lemma {:induction false} MergedNoDups(list: seq<int>, nbrs: seq<int>)
    requires NoDups(list)
    ensures NoDups(Merged(list, nbrs))
    decreases |nbrs|
  {
    if |nbrs| > 0 {
      MergedNoDups(list, nbrs[..|nbrs| - 1]);
    }
  }

  /** The eight neighbour ids of a setup command, as the u8 values the Gatekeeper stores. */
  function NeighboursOf(setup: seq<int>): (n: seq<int>)
    requires |setup| >= CMD_HEADER_LEN + CMD_SETUP_BNBRS_IDX + MAX_BOIDCPU_NEIGHBOURS
    ensures |n| == MAX_BOIDCPU_NEIGHBOURS
  {
    seq(MAX_BOIDCPU_NEIGHBOURS, i requires 0 <= i < MAX_BOIDCPU_NEIGHBOURS =>
      U8(setup[CMD_HEADER_LEN + CMD_SETUP_BNBRS_IDX + i]))
  }

  /** A setup command long enough to hold the new id and the eight neighbour ids. */
  predicate SetupCommand(m: seq<int>)
  {
    WellFormedCommand(m) && m[CMD_TYPE] == CMD_SIM_SETUP &&
    |m| >= CMD_HEADER_LEN + CMD_SETUP_BNBRS_IDX + MAX_BOIDCPU_NEIGHBOURS
  }

  /** A command as the Gatekeeper reads it: setup commands carry their ids, ping replies their count. */
  predicate Readable(m: seq<int>)
  {
    WellFormedCommand(m) &&
    (m[CMD_TYPE] == CMD_SIM_SETUP ==> SetupCommand(m)) &&
    (m[CMD_TYPE] == CMD_PING_REPLY ==> |m| > CMD_HEADER_LEN)
  }

  /** The ping reply a Gatekeeper sends on behalf of its resident BoidCPUs. */
  function PingReply(): seq<int>
  {
    Command(1, CONTROLLER_ID, GATEKEEPER_ID, CMD_PING_REPLY, [RESIDENT_BOIDCPU_COUNT])
  }

  /** The commands interceptMessage acts on: a ping, a setup command for this Gatekeeper, a ping reply. */
  predicate Intercepted(m: seq<int>)
    requires |m| >= CMD_HEADER_LEN
  {
    m[CMD_TYPE] == CMD_PING || m[CMD_TYPE] == CMD_PING_REPLY ||
    (m[CMD_TYPE] == CMD_SIM_SETUP && m[CMD_TO] == GATEKEEPER_ID)
  }

  // ---------------------------------------------------------------------
  // Counting ACKs and drawn boids.

  /** The collective ACK sent once every resident BoidCPU has acknowledged. */
  function CollectiveAck(): seq<int>
  {
    Command(0, CONTROLLER_ID, GATEKEEPER_ID, CMD_ACK, [])
  }

  /** The ACK sent on the BoidGPU's behalf once every boid has been drawn. */
  function GpuAck(): seq<int>
  {
    Command(0, CONTROLLER_ID, BOIDGPU_ID, CMD_ACK, [])
  }

  /** The ACK counter after one more ACK, and whether that ACK completes a collective one. */
  function AckStep(count: int): (int, bool)
  {
    if U8(count + 1) == RESIDENT_BOIDCPU_COUNT then (0, true) else (U8(count + 1), false)
  }

  /** The ACK counter after n more ACKs and the number of collective ACKs sent meanwhile. */
  function AckRun(count: int, n: nat): (int, nat)
  {
    if n == 0 then (count, 0)
    else
      var (c, k) := AckRun(count, n - 1);
      var (c2, sent) := AckStep(c);
      (c2, k + if sent then 1 else 0)
  }

  /** From zero, n ACKs leave n mod 2 pending and send one collective ACK per 2: none is forwarded singly. */
  lemma {:induction false} AckRunFromZero(n: nat)
    ensures AckRun(0, n) == (n % RESIDENT_BOIDCPU_COUNT, n / RESIDENT_BOIDCPU_COUNT)
  {
    if n > 0 {
      AckRunFromZero(n - 1);
    }
  }

  /** The boids one CMD_DRAW_INFO command carries, computed as the u32 (len - 4 - 1) / 3. */
  function DrawnIncrement(len: int): int
  {
    U32(len - CMD_HEADER_LEN - 1) / BOID_DATA_LENGTH
  }

  /** The drawn-boid count after a command passes, before any reset: only a draw command adds to it. */
  function DrawnTotal(data: seq<int>, drawn: int): int
    requires |data| >= CMD_HEADER_LEN
  {
    if data[CMD_TYPE] == CMD_DRAW_INFO then U32(drawn + DrawnIncrement(data[CMD_LEN])) else drawn
  }

  /** Whether a command completes the drawing of every boid: a draw command bringing the count to the boid count. */
  predicate AllDrawn(data: seq<int>, drawn: int, boids: int)
    requires |data| >= CMD_HEADER_LEN
  {
    data[CMD_TYPE] == CMD_DRAW_INFO && DrawnTotal(data, drawn) == boids
  }

  /** What monitorDrawnBoids puts on the channels: the BoidGPU's ACK once every boid is drawn, else nothing. */
  function MonitorSent(data: seq<int>, drawn: int, boids: int): seq<Delivery>
    requires |data| >= CMD_HEADER_LEN
  {
    if AllDrawn(data, drawn, boids) then [Delivery(BOIDMASTER_CHANNEL, GpuAck())] else []
  }

  /** A draw command with n boids (one count word and three words per boid) adds exactly n. */
  lemma DrawnIncrementCounts(n: nat)
    requires CMD_HEADER_LEN + 1 + BOID_DATA_LENGTH * n < TWO32
    ensures DrawnIncrement(CMD_HEADER_LEN + 1 + BOID_DATA_LENGTH * n) == n
  {
  }

  /** A draw command without its count word adds 1431655765, the u32 wrap of -1 divided by 3. */
  lemma DrawnIncrementShort()
    ensures DrawnIncrement(CMD_HEADER_LEN) == 1431655765
  {
  }

  /** The header octets of sendExternalMessage: broadcast destination, own MAC, EtherType. */
  method WriteHeader(buf: array<int>)
    requires buf.Length >= XEL_HEADER_SIZE
    modifies buf
    ensures buf[..XEL_HEADER_SIZE] == FRAME_HEADER && buf[XEL_HEADER_SIZE..] == old(buf[XEL_HEADER_SIZE..])
  {
    buf[0], buf[1], buf[2], buf[3], buf[4], buf[5] := 0xFF, 0xFF, 0xFF, 0xFF, 0xFF, 0xFF;
    for i := 0 to 6
      invariant buf[..6 + i] == FRAME_HEADER[..6 + i]
      invariant buf[XEL_HEADER_SIZE..] == old(buf[XEL_HEADER_SIZE..])
    {
      buf[6 + i] := OWN_MAC[i];
    }
    buf[12], buf[13] := 0x55, 0xAA;
  }

  /**
   * sendExternalMessage's octets: the header, each word through
   * encodeEthernetMessage, then the zero padding; the result is the number
   * of octets sent.
   */
  method BuildFrame(words: seq<int>, buf: array<int>) returns (size: int)
    requires CMD_HEADER_LEN <= |words| <= MAX_CMD_LEN && buf.Length == OUTPUT_BUFFER_SIZE
    modifies buf
    ensures size == |Frame(words)| <= buf.Length && buf[..size] == Frame(words)
  {
    WriteHeader(buf);
    var index := EncodeWords(words, buf);
    var paddedBytes := MIN_FRAME_SIZE - (|words| * 4 + XEL_HEADER_SIZE);
    var extraByteCounter := PadFrame(words, buf, index, paddedBytes);
    size := extraByteCounter + XEL_HEADER_SIZE + |words| * 4;
  }

  /** The word loop of sendExternalMessage: four octets per word after the header. */
  method EncodeWords(words: seq<int>, buf: array<int>) returns (index: int)
    requires |words| <= MAX_CMD_LEN && buf.Length == OUTPUT_BUFFER_SIZE && buf[..XEL_HEADER_SIZE] == FRAME_HEADER
    modifies buf
    ensures index == XEL_HEADER_SIZE + 4 * |words| && buf[..index] == FRAME_HEADER + Encoded(words)
  {
    index := XEL_HEADER_SIZE;
    for i := 0 to |words|
      invariant index == XEL_HEADER_SIZE + 4 * i
      invariant buf[..index] == FRAME_HEADER + Encoded(words[..i])
    {
      ghost var before := buf[..index];
      index := EncodeWord(words[i], buf, index);
      assert buf[..index] == before + Bytes(words[i]);
      assert words[..i + 1][..i] == words[..i];
    }
    assert words[..|words|] == words;
  }

  /** The padding loop of sendExternalMessage: zero octets up to the minimum frame size. */
  method PadFrame(words: seq<int>, buf: array<int>, index: int, paddedBytes: int) returns (extraByteCounter: int)
    requires |words| <= MAX_CMD_LEN && buf.Length == OUTPUT_BUFFER_SIZE
    requires index == XEL_HEADER_SIZE + 4 * |words| && paddedBytes == MIN_FRAME_SIZE - index
    requires buf[..index] == FRAME_HEADER + Encoded(words)
    modifies buf
    ensures extraByteCounter == |Padding(|words|)| && buf[..index + extraByteCounter] == Frame(words)
  {
    extraByteCounter := 0;
    while extraByteCounter < paddedBytes
      invariant 0 <= extraByteCounter <= Max(0, paddedBytes)
      invariant buf[..index + extraByteCounter] == FRAME_HEADER + Encoded(words) + Padding(|words|)[..extraByteCounter]
    {
      ghost var before := buf[..index + extraByteCounter];
      buf[index + extraByteCounter] := 0;
      assert buf[..index + extraByteCounter + 1] == before + [0];
      assert Padding(|words|)[..extraByteCounter + 1] == Padding(|words|)[..extraByteCounter] + [0];
      extraByteCounter := extraByteCounter + 1;
    }
    assert Padding(|words|)[..extraByteCounter] == Padding(|words|);
  }

  /** The multicast loop of sendInternalMessage: one delivery per BoidCPU channel other than the sender's. */
  method Multicast(ids: seq<int>, from: int, command: seq<int>) returns (sent: seq<Delivery>)
    requires |ids| == RESIDENT_BOIDCPU_COUNT + 1
    ensures sent == Deliver(MulticastChannels(from, ids, |ids|), command)
  {
    sent := [];
    for i := 1 to RESIDENT_BOIDCPU_COUNT + 1
      invariant sent == Deliver(MulticastChannels(from, ids, i), command)
    {
      if ids[i] != from {
        DeliverSnoc(MulticastChannels(from, ids, i), i, command);
        sent := sent + [Delivery(i, command)];
      } else {
        assert MulticastChannels(from, ids, i + 1) == MulticastChannels(from, ids, i) + [];
      }
    }
  }

  /** The search in interceptSetupInfo: whether an id is among the first count entries of the list. */
  method Listed(list: array<int>, count: int, nbr: int) returns (found: bool)
    requires 0 <= count <= list.Length
    ensures found <==> nbr in list[..count]
  {
    found := false;
    var j := 0;
    while j < count
      invariant 0 <= j <= count && !found && nbr !in list[..j]
    {
      if nbr == list[j] {
        found := true;
        return;
      }
      assert list[..j + 1] == list[..j] + [list[j]];
      j := j + 1;
    }
  }

  /**
   * The neighbour loop of interceptSetupInfo (and of the prototype's
   * processExternalMessage): each of the setup command's eight neighbour
   * ids is appended to the first count entries of the list unless it is
   * there already; the result is the new count.
   */
  method MergeNeighbours(list: array<int>, count: int, setup: seq<int>) returns (newCount: int)
    requires |setup| >= CMD_HEADER_LEN + CMD_SETUP_BNBRS_IDX + MAX_BOIDCPU_NEIGHBOURS
    requires 0 <= count && count + MAX_BOIDCPU_NEIGHBOURS <= list.Length
    modifies list
    ensures count <= newCount <= count + MAX_BOIDCPU_NEIGHBOURS
    ensures list[..newCount] == Merged(old(list[..count]), NeighboursOf(setup))
  {
    ghost var list0 := list[..count];
    var nbrs := NeighboursOf(setup);
    newCount := count;
    for i := 0 to MAX_BOIDCPU_NEIGHBOURS
      invariant count <= newCount <= count + i
      invariant list[..newCount] == Merged(list0, nbrs[..i])
    {
      var nbr := U8(setup[CMD_HEADER_LEN + CMD_SETUP_BNBRS_IDX + i]);
      var listed := Listed(list, newCount, nbr);
      assert nbrs[..i + 1] == nbrs[..i] + [nbr];
      assert nbrs[..i + 1][..i] == nbrs[..i];
      if !listed {
        list[newCount] := nbr;
        newCount := newCount + 1;
      }
    }
    assert nbrs[..MAX_BOIDCPU_NEIGHBOURS] == nbrs;
  }

  /**
   * The channel choice of sendInternalMessage, given the channel already
   * picked for a single delivery: a multicast goes down every other BoidCPU
   * channel, a known channel gets the command, anything else both BoidCPU
   * channels.
   */
  method ChannelDeliveries(to: int, from: int, kind: int, setup: bool, setupChannel: int, ids: seq<int>,
                           channel: int, command: seq<int>) returns (sent: seq<Delivery>)
    requires |ids| == RESIDENT_BOIDCPU_COUNT + 1
    requires channel == if !setup && kind == CMD_SIM_SETUP then setupChannel else ChannelOf(to, ids)
    ensures sent == Deliver(Channels(to, from, kind, setup, setupChannel, ids), command)
  {
    if to == CMD_MULTICAST {
      sent := Multicast(ids, from, command);
    } else if channel == BOIDMASTER_CHANNEL || channel == BOIDCPU_CHANNEL_1 || channel == BOIDCPU_CHANNEL_2 {
      sent := [Delivery(channel, command)];
    } else {
      sent := [Delivery(BOIDCPU_CHANNEL_1, command), Delivery(BOIDCPU_CHANNEL_2, command)];
    }
  }

  /** The channel deliveries sendMessage makes for a command and the routing state. */
  function RelayedInternal(cmd: seq<int>, setup: bool, forwarding: bool, setupChannel: int, ids: seq<int>): seq<Delivery>
    requires |ids| == RESIDENT_BOIDCPU_COUNT + 1 && |cmd| >= CMD_HEADER_LEN
  {
    if Route(cmd[CMD_TO], cmd[CMD_FROM], cmd[CMD_TYPE], setup, forwarding, ids) != External
    then Deliver(Channels(cmd[CMD_TO], cmd[CMD_FROM], cmd[CMD_TYPE], setup, setupChannel, ids), cmd)
    else []
  }

  /** The frames sendMessage hands to the Ethernet controller for a command and the routing state. */
  function RelayedExternal(cmd: seq<int>, setup: bool, forwarding: bool, ids: seq<int>): seq<seq<int>>
    requires |ids| == RESIDENT_BOIDCPU_COUNT + 1 && |cmd| >= CMD_HEADER_LEN
  {
    if Route(cmd[CMD_TO], cmd[CMD_FROM], cmd[CMD_TYPE], setup, forwarding, ids) != Internal then [Frame(cmd)] else []
  }

  /** The effect of sendMessage on the two logs, for a command and the routing state. */
  ghost predicate Relayed(int0: seq<Delivery>, ext0: seq<seq<int>>, int1: seq<Delivery>, ext1: seq<seq<int>>,
                          cmd: seq<int>, setup: bool, forwarding: bool, setupChannel: int, ids: seq<int>)
    requires |ids| == RESIDENT_BOIDCPU_COUNT + 1 && |cmd| >= CMD_HEADER_LEN
  {
    ext1 == ext0 + RelayedExternal(cmd, setup, forwarding, ids) &&
    int1 == int0 + RelayedInternal(cmd, setup, forwarding, setupChannel, ids)
  }

  /**
   * The forwarding step of processReceivedInternalMessage: commands for the
   * BoidGPU stop at this Gatekeeper, which stands in for it; the rest are
   * relayed unchanged.
   */
  ghost predicate PassedOn(int0: seq<Delivery>, ext0: seq<seq<int>>, int1: seq<Delivery>, ext1: seq<seq<int>>,
                           cmd: seq<int>, setup: bool, setupChannel: int, ids: seq<int>)
    requires |ids| == RESIDENT_BOIDCPU_COUNT + 1 && |cmd| >= CMD_HEADER_LEN
  {
    if cmd[CMD_TO] == BOIDGPU_ID then int1 == int0 && ext1 == ext0
    else Relayed(int0, ext0, int1, ext1, cmd, setup, false, setupChannel, ids)
  }

  // ---------------------------------------------------------------------
  // The Gatekeeper's state: the routing tables it learns during setup, its
  // counters, its Ethernet output buffer, and what it has put on each
  // stream channel and on the Ethernet link.

  class Gatekeeper {
    var boidCount: int
    var channelSetupCounter: int
    var boidCPUsSetup: bool
    var forwardingInterceptedSetup: bool
    var ackCount: int
    var drawnBoidsCount: int
    var timeStep: int
    var discoveredBoidCPUCount: int
    var residentNbrCounter: int
    const channelIDList: array<int>
    const residentBoidCPUNeighbours: array<int>
    const externalOutput: array<int>
    /** The commands put on the stream channels, in order. */
    var internalSent: seq<Delivery>
    /** The frames handed to the Ethernet controller, in order. */
    var externalSent: seq<seq<int>>

    /**
     * The channels are set up in order; setup is complete exactly when both
     * BoidCPU channels are; the neighbour list fits its buffer and has no
     * duplicates.
     */
    ghost predicate Valid()
      reads this, channelIDList, residentBoidCPUNeighbours
    {
      channelIDList.Length == RESIDENT_BOIDCPU_COUNT + 1 &&
      residentBoidCPUNeighbours.Length == MAX_BOIDCPU_NEIGHBOURS * RESIDENT_BOIDCPU_COUNT &&
      externalOutput.Length == OUTPUT_BUFFER_SIZE &&
      channelIDList != residentBoidCPUNeighbours && externalOutput != channelIDList &&
      externalOutput != residentBoidCPUNeighbours &&
      1 <= channelSetupCounter <= RESIDENT_BOIDCPU_COUNT + 1 &&
      (boidCPUsSetup <==> channelSetupCounter == RESIDENT_BOIDCPU_COUNT + 1) &&
      0 <= residentNbrCounter <= residentBoidCPUNeighbours.Length &&
      NoDups(residentBoidCPUNeighbours[..residentNbrCounter]) &&
      0 <= ackCount <= RESIDENT_BOIDCPU_COUNT && IsU32(drawnBoidsCount) && IsU32(boidCount) &&
      IsU8(discoveredBoidCPUCount)
    }

    /**
     * Between commands: each channel set up so far has added at most eight
     * neighbour ids, and fewer ACKs are pending than there are resident
     * BoidCPUs.
     */
    ghost predicate Ready()
      reads this, channelIDList, residentBoidCPUNeighbours
    {
      Valid() && residentNbrCounter <= MAX_BOIDCPU_NEIGHBOURS * (channelSetupCounter - 1) &&
      ackCount < RESIDENT_BOIDCPU_COUNT
    }

    /** The ids of the resident BoidCPUs, by channel. */
    ghost function Ids(): seq<int>
      reads this, channelIDList
    {
      channelIDList[..]
    }

    /** The neighbour ids of the resident BoidCPUs collected so far. */
    ghost function Nbrs(): seq<int>
      reads this, residentBoidCPUNeighbours
      requires 0 <= residentNbrCounter <= residentBoidCPUNeighbours.Length
    {
      residentBoidCPUNeighbours[..residentNbrCounter]
    }

    ghost function Tables(): (int, bool, int, seq<int>, seq<int>)
      reads this, channelIDList, residentBoidCPUNeighbours
    {
      (channelSetupCounter, boidCPUsSetup, residentNbrCounter, channelIDList[..], residentBoidCPUNeighbours[..])
    }

    ghost function Counts(): (int, int, int, int, int, bool)
      reads this
    {
      (ackCount, drawnBoidsCount, timeStep, discoveredBoidCPUCount, boidCount, forwardingInterceptedSetup)
    }

    /** Start-up, with the boid count the user entered. */
    constructor (boids: int)
      requires IsU32(boids)
      ensures Ready() && !boidCPUsSetup && !forwardingInterceptedSetup
      ensures channelSetupCounter == 1 && residentNbrCounter == 0 && Ids() == [0, 0, 0]
      ensures boidCount == boids && ackCount == 0 && drawnBoidsCount == 0 && timeStep == 0 && discoveredBoidCPUCount == 0
      ensures internalSent == [] && externalSent == []
    {
      boidCount := boids;
      channelSetupCounter := 1;
      boidCPUsSetup, forwardingInterceptedSetup := false, false;
      ackCount, drawnBoidsCount, timeStep, discoveredBoidCPUCount, residentNbrCounter := 0, 0, 0, 0, 0;
      channelIDList := new int[RESIDENT_BOIDCPU_COUNT + 1](_ => 0);
      residentBoidCPUNeighbours := new int[MAX_BOIDCPU_NEIGHBOURS * RESIDENT_BOIDCPU_COUNT](_ => 0);
      externalOutput := new int[OUTPUT_BUFFER_SIZE](_ => 0);
      internalSent, externalSent := [], [];
      new;
      assert channelIDList[..] == [0, 0, 0];
    }

    /** internalChannelLookUp over the current table. */
    method InternalChannelLookUp(to: int) returns (ch: int)
      requires Valid()
      ensures ch == ChannelOf(to, Ids())
      ensures ch == BOIDMASTER_CHANNEL <==> to == CONTROLLER_ID
      ensures BOIDCPU_CHANNEL_1 <= ch <= RESIDENT_BOIDCPU_COUNT ==> to != CONTROLLER_ID && channelIDList[ch] == to
      ensures ch == ALL_BOIDCPU_CHANNELS <==> to != CONTROLLER_ID && to !in Ids()[1..]
    {
      if to == CONTROLLER_ID {
        return BOIDMASTER_CHANNEL;
      }
      for i := 1 to RESIDENT_BOIDCPU_COUNT + 1
        invariant ScanChannels(to, Ids(), 1) == ScanChannels(to, Ids(), i)
      {
        if channelIDList[i] == to {
          return i;
        }
      }
      return ALL_BOIDCPU_CHANNELS;
    }

    /** recipientLookUp over the current table, with its loops over the BoidCPU channels. */
    method RecipientLookUp(to: int, from: int) returns (r: Recipient)
      requires Valid()
      ensures r == RecipientOf(to, from, Ids())
    {
      if to == CMD_BROADCAST {
        r := InternalAndExternal;
      } else if to == CONTROLLER_ID {
        r := Internal;
      } else if to == BOIDGPU_ID {
        r := External;
      } else if to == CMD_MULTICAST {
        var intAndExt := false;
        r := Internal;
        var i := 1;
        while i < RESIDENT_BOIDCPU_COUNT + 1
          invariant 1 <= i <= RESIDENT_BOIDCPU_COUNT + 1 && !intAndExt && r == Internal
          invariant from !in channelIDList[1..i]
        {
          if channelIDList[i] == from {
            r := InternalAndExternal;
            intAndExt := true;
            break;
          }
          i := i + 1;
        }
        assert intAndExt ==> from in Ids()[1..];
        assert !intAndExt ==> channelIDList[1..i] == Ids()[1..];
      } else if to >= FIRST_BOIDCPU_ID {
        var internal := false;
        for i := 1 to RESIDENT_BOIDCPU_COUNT + 1
          invariant !internal && to !in channelIDList[1..i]
        {
          if channelIDList[i] == to {
            r := Internal;
            internal := true;
            break;
          }
        }
        if !internal {
          assert channelIDList[1..RESIDENT_BOIDCPU_COUNT + 1] == Ids()[1..];
          r := External;
        }
      } else {
        r := InternalAndExternal;
      }
    }

    /** externalMessageRelevant over the current neighbour list; its loop has no early exit. */
    method ExternalMessageRelevant(msg: seq<int>) returns (r: bool)
      requires Valid() && |msg| >= CMD_HEADER_LEN
      ensures r == Relevant(msg[CMD_TO], msg[CMD_FROM], Nbrs())
      ensures r <==> msg[CMD_FROM] == CONTROLLER_ID || msg[CMD_TO] == CMD_BROADCAST ||
                     (msg[CMD_TO] != BOIDGPU_ID &&
                      (msg[CMD_TO] == CONTROLLER_ID || (msg[CMD_FROM] >= FIRST_BOIDCPU_ID && msg[CMD_FROM] in Nbrs())))
    {
      r := false;
      if msg[CMD_FROM] == CONTROLLER_ID {
        r := true;
      } else if msg[CMD_TO] == CMD_BROADCAST {
        r := true;
      } else if msg[CMD_TO] == BOIDGPU_ID {
        r := false;
      } else if msg[CMD_TO] == CONTROLLER_ID {
        r := true;
      } else if msg[CMD_FROM] >= FIRST_BOIDCPU_ID {
        for i := 0 to residentNbrCounter
          invariant r <==> msg[CMD_FROM] in residentBoidCPUNeighbours[..i]
        {
          if msg[CMD_FROM] == residentBoidCPUNeighbours[i] {
            r := true;
          }
          assert residentBoidCPUNeighbours[..i + 1] == residentBoidCPUNeighbours[..i] + [residentBoidCPUNeighbours[i]];
        }
      }
    }

    /** sendExternalMessage: the frame is built in the output buffer and handed on. */
    method SendExternalMessage(len: nat, to: int, from: int, kind: int, data: seq<int>)
      requires Valid() && len <= MAX_CMD_BODY_LEN && len <= |data|
      modifies this, externalOutput
      ensures Valid() && Tables() == old(Tables()) && Counts() == old(Counts())
      ensures externalSent == old(externalSent) + [Frame(Command(len, to, from, kind, data))]
      ensures internalSent == old(internalSent)
    {
      var words := [len + CMD_HEADER_LEN, to, from, kind] + data[..len];
      var size := BuildFrame(words, externalOutput);
      externalSent := externalSent + [externalOutput[..size]];
    }

    /** sendInternalMessage: the command goes down each chosen channel. */
    method SendInternalMessage(len: nat, to: int, from: int, kind: int, data: seq<int>)
      requires Valid() && len <= MAX_CMD_BODY_LEN && len <= |data|
      modifies this
      ensures Valid() && Tables() == old(Tables()) && Counts() == old(Counts())
      ensures internalSent == old(internalSent) +
        Deliver(Channels(to, from, kind, boidCPUsSetup, channelSetupCounter, Ids()), Command(len, to, from, kind, data))
      ensures externalSent == old(externalSent)
    {
      var channel;
      if !boidCPUsSetup && kind == CMD_SIM_SETUP {
        channel := channelSetupCounter;
      } else {
        channel := InternalChannelLookUp(to);
      }
      var command := Command(len, to, from, kind, data);
      var sent := ChannelDeliveries(to, from, kind, boidCPUsSetup, channelSetupCounter, channelIDList[..], channel, command);
      internalSent := internalSent + sent;
    }

    /** sendMessage: the routing decision, then the frame, the channel deliveries, or both. */
    method SendMessage(len: nat, to: int, from: int, kind: int, data: seq<int>)
      requires Valid() && len <= MAX_CMD_BODY_LEN && len <= |data|
      modifies this, externalOutput
      ensures Valid() && Tables() == old(Tables()) && Counts() == old(Counts())
      ensures Relayed(old(internalSent), old(externalSent), internalSent, externalSent, Command(len, to, from, kind, data),
                      boidCPUsSetup, forwardingInterceptedSetup, channelSetupCounter, Ids())
    {
      var r;
      if !boidCPUsSetup && kind == CMD_SIM_SETUP {
        if to == GATEKEEPER_ID || forwardingInterceptedSetup {
          r := Internal;
        } else {
          r := External;
        }
      } else if kind == CMD_PING {
        r := External;
      } else {
        r := RecipientLookUp(to, from);
      }
      if r == External {
        SendExternalMessage(len, to, from, kind, data);
        AppendNone(internalSent);
      } else if r == Internal {
        SendInternalMessage(len, to, from, kind, data);
        AppendNone(externalSent);
      } else {
        SendExternalMessage(len, to, from, kind, data);
        SendInternalMessage(len, to, from, kind, data);
      }
    }

    /** simulateBoidGPUACK: the next time step, and an ACK to the BoidMaster in the BoidGPU's name. */
    method SimulateBoidGpuAck()
      requires Valid()
      modifies this
      ensures Valid() && Tables() == old(Tables()) && externalSent == old(externalSent)
      ensures timeStep == old(timeStep) + 1 && internalSent == old(internalSent) + [Delivery(BOIDMASTER_CHANNEL, GpuAck())]
      ensures ackCount == old(ackCount) && drawnBoidsCount == old(drawnBoidsCount) && boidCount == old(boidCount)
      ensures discoveredBoidCPUCount == old(discoveredBoidCPUCount) && forwardingInterceptedSetup == old(forwardingInterceptedSetup)
    {
      timeStep := timeStep + 1;
      SendInternalMessage(0, CONTROLLER_ID, BOIDGPU_ID, CMD_ACK, []);
    }

    /**
     * monitorDrawnBoids: a draw command adds its boids to the running count,
     * kept as the 32-bit value it is compared in; only a count equal to the
     * boid count exactly resets it and sends the BoidGPU's ACK.
     */
    method MonitorDrawnBoids(data: seq<int>)
      requires Valid() && |data| >= CMD_HEADER_LEN
      modifies this
      ensures Valid() && Tables() == old(Tables()) && externalSent == old(externalSent)
      ensures ackCount == old(ackCount) && boidCount == old(boidCount)
      ensures discoveredBoidCPUCount == old(discoveredBoidCPUCount) && forwardingInterceptedSetup == old(forwardingInterceptedSetup)
      ensures data[CMD_TYPE] != CMD_DRAW_INFO ==>
        drawnBoidsCount == old(drawnBoidsCount) && timeStep == old(timeStep) && internalSent == old(internalSent)
      ensures data[CMD_TYPE] == CMD_DRAW_INFO ==>
        var total := U32(old(drawnBoidsCount) + DrawnIncrement(data[CMD_LEN]));
        if total == boidCount then
          drawnBoidsCount == 0 && timeStep == old(timeStep) + 1 &&
          internalSent == old(internalSent) + [Delivery(BOIDMASTER_CHANNEL, GpuAck())]
        else
          drawnBoidsCount == total && timeStep == old(timeStep) && internalSent == old(internalSent)
      ensures drawnBoidsCount == (if AllDrawn(data, old(drawnBoidsCount), boidCount) then 0 else DrawnTotal(data, old(drawnBoidsCount)))
      ensures timeStep == old(timeStep) + |MonitorSent(data, old(drawnBoidsCount), boidCount)|
      ensures internalSent == old(internalSent) + MonitorSent(data, old(drawnBoidsCount), boidCount)
    {
      if data[CMD_TYPE] == CMD_DRAW_INFO {
        drawnBoidsCount := U32(drawnBoidsCount + DrawnIncrement(data[CMD_LEN]));
        if drawnBoidsCount == boidCount {
          drawnBoidsCount := 0;
          SimulateBoidGpuAck();
        }
      }
    }

    /** respondToPing: a ping reply to the BoidMaster on behalf of both resident BoidCPUs. */
    method RespondToPing()
      requires Valid()
      modifies this, externalOutput
      ensures Valid() && Tables() == old(Tables()) && externalSent == old(externalSent)
      ensures internalSent == old(internalSent) +
        [Delivery(BOIDMASTER_CHANNEL, PingReply())]
      ensures discoveredBoidCPUCount == U8(old(discoveredBoidCPUCount) + RESIDENT_BOIDCPU_COUNT)
      ensures ackCount == old(ackCount) && drawnBoidsCount == old(drawnBoidsCount) && timeStep == old(timeStep)
      ensures boidCount == old(boidCount) && forwardingInterceptedSetup == old(forwardingInterceptedSetup)
    {
      SendMessage(1, CONTROLLER_ID, GATEKEEPER_ID, CMD_PING_REPLY, [RESIDENT_BOIDCPU_COUNT]);
      AppendNone(externalSent);
      discoveredBoidCPUCount := U8(discoveredBoidCPUCount + RESIDENT_BOIDCPU_COUNT);
    }

    /**
     * The state interceptSetupInfo leaves, given the state before it: the new
     * id recorded for the channel being set up, the neighbour ids merged, the
     * command broadcast down that channel, and the next channel taken.
     */
    ghost predicate SetupTaken(ids0: seq<int>, nbrs0: seq<int>, ch0: int, int0: seq<Delivery>, ext0: seq<seq<int>>,
                               data: seq<int>)
      reads this, channelIDList, residentBoidCPUNeighbours
      requires SetupCommand(data)
    {
      0 <= ch0 < |ids0| && 0 <= residentNbrCounter <= residentBoidCPUNeighbours.Length &&
      Ids() == ids0[ch0 := U8(data[CMD_HEADER_LEN + CMD_SETUP_NEWID_IDX])] &&
      Nbrs() == Merged(nbrs0, NeighboursOf(data)) &&
      channelSetupCounter == ch0 + 1 &&
      (boidCPUsSetup <==> channelSetupCounter == RESIDENT_BOIDCPU_COUNT + 1) &&
      internalSent == int0 + [Delivery(ch0, data[CMD_TO := CMD_BROADCAST])] && externalSent == ext0
    }

    /**
     * interceptSetupInfo: the BoidCPU's new id is recorded for the channel
     * being set up, its neighbour ids are merged into the list, the command is
     * passed down that channel as a broadcast, and the next channel is taken.
     */
    method InterceptSetupInfo(setup: seq<int>)
      requires Ready() && !boidCPUsSetup && forwardingInterceptedSetup && SetupCommand(setup)
      modifies this, channelIDList, residentBoidCPUNeighbours, externalOutput
      ensures Ready() && forwardingInterceptedSetup
      ensures Ids() == old(Ids())[old(channelSetupCounter) := U8(setup[CMD_HEADER_LEN + CMD_SETUP_NEWID_IDX])]
      ensures Nbrs() == Merged(old(Nbrs()), NeighboursOf(setup))
      ensures channelSetupCounter == old(channelSetupCounter) + 1
      ensures boidCPUsSetup <==> channelSetupCounter == RESIDENT_BOIDCPU_COUNT + 1
      ensures internalSent == old(internalSent) + [Delivery(old(channelSetupCounter), setup[CMD_TO := CMD_BROADCAST])]
      ensures externalSent == old(externalSent)
      ensures Counts() == old(Counts())
    {
      channelIDList[channelSetupCounter] := U8(setup[CMD_HEADER_LEN + CMD_SETUP_NEWID_IDX]);
      ghost var list0 := Nbrs();
      var nbrs := NeighboursOf(setup);
      var count := MergeNeighbours(residentBoidCPUNeighbours, residentNbrCounter, setup);
      MergedNoDups(list0, nbrs);
      residentNbrCounter := count;
      Readdressed(setup, CMD_BROADCAST);
      SendMessage(|setup| - CMD_HEADER_LEN, CMD_BROADCAST, setup[CMD_FROM], setup[CMD_TYPE], setup[CMD_HEADER_LEN..]);
      AppendNone(externalSent);
      channelSetupCounter := channelSetupCounter + 1;
      if channelSetupCounter == RESIDENT_BOIDCPU_COUNT + 1 {
        boidCPUsSetup := true;
      }
    }

    /**
     * interceptMessage, used until setup is complete: a ping is answered on
     * the BoidCPUs' behalf, a setup command for this Gatekeeper is taken in
     * (and not forwarded afterwards), a ping reply is counted and passed on.
     */
    method InterceptMessage(data: seq<int>) returns (forward: bool)
      requires Ready() && !boidCPUsSetup && !forwardingInterceptedSetup && Readable(data)
      modifies this, channelIDList, residentBoidCPUNeighbours, externalOutput
      ensures Ready() && !forwardingInterceptedSetup
      ensures forward <==> !(data[CMD_TO] == GATEKEEPER_ID && data[CMD_TYPE] == CMD_SIM_SETUP)
      ensures ackCount == old(ackCount) && drawnBoidsCount == old(drawnBoidsCount)
      ensures timeStep == old(timeStep) && boidCount == old(boidCount)
      ensures data[CMD_TYPE] == CMD_PING ==>
        Tables() == old(Tables()) && externalSent == old(externalSent) &&
        internalSent == old(internalSent) +
          [Delivery(BOIDMASTER_CHANNEL, PingReply())] &&
        discoveredBoidCPUCount == U8(old(discoveredBoidCPUCount) + RESIDENT_BOIDCPU_COUNT)
      ensures data[CMD_TYPE] == CMD_SIM_SETUP && data[CMD_TO] == GATEKEEPER_ID ==>
        SetupTaken(old(Ids()), old(Nbrs()), old(channelSetupCounter), old(internalSent), old(externalSent), data) &&
        discoveredBoidCPUCount == old(discoveredBoidCPUCount)
      ensures data[CMD_TYPE] == CMD_PING_REPLY ==>
        Tables() == old(Tables()) &&
        discoveredBoidCPUCount == U8(old(discoveredBoidCPUCount) + data[CMD_HEADER_LEN]) &&
        Relayed(old(internalSent), old(externalSent), internalSent, externalSent, data, false, false, channelSetupCounter, Ids())
      ensures !Intercepted(data) ==>
        Tables() == old(Tables()) && Counts() == old(Counts()) &&
        internalSent == old(internalSent) && externalSent == old(externalSent)
    {
      forward := true;
      if data[CMD_TYPE] == CMD_PING {
        RespondToPing();
      } else if data[CMD_TO] == GATEKEEPER_ID && data[CMD_TYPE] == CMD_SIM_SETUP {
        forward := false;
        forwardingInterceptedSetup := true;
        InterceptSetupInfo(data);
        forwardingInterceptedSetup := false;
      } else if data[CMD_TYPE] == CMD_PING_REPLY {
        CountPingReply(data);
      }
    }

    /** A ping reply seen before setup: its count is added to the BoidCPUs found and it is passed on unchanged. */
    method CountPingReply(data: seq<int>)
      requires Ready() && !boidCPUsSetup && !forwardingInterceptedSetup && Readable(data) && data[CMD_TYPE] == CMD_PING_REPLY
      modifies this, externalOutput
      ensures Ready() && Tables() == old(Tables())
      ensures ackCount == old(ackCount) && drawnBoidsCount == old(drawnBoidsCount) && timeStep == old(timeStep)
      ensures boidCount == old(boidCount) && !forwardingInterceptedSetup
      ensures discoveredBoidCPUCount == U8(old(discoveredBoidCPUCount) + data[CMD_HEADER_LEN])
      ensures Relayed(old(internalSent), old(externalSent), internalSent, externalSent, data, false, false, channelSetupCounter, Ids())
    {
      discoveredBoidCPUCount := U8(discoveredBoidCPUCount + data[CMD_HEADER_LEN]);
      Readdressed(data, data[CMD_TO]);
      assert data[CMD_TO := data[CMD_TO]] == data;
      SendMessage(|data| - CMD_HEADER_LEN, data[CMD_TO], data[CMD_FROM], data[CMD_TYPE], data[CMD_HEADER_LEN..]);
    }

    /**
     * processReceivedInternalMessage: a command from one of this board's
     * cores. The drawn boids are counted first. ACKs are counted and never
     * passed on singly: one collective ACK goes to the BoidMaster once both
     * resident BoidCPUs have sent theirs. Until setup is complete any other
     * command first goes through interception. Commands for the BoidGPU then
     * stop here; the rest, including intercepted pings and ping replies, are
     * forwarded.
     */
    method ProcessReceivedInternalMessage(input: seq<int>)
      requires Ready() && !forwardingInterceptedSetup && Readable(input)
      modifies this, channelIDList, residentBoidCPUNeighbours, externalOutput
      ensures Ready() && !forwardingInterceptedSetup && boidCount == old(boidCount)
      ensures drawnBoidsCount ==
        (if AllDrawn(input, old(drawnBoidsCount), boidCount) then 0 else DrawnTotal(input, old(drawnBoidsCount)))
      ensures timeStep == old(timeStep) + |MonitorSent(input, old(drawnBoidsCount), boidCount)|
      ensures input[CMD_TYPE] == CMD_ACK ==>
        Tables() == old(Tables()) && externalSent == old(externalSent) &&
        discoveredBoidCPUCount == old(discoveredBoidCPUCount) && ackCount == AckStep(old(ackCount)).0 &&
        internalSent == old(internalSent) + (if AckStep(old(ackCount)).1 then [Delivery(BOIDMASTER_CHANNEL, CollectiveAck())] else [])
      ensures input[CMD_TYPE] != CMD_ACK ==> ackCount == old(ackCount)
      ensures input[CMD_TYPE] != CMD_ACK && (old(boidCPUsSetup) || !Intercepted(input)) ==>
        Tables() == old(Tables()) && discoveredBoidCPUCount == old(discoveredBoidCPUCount) &&
        PassedOn(old(internalSent) + MonitorSent(input, old(drawnBoidsCount), boidCount), old(externalSent),
                 internalSent, externalSent, input, old(boidCPUsSetup), channelSetupCounter, Ids())
      ensures !old(boidCPUsSetup) && input[CMD_TYPE] == CMD_PING ==>
        Tables() == old(Tables()) && discoveredBoidCPUCount == U8(old(discoveredBoidCPUCount) + RESIDENT_BOIDCPU_COUNT) &&
        PassedOn(old(internalSent) + [Delivery(BOIDMASTER_CHANNEL, PingReply())], old(externalSent),
                 internalSent, externalSent, input, false, channelSetupCounter, Ids())
      ensures !old(boidCPUsSetup) && input[CMD_TYPE] == CMD_PING_REPLY ==>
        Tables() == old(Tables()) && discoveredBoidCPUCount == U8(old(discoveredBoidCPUCount) + input[CMD_HEADER_LEN]) &&
        PassedOn(old(internalSent) + RelayedInternal(input, false, false, channelSetupCounter, Ids()),
                 old(externalSent) + RelayedExternal(input, false, false, Ids()),
                 internalSent, externalSent, input, false, channelSetupCounter, Ids())
      ensures !old(boidCPUsSetup) && input[CMD_TYPE] == CMD_SIM_SETUP && input[CMD_TO] == GATEKEEPER_ID ==>
        SetupTaken(old(Ids()), old(Nbrs()), old(channelSetupCounter), old(internalSent), old(externalSent), input) &&
        discoveredBoidCPUCount == old(discoveredBoidCPUCount)
    {
      MonitorDrawnBoids(input);
      var forward := true;
      if !boidCPUsSetup && input[CMD_TYPE] != CMD_ACK {
        forward := InterceptMessage(input);
      }
      if input[CMD_TYPE] == CMD_ACK {
        forward := false;
        CountAck();
      } else if input[CMD_TO] == BOIDGPU_ID {
        forward := false;
      }
      if forward {
        Forward(input);
      }
    }

    /** The ACK branch of processReceivedInternalMessage: count it, and send the collective ACK on the last one. */
    method CountAck()
      requires Ready()
      modifies this, externalOutput
      ensures Ready() && Tables() == old(Tables()) && externalSent == old(externalSent)
      ensures forwardingInterceptedSetup == old(forwardingInterceptedSetup)
      ensures drawnBoidsCount == old(drawnBoidsCount) && timeStep == old(timeStep) && boidCount == old(boidCount)
      ensures discoveredBoidCPUCount == old(discoveredBoidCPUCount)
      ensures ackCount == AckStep(old(ackCount)).0
      ensures internalSent == old(internalSent) + (if AckStep(old(ackCount)).1 then [Delivery(BOIDMASTER_CHANNEL, CollectiveAck())] else [])
    {
      ackCount := U8(ackCount + 1);
      if ackCount == RESIDENT_BOIDCPU_COUNT {
        SendMessage(0, CONTROLLER_ID, GATEKEEPER_ID, CMD_ACK, []);
        AppendNone(externalSent);
        ackCount := 0;
      } else {
        AppendNone(internalSent);
      }
    }

    /** The forwarding step of processReceivedInternalMessage: the command goes on unchanged. */
    method Forward(input: seq<int>)
      requires Ready() && Readable(input)
      modifies this, externalOutput
      ensures Ready() && Tables() == old(Tables()) && Counts() == old(Counts())
      ensures Relayed(old(internalSent), old(externalSent), internalSent, externalSent, input,
                      boidCPUsSetup, forwardingInterceptedSetup, channelSetupCounter, Ids())
    {
      Readdressed(input, input[CMD_TO]);
      assert input[CMD_TO := input[CMD_TO]] == input;
      SendMessage(|input| - CMD_HEADER_LEN, input[CMD_TO], input[CMD_FROM], input[CMD_TYPE], input[CMD_HEADER_LEN..]);
    }

    /**
     * processReceivedExternalMessage, after the words are decoded: the drawn
     * boids are counted first; until setup is complete the command then only
     * goes through interception; afterwards it is forwarded exactly when
     * externalMessageRelevant says so. ACKs from other boards are not
     * counted.
     */
    method ProcessReceivedExternalMessage(input: seq<int>)
      requires Ready() && !forwardingInterceptedSetup && Readable(input)
      modifies this, channelIDList, residentBoidCPUNeighbours, externalOutput
      ensures Ready() && !forwardingInterceptedSetup && ackCount == old(ackCount) && boidCount == old(boidCount)
      ensures drawnBoidsCount ==
        (if AllDrawn(input, old(drawnBoidsCount), boidCount) then 0 else DrawnTotal(input, old(drawnBoidsCount)))
      ensures timeStep == old(timeStep) + |MonitorSent(input, old(drawnBoidsCount), boidCount)|
      ensures old(boidCPUsSetup) ==>
        Tables() == old(Tables()) && discoveredBoidCPUCount == old(discoveredBoidCPUCount) &&
        var monitored := old(internalSent) + MonitorSent(input, old(drawnBoidsCount), boidCount);
        if Relevant(input[CMD_TO], input[CMD_FROM], old(Nbrs())) then
          Relayed(monitored, old(externalSent), internalSent, externalSent, input, true, false, channelSetupCounter, Ids())
        else internalSent == monitored && externalSent == old(externalSent)
      ensures !old(boidCPUsSetup) && !Intercepted(input) ==>
        Tables() == old(Tables()) && discoveredBoidCPUCount == old(discoveredBoidCPUCount) &&
        internalSent == old(internalSent) + MonitorSent(input, old(drawnBoidsCount), boidCount) &&
        externalSent == old(externalSent)
      ensures !old(boidCPUsSetup) && input[CMD_TYPE] == CMD_PING ==>
        Tables() == old(Tables()) && discoveredBoidCPUCount == U8(old(discoveredBoidCPUCount) + RESIDENT_BOIDCPU_COUNT) &&
        internalSent == old(internalSent) + [Delivery(BOIDMASTER_CHANNEL, PingReply())] && externalSent == old(externalSent)
      ensures !old(boidCPUsSetup) && input[CMD_TYPE] == CMD_PING_REPLY ==>
        Tables() == old(Tables()) && discoveredBoidCPUCount == U8(old(discoveredBoidCPUCount) + input[CMD_HEADER_LEN]) &&
        Relayed(old(internalSent), old(externalSent), internalSent, externalSent, input, false, false, channelSetupCounter, Ids())
      ensures !old(boidCPUsSetup) && input[CMD_TYPE] == CMD_SIM_SETUP && input[CMD_TO] == GATEKEEPER_ID ==>
        SetupTaken(old(Ids()), old(Nbrs()), old(channelSetupCounter), old(internalSent), old(externalSent), input) &&
        discoveredBoidCPUCount == old(discoveredBoidCPUCount)
    {
      MonitorDrawnBoids(input);
      if !boidCPUsSetup {
        var _ := InterceptMessage(input);
      } else {
        ForwardIfRelevant(input);
      }
    }

    /** The set-up branch of processReceivedExternalMessage: forward exactly the relevant commands. */
    method ForwardIfRelevant(input: seq<int>)
      requires Ready() && boidCPUsSetup && !forwardingInterceptedSetup && Readable(input)
      modifies this, externalOutput
      ensures Ready() && Tables() == old(Tables()) && Counts() == old(Counts())
      ensures if Relevant(input[CMD_TO], input[CMD_FROM], Nbrs()) then
          Relayed(old(internalSent), old(externalSent), internalSent, externalSent, input, true, false, channelSetupCounter, Ids())
        else internalSent == old(internalSent) && externalSent == old(externalSent)
    {
      var relevant := ExternalMessageRelevant(input);
      if relevant {
        Readdressed(input, input[CMD_TO]);
        assert input[CMD_TO := input[CMD_TO]] == input;
        SendMessage(|input| - CMD_HEADER_LEN, input[CMD_TO], input[CMD_FROM], input[CMD_TYPE], input[CMD_HEADER_LEN..]);
      }
    }
  }
}
