// The prototype Gatekeeper of a board: it filters Ethernet commands before
// handing them to its two resident BoidCPUs over stream channels 0 and 1, and
// forwards what those BoidCPUs send to the controller or the BoidGPU. It
// learns the ids and neighbours of its residents by intercepting their setup
// commands.
//
// Commands arrive as the bytes of the Ethernet receive buffer, indexed by
// command word as the program indexes them. When a command is forwarded, the
// program passes the whole command length where the body length is expected.
// The forwarded command is therefore four words longer than the one received,
// and its last four words are read from beyond the copied body. Those four
// words are the parameter `beyond` of every forwarding operation.
module ProtoGatekeeper {
  import opened Common
  import opened Wire
  import Fpga = Gatekeeper

  const RESIDENT_BOIDCPU_COUNT := 2
  const ALL_CHANNELS := 99
  const MAX_BOIDCPU_NEIGHBOURS := 8
  const MAX_CMD_LEN := CMD_HEADER_LEN + MAX_CMD_BODY_LEN
  const CMD_SETUP_NEWID_IDX := 0
  const CMD_SETUP_BNBRS_IDX := 7
  /** The largest Ethernet frame the EmacLite driver receives: header, 1500-byte payload and checksum. */
  const XEL_MAX_FRAME_SIZE := 1518

  /** The Ethernet commands are sent as bytes: each word is stored into a u8. */
  function Truncated(cmd: seq<int>): (b: seq<int>)
    ensures |b| == |cmd| && forall i :: 0 <= i < |b| ==> IsU8(b[i]) && b[i] == U8(cmd[i])
  {
    seq(|cmd|, i requires 0 <= i < |cmd| => U8(cmd[i]))
  }

  /** The channels sendInternalMessage writes to: channel 0, channel 1, or, for any other channel number, both. */
  function ChannelsFor(channel: int): (chs: seq<int>)
    ensures channel == 0 || channel == 1 ==> chs == [channel]
    ensures channel != 0 && channel != 1 ==> chs == [0, 1]
  {
    if channel == 0 then [0] else if channel == 1 then [1] else [0, 1]
  }

  /**
   * The command a forward produces from a received one of length len: the
   * length word counts four more words than were received, and the body is
   * the received body followed by the four words read past it.
   */
  function Forwarded(len: int, to: int, from: int, kind: int, body: seq<int>, beyond: seq<int>): (cmd: seq<int>)
    requires |body| == len - CMD_HEADER_LEN && |beyond| == CMD_HEADER_LEN && len >= CMD_HEADER_LEN
    ensures |cmd| == len + CMD_HEADER_LEN && cmd[CMD_LEN] == len + CMD_HEADER_LEN
    ensures cmd[CMD_TO] == to && cmd[CMD_FROM] == from && cmd[CMD_TYPE] == kind
    ensures cmd[CMD_HEADER_LEN..len] == body && cmd[len..] == beyond
  {
    var c := Command(len, to, from, kind, body + beyond);
    assert (body + beyond)[..len] == body + beyond;
    c
  }

  /** departureCheckPassed: only commands for the controller or the BoidGPU leave the board. */
  predicate DepartureCheckPassed(to: int)
  {
    to == CONTROLLER_ID || to == BOIDGPU_ID
  }

  /** The filter arrivalCheckPassed applies, given the resident neighbour list. */
  predicate Arrives(from: int, nbrs: seq<int>)
  {
    from == CONTROLLER_ID || (from >= FIRST_BOIDCPU_ID && from in nbrs)
  }

  /** The channel channelLookup picks: the first resident whose id matches, or all channels. */
  function ChannelOf(to: int, channels: seq<int>): (ch: int)
    requires |channels| == RESIDENT_BOIDCPU_COUNT
    ensures ch == ALL_CHANNELS <==> to !in channels
    ensures ch != ALL_CHANNELS ==> 0 <= ch < RESIDENT_BOIDCPU_COUNT && channels[ch] == to && to !in channels[..ch]
  {
    if channels[0] == to then 0
    else if channels[1] == to then 1
    else ALL_CHANNELS
  }

  /** A known resident is reached on its own channel alone; an unknown id goes down both. */
  lemma {:induction false} LookupDelivers(to: int, channels: seq<int>)
    requires |channels| == RESIDENT_BOIDCPU_COUNT
    ensures to in channels ==> |ChannelsFor(ChannelOf(to, channels))| == 1 && channels[ChannelsFor(ChannelOf(to, channels))[0]] == to
    ensures to !in channels ==> ChannelsFor(ChannelOf(to, channels)) == [0, 1]
  {
    var ch := ChannelOf(to, channels);
    if to in channels {
      assert ch == 0 || ch == 1;
    }
  }

  /**
   * The setup test as written: `recv_buffer[CMD_TO] = gatekeeperID` assigns,
   * so the test reads the low byte of the id, and the recipient is ignored.
   */
  predicate SetupTestAsWritten(gatekeeperID: int, kind: int)
  {
    U8(gatekeeperID) != 0 && kind == CMD_SIM_SETUP
  }

  /** The setup test as intended: a setup command addressed to the Gatekeeper. */
  predicate SetupTest(to: int, gatekeeperID: int, kind: int)
  {
    to == gatekeeperID && kind == CMD_SIM_SETUP
  }

  /**
   * With the Gatekeeper's id 0, the written test rejects every command while
   * the intended one accepts the setup command [19, 0, 1, 5, ...] addressed
   * to it.
   */
  lemma SetupTestNeverPasses(kind: int)
    ensures !SetupTestAsWritten(0, kind)
    ensures SetupTest(0, 0, CMD_SIM_SETUP)
  {
  }

  /** The globals of the prototype Gatekeeper, with what it has sent so far. */
  class Gatekeeper {
    var initialisedBoidCPUCounter: int
    var residentNbrCounter: int
    var boidCPUIDsFinalised: bool
    var ackCount: int
    /** Commands written to the stream channels, in order. */
    var internalSent: seq<Fpga.Delivery>
    /** Commands sent over Ethernet, as the bytes sent. */
    var externalSent: seq<seq<int>>
    /** Never reassigned: drawing a random id is switched off in the program. */
    const gatekeeperID: int
    const residentBoidCPUChannels: array<int>
    const residentBoidCPUNeighbours: array<int>
    const recvBuffer: array<int>

    ghost predicate Valid()
      reads this, residentBoidCPUNeighbours
    {
      residentBoidCPUChannels.Length == RESIDENT_BOIDCPU_COUNT &&
      residentBoidCPUNeighbours.Length == MAX_BOIDCPU_NEIGHBOURS * RESIDENT_BOIDCPU_COUNT &&
      recvBuffer.Length == XEL_MAX_FRAME_SIZE &&
      residentBoidCPUChannels != residentBoidCPUNeighbours && residentBoidCPUChannels != recvBuffer &&
      residentBoidCPUNeighbours != recvBuffer &&
      IsU32(gatekeeperID) &&
      0 <= initialisedBoidCPUCounter <= RESIDENT_BOIDCPU_COUNT &&
      (boidCPUIDsFinalised <==> initialisedBoidCPUCounter == RESIDENT_BOIDCPU_COUNT) &&
      0 <= residentNbrCounter <= MAX_BOIDCPU_NEIGHBOURS * initialisedBoidCPUCounter &&
      Fpga.NoDups(residentBoidCPUNeighbours[..residentNbrCounter]) &&
      0 <= ackCount < RESIDENT_BOIDCPU_COUNT
    }

    /** The resident neighbour ids listed so far. */
    ghost function Nbrs(): seq<int>
      reads this, residentBoidCPUNeighbours
      requires 0 <= residentNbrCounter <= residentBoidCPUNeighbours.Length
    {
      residentBoidCPUNeighbours[..residentNbrCounter]
    }

    /** The counters the routing operations leave alone. */
    ghost function Counts(): (int, int, bool, int)
      reads this
    {
      (initialisedBoidCPUCounter, residentNbrCounter, boidCPUIDsFinalised, ackCount)
    }

    /** The received command's header and body, as read from the receive buffer. */
    predicate Received()
      reads this, recvBuffer
    {
      recvBuffer.Length == XEL_MAX_FRAME_SIZE &&
      CMD_HEADER_LEN <= recvBuffer[CMD_LEN] <= MAX_CMD_LEN - CMD_HEADER_LEN
    }

    constructor ()
      ensures Valid() && fresh(residentBoidCPUChannels) && fresh(residentBoidCPUNeighbours) && fresh(recvBuffer)
      ensures gatekeeperID == 0 && Counts() == (0, 0, false, 0)
      ensures internalSent == [] && externalSent == []
    {
      initialisedBoidCPUCounter, residentNbrCounter := 0, 0;
      boidCPUIDsFinalised := false;
      ackCount := 0;
      internalSent, externalSent := [], [];
      gatekeeperID := 0;
      residentBoidCPUChannels := new int[RESIDENT_BOIDCPU_COUNT](_ => 0);
      residentBoidCPUNeighbours := new int[MAX_BOIDCPU_NEIGHBOURS * RESIDENT_BOIDCPU_COUNT](_ => 0);
      recvBuffer := new int[XEL_MAX_FRAME_SIZE](_ => 0);
    }

    /** arrivalCheckPassed: the controller, or a BoidCPU listed as a resident's neighbour. */
    method ArrivalCheckPassed(from: int) returns (passed: bool)
      requires Valid()
      ensures passed <==> Arrives(from, Nbrs())
    {
      if from == CONTROLLER_ID {
        return true;
      } else if from >= FIRST_BOIDCPU_ID {
        for i := 0 to residentNbrCounter
          invariant from !in residentBoidCPUNeighbours[..i]
        {
          if from == residentBoidCPUNeighbours[i] {
            return true;
          }
          assert residentBoidCPUNeighbours[..i + 1] == residentBoidCPUNeighbours[..i] + [residentBoidCPUNeighbours[i]];
        }
      }
      return false;
    }

    /** channelLookup: the first resident channel whose id is to, or all channels. */
    method ChannelLookup(to: int) returns (ch: int)
      requires Valid()
      ensures ch == ChannelOf(to, residentBoidCPUChannels[..])
    {
      for i := 0 to RESIDENT_BOIDCPU_COUNT
        invariant to !in residentBoidCPUChannels[..i]
      {
        if residentBoidCPUChannels[i] == to {
          return i;
        }
        assert residentBoidCPUChannels[..i + 1] == residentBoidCPUChannels[..i] + [residentBoidCPUChannels[i]];
      }
      assert residentBoidCPUChannels[..RESIDENT_BOIDCPU_COUNT] == residentBoidCPUChannels[..];
      return ALL_CHANNELS;
    }

    /** sendExternalMessage: the command, truncated byte by byte, goes out over Ethernet. */
    method SendExternalMessage(cmd: seq<int>)
      modifies this
      ensures externalSent == old(externalSent) + [Truncated(cmd)]
      ensures internalSent == old(internalSent) && Counts() == old(Counts())
    {
      externalSent := externalSent + [Truncated(cmd)];
    }

    /** sendInternalMessage: the command goes down channel 0, channel 1, or both. */
    method SendInternalMessage(cmd: seq<int>, channel: int)
      modifies this
      ensures internalSent == old(internalSent) + Fpga.Deliver(ChannelsFor(channel), cmd)
      ensures externalSent == old(externalSent) && Counts() == old(Counts())
    {
      if channel == 0 {
        internalSent := internalSent + [Fpga.Delivery(0, cmd)];
      } else if channel == 1 {
        internalSent := internalSent + [Fpga.Delivery(1, cmd)];
      } else {
        internalSent := internalSent + [Fpga.Delivery(0, cmd), Fpga.Delivery(1, cmd)];
      }
    }

    /** The reply to a ping while the residents are unknown: the Gatekeeper's id and its resident count. */
    method ReplyToPing()
      modifies this
      ensures externalSent == old(externalSent) +
        [Truncated(Command(1, CONTROLLER_ID, gatekeeperID, CMD_PING_REPLY, [RESIDENT_BOIDCPU_COUNT]))]
      ensures internalSent == old(internalSent) && Counts() == old(Counts())
    {
      SendExternalMessage(Command(1, CONTROLLER_ID, gatekeeperID, CMD_PING_REPLY, [RESIDENT_BOIDCPU_COUNT]));
    }

    /**
     * The setup branch of processExternalMessage: the setup command goes, as
     * a broadcast, down the channel of the next resident to be set up; that
     * resident's new id is recorded; its neighbours are added to the list
     * unless already listed; and the ids are final once both residents are
     * set up.
     */
    method InterceptSetup(beyond: seq<int>)
      requires Valid() && Received() && !boidCPUIDsFinalised && |beyond| == CMD_HEADER_LEN
      modifies this, residentBoidCPUChannels, residentBoidCPUNeighbours
      ensures Valid()
      ensures residentBoidCPUChannels[..] ==
        old(residentBoidCPUChannels[..])[old(initialisedBoidCPUCounter) := recvBuffer[CMD_HEADER_LEN + CMD_SETUP_NEWID_IDX]]
      ensures Nbrs() == Fpga.Merged(old(Nbrs()), Fpga.NeighboursOf(recvBuffer[..]))
      ensures initialisedBoidCPUCounter == old(initialisedBoidCPUCounter) + 1
      ensures boidCPUIDsFinalised <==> initialisedBoidCPUCounter == RESIDENT_BOIDCPU_COUNT
      ensures internalSent == old(internalSent) + [Fpga.Delivery(old(initialisedBoidCPUCounter),
        Forwarded(recvBuffer[CMD_LEN], CMD_BROADCAST, recvBuffer[CMD_FROM], recvBuffer[CMD_TYPE],
          recvBuffer[CMD_HEADER_LEN..recvBuffer[CMD_LEN]], beyond))]
      ensures externalSent == old(externalSent) && ackCount == old(ackCount)
    {
      var len := recvBuffer[CMD_LEN];
      var dataToForward := recvBuffer[CMD_HEADER_LEN..len];
      var cmd := Forwarded(len, CMD_BROADCAST, recvBuffer[CMD_FROM], recvBuffer[CMD_TYPE], dataToForward, beyond);
      SendInternalMessage(cmd, initialisedBoidCPUCounter);

      residentBoidCPUChannels[initialisedBoidCPUCounter] := recvBuffer[CMD_HEADER_LEN + CMD_SETUP_NEWID_IDX];

      ghost var before := residentBoidCPUNeighbours[..residentNbrCounter];
      Fpga.MergedNoDups(before, Fpga.NeighboursOf(recvBuffer[..]));
      residentNbrCounter := Fpga.MergeNeighbours(residentBoidCPUNeighbours, residentNbrCounter, recvBuffer[..]);

      initialisedBoidCPUCounter := initialisedBoidCPUCounter + 1;
      if initialisedBoidCPUCounter == RESIDENT_BOIDCPU_COUNT {
        boidCPUIDsFinalised := true;
      }
    }

    /**
     * The forwarding branch of processExternalMessage, once the residents
     * are known: a command from the controller or from a resident's
     * neighbour goes down the channel of its recipient, or down both; any
     * other command is dropped.
     */
    method ForwardArrival(beyond: seq<int>)
      requires Valid() && Received() && |beyond| == CMD_HEADER_LEN
      modifies this
      ensures Valid() && Counts() == old(Counts()) && externalSent == old(externalSent)
      ensures Arrives(recvBuffer[CMD_FROM], Nbrs()) ==>
        internalSent == old(internalSent) + Fpga.Deliver(ChannelsFor(ChannelOf(recvBuffer[CMD_TO], residentBoidCPUChannels[..])),
          Forwarded(recvBuffer[CMD_LEN], recvBuffer[CMD_TO], recvBuffer[CMD_FROM], recvBuffer[CMD_TYPE],
            recvBuffer[CMD_HEADER_LEN..recvBuffer[CMD_LEN]], beyond))
      ensures !Arrives(recvBuffer[CMD_FROM], Nbrs()) ==> internalSent == old(internalSent)
    {
      var passed := ArrivalCheckPassed(recvBuffer[CMD_FROM]);
      if passed {
        var len := recvBuffer[CMD_LEN];
        var dataToForward := recvBuffer[CMD_HEADER_LEN..len];
        var channel := ChannelLookup(recvBuffer[CMD_TO]);
        var cmd := Forwarded(len, recvBuffer[CMD_TO], recvBuffer[CMD_FROM], recvBuffer[CMD_TYPE], dataToForward, beyond);
        SendInternalMessage(cmd, channel);
      }
    }

    /**
     * processExternalMessage as written. Before the residents are known, a
     * ping is answered; any other command has its recipient byte overwritten
     * with the low byte of the Gatekeeper's id, and the setup branch is
     * taken only when that byte is nonzero. The Gatekeeper's id is 0, so a
     * setup command is dropped, the tables never fill and the ids are never
     * final: nothing from outside is ever forwarded.
     */
    method ProcessExternalMessageAsWritten(beyond: seq<int>)
      requires Valid() && Received() && |beyond| == CMD_HEADER_LEN
      modifies this, recvBuffer, residentBoidCPUChannels, residentBoidCPUNeighbours
      ensures Valid()
      ensures !old(boidCPUIDsFinalised) && old(recvBuffer[CMD_TYPE]) != CMD_PING ==>
        recvBuffer[..] == old(recvBuffer[..])[CMD_TO := U8(gatekeeperID)]
      ensures (!old(boidCPUIDsFinalised) && old(recvBuffer[CMD_TYPE]) != CMD_PING &&
               !SetupTestAsWritten(gatekeeperID, old(recvBuffer[CMD_TYPE]))) ==>
        Counts() == old(Counts()) && internalSent == old(internalSent) && externalSent == old(externalSent) &&
        residentBoidCPUChannels[..] == old(residentBoidCPUChannels[..])
      ensures gatekeeperID == 0 && !old(boidCPUIDsFinalised) ==> !boidCPUIDsFinalised && internalSent == old(internalSent)
    {
      if !boidCPUIDsFinalised {
        if recvBuffer[CMD_TYPE] == CMD_PING {
          ReplyToPing();
        } else {
          recvBuffer[CMD_TO] := U8(gatekeeperID);
          if recvBuffer[CMD_TO] != 0 && recvBuffer[CMD_TYPE] == CMD_SIM_SETUP {
            InterceptSetup(beyond);
          }
        }
      } else {
        ForwardArrival(beyond);
      }
    }

    /**
     * processExternalMessage with the setup test comparing the recipient
     * with the Gatekeeper's id. Before the residents are known, a ping is
     * answered with the resident count, a setup command addressed to the
     * Gatekeeper is intercepted and anything else is dropped; afterwards
     * commands are filtered and forwarded.
     */
    method ProcessExternalMessage(beyond: seq<int>)
      requires Valid() && Received() && |beyond| == CMD_HEADER_LEN
      modifies this, residentBoidCPUChannels, residentBoidCPUNeighbours
      ensures Valid()
      ensures !old(boidCPUIDsFinalised) && recvBuffer[CMD_TYPE] == CMD_PING ==>
        externalSent == old(externalSent) +
          [Truncated(Command(1, CONTROLLER_ID, gatekeeperID, CMD_PING_REPLY, [RESIDENT_BOIDCPU_COUNT]))] &&
        internalSent == old(internalSent) && Counts() == old(Counts())
      ensures (!old(boidCPUIDsFinalised) && recvBuffer[CMD_TYPE] != CMD_PING &&
               SetupTest(recvBuffer[CMD_TO], gatekeeperID, recvBuffer[CMD_TYPE])) ==>
        residentBoidCPUChannels[..] ==
          old(residentBoidCPUChannels[..])[old(initialisedBoidCPUCounter) := recvBuffer[CMD_HEADER_LEN + CMD_SETUP_NEWID_IDX]] &&
        Nbrs() == Fpga.Merged(old(Nbrs()), Fpga.NeighboursOf(recvBuffer[..])) &&
        initialisedBoidCPUCounter == old(initialisedBoidCPUCounter) + 1 &&
        (boidCPUIDsFinalised <==> initialisedBoidCPUCounter == RESIDENT_BOIDCPU_COUNT) &&
        internalSent == old(internalSent) + [Fpga.Delivery(old(initialisedBoidCPUCounter),
          Forwarded(recvBuffer[CMD_LEN], CMD_BROADCAST, recvBuffer[CMD_FROM], recvBuffer[CMD_TYPE],
            recvBuffer[CMD_HEADER_LEN..recvBuffer[CMD_LEN]], beyond))] &&
        externalSent == old(externalSent) && ackCount == old(ackCount)
      ensures (!old(boidCPUIDsFinalised) && recvBuffer[CMD_TYPE] != CMD_PING &&
               !SetupTest(recvBuffer[CMD_TO], gatekeeperID, recvBuffer[CMD_TYPE])) ==>
        Counts() == old(Counts()) && internalSent == old(internalSent) && externalSent == old(externalSent)
      ensures old(boidCPUIDsFinalised) ==>
        boidCPUIDsFinalised && Counts() == old(Counts()) && externalSent == old(externalSent) &&
        residentBoidCPUChannels[..] == old(residentBoidCPUChannels[..])
      ensures old(boidCPUIDsFinalised) && Arrives(recvBuffer[CMD_FROM], Nbrs()) ==>
        internalSent == old(internalSent) + Fpga.Deliver(ChannelsFor(ChannelOf(recvBuffer[CMD_TO], residentBoidCPUChannels[..])),
          Forwarded(recvBuffer[CMD_LEN], recvBuffer[CMD_TO], recvBuffer[CMD_FROM], recvBuffer[CMD_TYPE],
            recvBuffer[CMD_HEADER_LEN..recvBuffer[CMD_LEN]], beyond))
      ensures old(boidCPUIDsFinalised) && !Arrives(recvBuffer[CMD_FROM], Nbrs()) ==> internalSent == old(internalSent)
    {
      if !boidCPUIDsFinalised {
        if recvBuffer[CMD_TYPE] == CMD_PING {
          ReplyToPing();
        } else if recvBuffer[CMD_TO] == gatekeeperID && recvBuffer[CMD_TYPE] == CMD_SIM_SETUP {
          InterceptSetup(beyond);
        }
      } else {
        ForwardArrival(beyond);
      }
    }

    /**
     * processInternalMessage: ACKs are counted and one ACK goes to the
     * controller for every two; any other command is forwarded both ways
     * when it is a multicast, out over Ethernet when it is for the
     * controller or the BoidGPU, and dropped otherwise.
     */
    method ProcessInternalMessage(data: seq<int>, channel: int, beyond: seq<int>)
      requires Valid() && |data| == MAX_CMD_LEN && CMD_HEADER_LEN <= data[CMD_LEN] <= MAX_CMD_LEN - CMD_HEADER_LEN
      requires |beyond| == CMD_HEADER_LEN
      modifies this
      ensures Valid()
      ensures initialisedBoidCPUCounter == old(initialisedBoidCPUCounter) && residentNbrCounter == old(residentNbrCounter)
      ensures boidCPUIDsFinalised == old(boidCPUIDsFinalised)
      ensures data[CMD_TYPE] == CMD_ACK ==>
        (ackCount, externalSent != old(externalSent)) == Fpga.AckStep(old(ackCount)) &&
        internalSent == old(internalSent) &&
        externalSent == old(externalSent) + (if ackCount == 0
          then [Truncated(Command(0, CONTROLLER_ID, gatekeeperID, CMD_ACK, [0]))] else [])
      ensures data[CMD_TYPE] != CMD_ACK ==>
        ackCount == old(ackCount) &&
        var cmd := Forwarded(data[CMD_LEN], data[CMD_TO], data[CMD_FROM], data[CMD_TYPE],
          data[CMD_HEADER_LEN..data[CMD_LEN]], beyond);
        (data[CMD_TO] == CMD_MULTICAST ==>
          internalSent == old(internalSent) + Fpga.Deliver([0, 1], cmd) &&
          externalSent == old(externalSent) + [Truncated(cmd)]) &&
        (data[CMD_TO] != CMD_MULTICAST && DepartureCheckPassed(data[CMD_TO]) ==>
          internalSent == old(internalSent) && externalSent == old(externalSent) + [Truncated(cmd)]) &&
        (data[CMD_TO] != CMD_MULTICAST && !DepartureCheckPassed(data[CMD_TO]) ==>
          internalSent == old(internalSent) && externalSent == old(externalSent))
    {
      if data[CMD_TYPE] == CMD_ACK {
        ackCount := U8(ackCount + 1);
        if ackCount == RESIDENT_BOIDCPU_COUNT {
          SendExternalMessage(Command(0, CONTROLLER_ID, gatekeeperID, CMD_ACK, [0]));
          ackCount := 0;
        }
      } else {
        var len := data[CMD_LEN];
        var dataToForward := data[CMD_HEADER_LEN..len];
        var cmd := Forwarded(len, data[CMD_TO], data[CMD_FROM], data[CMD_TYPE], dataToForward, beyond);
        if data[CMD_TO] == CMD_MULTICAST {
          SendInternalMessage(cmd, ALL_CHANNELS);
          SendExternalMessage(cmd);
        } else if DepartureCheckPassed(data[CMD_TO]) {
          SendExternalMessage(cmd);
        }
      }
    }
  }
}
