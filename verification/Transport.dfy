/** The connection's packet layer: sending, receiving and recovering, step by step, each
    method proved equal to the function that states what it computes. */
module Transport {
  import opened Bytes
  import opened Messages
  import opened Framing
  import opened ReadBuffers
  import opened Reassembly
  import opened Recovery
  import opened Wrappers

  datatype ConnectionState =
    | Disconnected | Connected | ProtocolNegotiated | DataTypesNegotiated | Ready | Closed

  /** One packet of a split request: header, flags, chunk. */
  method BuildPacket(flags: u16, chunk: seq<byte>, large: bool) returns (packet: seq<byte>)
    ensures packet == DataPacket(flags, chunk, large)
  {
    hide BeBytes, DataPacket;
    var packetLen := HEADER_SIZE + 2 + |chunk|;
    packet := if large then BeBytes(packetLen, 4) else BeBytes(packetLen, 2) + [0, 0];
    packet := packet + [DATA, 0, 0, 0];
    packet := packet + BeBytes(flags, 2);
    packet := packet + chunk;
    AssembledPacket(flags, chunk, large);
  }

  /** The request packet of a message that fits in one packet. The length field wraps around if
      it does not. */
  method BuildSinglePacket(message: seq<byte>, large: bool) returns (packet: seq<byte>)
    ensures packet == DataPacket(END_OF_REQUEST, message, large)
  {
    hide BeBytes, DataPacket;
    var payloadLen := 2 + |message|;
    if large {
      packet := BeBytes(payloadLen + HEADER_SIZE, 4);
    } else {
      packet := BeBytes((payloadLen % 0x1_0000 + HEADER_SIZE) % 0x1_0000, 2) + [0, 0];
      BeBytesWrap(payloadLen, HEADER_SIZE);
    }
    packet := packet + [DATA, 0, 0, 0];
    packet := packet + BeBytes(END_OF_REQUEST, 2);
    packet := packet + message;
    AssembledPacket(END_OF_REQUEST, message, large);
  }

  /** Two bytes of a sum that wraps around twice are those of the sum. */
  lemma BeBytesWrap(a: nat, b: nat)
    ensures BeBytes((a % 0x1_0000 + b) % 0x1_0000, 2) == BeBytes(a + b, 2)
  {
    hide BeBytes;
    LowTwoBytes(a % 0x1_0000 + b);
    LowTwoBytes(a + b);
    WrapTwice(a, b);
  }

  lemma WrapTwice(a: nat, b: nat)
    ensures (a % 0x1_0000 + b) % 0x1_0000 == (a + b) % 0x1_0000
  {
    var q, c := a / 0x1_0000, a % 0x1_0000 + b;
    assert a + b == 0x1_0000 * (q + c / 0x1_0000) + c % 0x1_0000;
  }

  lemma LowTwoBytes(n: nat)
    ensures BeBytes(n % 0x1_0000, 2) == BeBytes(n, 2)
  {
    var q, r := n / 0x1_0000, n % 0x1_0000;
    assert n == 256 * (256 * q + r / 256) + r % 256;
    assert n / 256 == 256 * q + r / 256 && n % 256 == r % 256;
    BeBytesLowTwo(n);
    BeBytesLowTwo(r);
  }

  lemma BeBytesLowTwo(n: nat)
    ensures BeBytes(n, 2) == [n / 256 % 256, n % 256]
  {
    assert BeBytes(n / 256, 1) == BeBytes(n / 256 / 256, 0) + [n / 256 % 256];
  }

  /** The bytes of a DATA packet in the order they are pushed. */
  lemma AssembledPacket(flags: u16, body: seq<byte>, large: bool)
    ensures var n := HEADER_SIZE + 2 + |body|;
      DataPacket(flags, body, large)
        == (if large then BeBytes(n, 4) else BeBytes(n, 2) + [0, 0]) + [DATA, 0, 0, 0] + BeBytes(flags, 2) + body
  {
    hide BeBytes;
  }

  /** The room for payload bytes in a packet; below the two headers the subtraction wraps around
      in 64 bits. */
  function Room(sdu: u16): nat {
    (sdu - HEADER_SIZE - 2) % 0x1_0000_0000_0000_0000
  }

  /** Only the last packet is marked; the caller's flags go on the first of several. */
  function PacketFlags(last: bool, first: bool, initialFlags: u16): u16 {
    if last then END_OF_REQUEST else if first then initialFlags else 0
  }

  /** What is left of the connection after an operation: broken streams close it. */
  function Settled<T>(before: ConnectionState, r: Result<T, TransportError>): ConnectionState {
    if r.Failure? && r.error in {Io, ClosedDuringRecovery} then Closed else before
  }

  class Connection {
    /** Whether there is a stream at all. */
    var open: bool
    /** Bytes the server has sent or will send before it goes away, not yet read. */
    var incoming: seq<byte>
    var sent: seq<byte>
    var state: ConnectionState
    var sduSize: u16
    var largeSdu: bool

    constructor (incoming: seq<byte>, sduSize: u16, largeSdu: bool)
      ensures open && this.incoming == incoming && sent == [] && state == Connected
      ensures this.sduSize == sduSize && this.largeSdu == largeSdu
    {
      open := true;
      this.incoming := incoming;
      sent := [];
      state := Connected;
      this.sduSize := sduSize;
      this.largeSdu := largeSdu;
    }

    method Send(data: seq<byte>) returns (r: Result<(), TransportError>)
      modifies this`sent
      ensures r == if open then Success(()) else Failure(ConnectionClosed)
      ensures sent == if open then old(sent) + data else old(sent)
    {
      if !open {
        return Failure(ConnectionClosed);
      }
      sent := sent + data;
      return Success(());
    }

    /** Splits `payload` over as many packets as the SDU asks for. With an SDU that leaves room
        for no payload byte the loop would never end. */
    method SendMultiPacket(payload: seq<byte>, initialFlags: u16) returns (r: Result<(), TransportError>)
      requires open && payload != [] ==> Room(sduSize) > 0
      modifies this`sent
      ensures r == if open then Success(()) else Failure(ConnectionClosed)
      ensures sent == if open && payload != []
        then old(sent) + Flat(Fragments(payload, Room(sduSize), initialFlags, largeSdu)) else old(sent)
    {
      if !open {
        return Failure(ConnectionClosed);
      }
      hide DataPacket, Fragments, Flat, Emitted, PacketFlags;
      var max, large := Room(sduSize), largeSdu;
      if payload == [] {
        return Success(());
      }
      ghost var before := sent;
      var offset := 0;
      var first := true;
      EmittedNothing(payload, max, initialFlags, large, sent);
      while offset < |payload|
        invariant offset <= |payload|
        invariant first <==> offset == 0
        invariant Emitted(payload, offset, max, initialFlags, large, before, sent)
      {
        offset := SendNextPacket(payload, offset, first, max, initialFlags, large, before);
        first := false;
      }
      EmittedAll(payload, max, initialFlags, large, before, sent);
      return Success(());
    }

    /** One round of the loop: the packet that starts at `offset`. */
    method SendNextPacket(payload: seq<byte>, offset: nat, first: bool, max: nat, initialFlags: u16, large: bool,
                          ghost before: seq<byte>) returns (next: nat)
      requires 0 < max && offset < |payload| && (first <==> offset == 0)
      requires Emitted(payload, offset, max, initialFlags, large, before, sent)
      modifies this`sent
      ensures offset < next <= |payload|
      ensures Emitted(payload, next, max, initialFlags, large, before, sent)
    {
      hide DataPacket, Emitted, PacketFlags;
      var remaining := |payload| - offset;
      var size := Min(remaining, max);
      var last := offset + size >= |payload|;
      var packet := BuildPacket(PacketFlags(last, first, initialFlags), payload[offset..offset + size], large);
      EmittedStep(payload, offset, max, initialFlags, large, before, sent);
      sent := sent + packet;
      return offset + size;
    }

    /** One packet off the stream. */
    method Receive() returns (r: Result<seq<byte>, TransportError>)
      modifies this`incoming, this`state
      ensures !open ==> r == Failure(ConnectionClosed) && incoming == old(incoming)
      ensures open ==> match Next(old(incoming), largeSdu)
        case Packet(p, rest) => r == Success(p) && incoming == rest
        case Broken => r == Failure(Io) && incoming == []
      ensures state == Settled(old(state), r)
    {
      if !open {
        return Failure(ConnectionClosed);
      }
      if |incoming| < HEADER_SIZE {
        incoming := [];
        state := Closed;
        return Failure(Io);
      }
      var header := incoming[..HEADER_SIZE];
      var packetLen := if largeSdu then BeAt(header, 0, 4) else BeAt(header, 0, 2);
      HeaderLength(incoming, largeSdu);
      var payloadLen := if packetLen < HEADER_SIZE then 0 else packetLen - HEADER_SIZE;
      var body := incoming[HEADER_SIZE..];
      if |body| < payloadLen {
        incoming := [];
        state := Closed;
        return Failure(Io);
      }
      var packet := header + body[..payloadLen];
      assert packet == incoming[..HEADER_SIZE + payloadLen];
      assert body[payloadLen..] == incoming[HEADER_SIZE + payloadLen..];
      incoming := body[payloadLen..];
      return Success(packet);
    }

    /** `scan_for_terminal_message`, on a cursor of its own. */
    method ScanForTerminalMessage(data: seq<byte>) returns (found: bool)
      ensures found == Terminal(data, 0)
    {
      if data == [] {
        return false;
      }
      var buf := new ReadBuffer(data);
      while buf.Remaining() > 0
        invariant buf.Valid() && fresh(buf) && buf.data == data
        invariant Terminal(data, buf.pos) == Terminal(data, 0)
        decreases |data| - buf.pos
      {
        var kind := buf.ReadU8();
        if kind.Failure? {
          return false;
        }
        if kind.value == END_OF_RESPONSE_MESSAGE || kind.value == ERROR || kind.value == STATUS {
          return true;
        }
        if kind.value == LOB_DATA {
          var lob := buf.ReadRawBytesChunked();
          if lob.Failure? {
            return false;
          }
          continue;
        }
        if kind.value == PARAMETER {
          var remaining := buf.RemainingBytes();
          return ERROR in remaining || END_OF_RESPONSE_MESSAGE in remaining;
        }
        return false;
      }
      return false;
    }

    /** The part of both reassembly loops that looks at one DATA packet. */
    method AddPacket(packet: seq<byte>, acc: seq<byte>, firstPacket: bool)
      returns (more: seq<byte>, complete: bool)
      requires |packet| >= HEADER_SIZE + 2 && (firstPacket <==> acc == [])
      ensures more == Extend(acc, packet) && complete == Completes(more, packet)
    {
      var payload := packet[HEADER_SIZE..];
      var flags := BeAt(payload, 0, 2);
      PayloadFlags(packet);
      var endFlag := HasFlag(flags, END_OF_RESPONSE);
      var eofFlag := HasFlag(flags, EOF);
      var endMessage := |payload| == 3 && payload[2] == END_OF_RESPONSE_MESSAGE;
      if firstPacket {
        more := payload;
        assert [] + payload == payload;
      } else {
        more := acc + payload[2..];
        assert payload[2..] == BodyOf(packet);
      }
      var end := endFlag || eofFlag || endMessage;
      var terminal := false;
      if !end && |more| > 2 {
        terminal := ScanForTerminalMessage(more[2..]);
      }
      complete := end || terminal;
    }

    /** Reassembly from a packet already read, after `partial` of the response. */
    method ReceiveResponseFrom(first: seq<byte>, partial: seq<byte>) returns (r: Result<seq<byte>, TransportError>)
      modifies this`incoming, this`state
      ensures |first| < HEADER_SIZE ==> r == Failure(PacketTooSmall) && incoming == old(incoming)
      ensures |first| >= HEADER_SIZE && open ==>
        Answer(r, incoming) == Deliver(Feed(first, old(incoming), partial, largeSdu), largeSdu)
      ensures |first| >= HEADER_SIZE && !open ==> r == FeedAlone(first, partial, largeSdu) && incoming == old(incoming)
      ensures state == Settled(old(state), r)
    {
      hide Deliver;
      var acc := partial;
      var firstPacket := partial == [];
      var packet := first;
      while true
        invariant firstPacket <==> acc == []
        invariant state == old(state)
        invariant |first| < HEADER_SIZE || !open ==> packet == first && acc == partial && incoming == old(incoming)
        invariant |first| >= HEADER_SIZE ==> |packet| >= HEADER_SIZE
        invariant |first| >= HEADER_SIZE ==>
          Feed(packet, incoming, acc, largeSdu) == Feed(first, old(incoming), partial, largeSdu)
        decreases |incoming|
      {
        hide Completes, Extend, Next, Rebuilt, Feed, Gather, FeedAlone;
        if |packet| < HEADER_SIZE {
          return Failure(PacketTooSmall);
        }
        FeedByCase(packet, incoming, acc, largeSdu);
        DeliverByCase(packet, acc, incoming, largeSdu);
        if packet[4] != DATA {
          return Success(packet);
        }
        if |packet| < HEADER_SIZE + 2 {
          return Failure(DataPacketTooSmall);
        }
        var complete;
        ghost var before := acc;
        acc, complete := AddPacket(packet, acc, firstPacket);
        firstPacket := false;
        ExtendGrows(before, packet);
        if complete {
          DeliverByCase(packet, acc, incoming, largeSdu);
          break;
        }
        ghost var stream := incoming;
        var next := Receive();
        if next.Failure? {
          return Failure(next.error);
        }
        packet := next.value;
        NextShortens(stream, largeSdu);
      }
      return Success(BuildDataPacket(acc));
    }

    function BuildDataPacket(payload: seq<byte>): (p: seq<byte>)
      reads this`largeSdu
      ensures p == Rebuilt(payload, largeSdu)
    {
      var total := HEADER_SIZE + |payload|;
      var length := if largeSdu then BeBytes(total % 0x1_0000_0000, 4) else BeBytes(total % 0x1_0000, 2) + [0, 0];
      length + [DATA, 0, 0, 0] + payload
    }

    /** Reassembly that hands over what it has when a packet of another kind arrives. */
    method ReceiveResponseOrMarker() returns (r: Result<(seq<byte>, seq<byte>), TransportError>)
      modifies this`incoming, this`state
      ensures !open ==> r == Failure(ConnectionClosed) && incoming == old(incoming)
      ensures open ==> match Gather(old(incoming), [], largeSdu)
        case Whole(payload, rest) => r == Success((Rebuilt(payload, largeSdu), [])) && incoming == rest
        case Other(p, partial, rest) => r == Success((p, partial)) && incoming == rest
        case TooSmall(rest) => r == Failure(DataPacketTooSmall) && incoming == rest
        case Lost => r == Failure(Io) && incoming == []
      ensures state == Settled(old(state), r)
    {
      var acc: seq<byte> := [];
      var firstPacket := true;
      while true
        invariant firstPacket <==> acc == []
        invariant state == old(state) && (!open ==> incoming == old(incoming))
        invariant Gather(incoming, acc, largeSdu) == Gather(old(incoming), [], largeSdu)
        decreases |incoming|
      {
        hide Completes, Extend, Next, Rebuilt;
        ghost var stream := incoming;
        var received := Receive();
        if received.Failure? {
          return Failure(received.error);
        }
        var packet := received.value;
        NextShortens(stream, largeSdu);
        if packet[4] != DATA {
          return Success((packet, acc));
        }
        if |packet| < HEADER_SIZE + 2 {
          return Failure(DataPacketTooSmall);
        }
        var complete;
        ghost var before := acc;
        acc, complete := AddPacket(packet, acc, firstPacket);
        firstPacket := false;
        ExtendGrows(before, packet);
        if complete {
          return Success((BuildDataPacket(acc), []));
        }
      }
    }

    method ReceiveResponse() returns (r: Result<seq<byte>, TransportError>)
      modifies this`incoming, this`state
      ensures !open ==> r == Failure(ConnectionClosed) && incoming == old(incoming)
      ensures open ==> Answer(r, incoming) == Response(old(incoming), largeSdu)
      ensures state == Settled(old(state), r)
    {
      var first :- Receive();
      r := ReceiveResponseFrom(first, []);
    }

    method SendMarker(kind: byte) returns (r: Result<(), TransportError>)
      modifies this`sent
      ensures r == if open then Success(()) else Failure(ConnectionClosed)
      ensures sent == if open then old(sent) + MarkerPacket(kind, largeSdu) else old(sent)
    {
      var total := HEADER_SIZE + 3;
      var buf := if largeSdu then BeBytes(total, 4) else BeBytes(total, 2) + BeBytes(0, 2);
      BeBytesZero();
      buf := buf + [MARKER] + [0] + BeBytes(0, 2);
      assert buf == Header(total, MARKER, largeSdu);
      buf := buf + [1] + [0] + [kind];
      assert buf == MarkerPacket(kind, largeSdu);
      r := Send(buf);
    }

    /** The reset handshake after a marker, ending with the rest of the response. */
    method HandleMarkerReset(partial: seq<byte>) returns (r: Result<seq<byte>, TransportError>)
      modifies this`incoming, this`state, this`sent
      ensures !open ==> r == Failure(ConnectionClosed) && incoming == old(incoming) && sent == old(sent)
      ensures open ==> Answer(r, incoming) == AwaitReset(old(incoming), partial, largeSdu)
      ensures open ==> sent == old(sent) + MarkerPacket(RESET, largeSdu)
      ensures state == Settled(old(state), r)
    {
      hide Feed, Next, MarkerPacket, Deliver;
      var _ :- SendMarker(RESET);
      while true
        invariant state == old(state) && sent == old(sent) + MarkerPacket(RESET, largeSdu)
        invariant AwaitReset(incoming, partial, largeSdu) == AwaitReset(old(incoming), partial, largeSdu)
        invariant |incoming| <= |old(incoming)|
        decreases |incoming|
      {
        ghost var stream := incoming;
        var received := Receive();
        if received.Failure? {
          return Failure(received.error);
        }
        var packet := received.value;
        NextShortens(stream, largeSdu);
        if packet[4] == MARKER {
          if IsReset(packet) {
            assert SkipMarkers(incoming, partial, largeSdu) == AwaitReset(old(incoming), partial, largeSdu);
            break;
          }
        } else {
          r := ReceiveResponseFrom(packet, partial);
          return;
        }
      }
      while true
        invariant state == old(state) && sent == old(sent) + MarkerPacket(RESET, largeSdu)
        invariant SkipMarkers(incoming, partial, largeSdu) == AwaitReset(old(incoming), partial, largeSdu)
        decreases |incoming|
      {
        ghost var stream := incoming;
        var received := Receive();
        if received.Failure? {
          state := Closed;
          return Failure(ClosedDuringRecovery);
        }
        var packet := received.value;
        NextShortens(stream, largeSdu);
        if packet[4] != MARKER {
          r := ReceiveResponseFrom(packet, partial);
          return;
        }
      }
    }

    /** How a DML statement, a batch or a fetch obtains its response. */
    method ReceiveReply() returns (r: Result<seq<byte>, TransportError>)
      modifies this`incoming, this`state, this`sent
      ensures !open ==> r == Failure(ConnectionClosed) && incoming == old(incoming) && sent == old(sent)
      ensures open ==> Answer(r, incoming) == Exchange(old(incoming), largeSdu)
      ensures open ==> sent == if StoppedByMarker(Gather(old(incoming), [], largeSdu))
        then old(sent) + MarkerPacket(RESET, largeSdu) else old(sent)
      ensures state == Settled(old(state), r)
    {
      var reply :- ReceiveResponseOrMarker();
      var (response, partial) := reply;
      if |response| <= HEADER_SIZE {
        return Failure(EmptyResponse);
      }
      if response[4] == MARKER {
        r := HandleMarkerReset(partial);
      } else {
        r := Success(response);
      }
    }

    /** The choice `write_lob` makes between one packet and several: either way the bytes sent
        are those of the fragmenter. */
    method SendLobMessage(message: seq<byte>) returns (r: Result<(), TransportError>)
      requires open && message != [] ==> Room(sduSize) > 0
      modifies this`sent
      ensures r == if open then Success(()) else Failure(ConnectionClosed)
      ensures sent == if !open then old(sent)
        else if message == [] then old(sent) + DataPacket(END_OF_REQUEST, [], largeSdu)
        else old(sent) + Flat(Fragments(message, Room(sduSize), 0, largeSdu))
    {
      var maxSingle := if sduSize < HEADER_SIZE + 2 then 0 else sduSize - (HEADER_SIZE + 2);
      if |message| > maxSingle {
        r := SendMultiPacket(message, 0);
      } else {
        var request := BuildSinglePacket(message, largeSdu);
        if message != [] {
          OneFragment(message, maxSingle, largeSdu);
        }
        r := Send(request);
      }
    }
  }

  lemma BeBytesZero()
    ensures BeBytes(0, 2) == [0, 0]
  {
    assert BeBytes(0, 1) == BeBytes(0, 0) + [0];
  }

  lemma FragmentsStep(payload: seq<byte>, offset: nat, max: nat, flags: u16, large: bool)
    requires 0 < max && offset < |payload|
    ensures var size := Min(|payload| - offset, max);
      var flag := if offset + size >= |payload| then END_OF_REQUEST else flags;
      Flat(Fragments(payload[offset..], max, flags, large))
        == DataPacket(flag, payload[offset..offset + size], large)
         + Flat(Fragments(payload[offset + size..], max, 0, large))
  {
    hide DataPacket;
    var rest, size := payload[offset..], Min(|payload| - offset, max);
    assert rest[..size] == payload[offset..offset + size] && rest[size..] == payload[offset + size..];
    var head := DataPacket(if size == |rest| then END_OF_REQUEST else flags, rest[..size], large);
    assert ([head] + Fragments(rest[size..], max, 0, large))[1..] == Fragments(rest[size..], max, 0, large);
  }

  /** `payload` was sent up to `offset`: the packets still to come complete what has been
      written since `before`. */
  ghost predicate Emitted(payload: seq<byte>, offset: nat, max: nat, flags: u16, large: bool,
                          before: seq<byte>, now: seq<byte>)
    requires max > 0 && offset <= |payload|
  {
    before + Flat(Fragments(payload, max, flags, large))
      == now + Flat(Fragments(payload[offset..], max, if offset == 0 then flags else 0, large))
  }

  lemma EmittedNothing(payload: seq<byte>, max: nat, flags: u16, large: bool, before: seq<byte>)
    requires 0 < max
    ensures Emitted(payload, 0, max, flags, large, before, before)
  {
    assert payload[0..] == payload;
  }

  lemma EmittedStep(payload: seq<byte>, offset: nat, max: nat, flags: u16, large: bool,
                    before: seq<byte>, now: seq<byte>)
    requires 0 < max && offset < |payload| && Emitted(payload, offset, max, flags, large, before, now)
    ensures var size := Min(|payload| - offset, max);
      Emitted(payload, offset + size, max, flags, large, before,
              now + DataPacket(PacketFlags(offset + size >= |payload|, offset == 0, flags),
                               payload[offset..offset + size], large))
  {
    hide DataPacket, Fragments, Flat;
    var size := Min(|payload| - offset, max);
    var f: u16 := if offset == 0 then flags else 0;
    FragmentsStep(payload, offset, max, f, large);
    var flag := if offset + size >= |payload| then END_OF_REQUEST else f;
    var packet := DataPacket(flag, payload[offset..offset + size], large);
    var rest := Flat(Fragments(payload[offset + size..], max, 0, large));
    assert now + (packet + rest) == (now + packet) + rest;
  }

  lemma EmittedAll(payload: seq<byte>, max: nat, flags: u16, large: bool, before: seq<byte>, now: seq<byte>)
    requires 0 < max && Emitted(payload, |payload|, max, flags, large, before, now)
    ensures now == before + Flat(Fragments(payload, max, flags, large))
  {
    assert payload[|payload|..] == [];
    assert now + [] == now;
  }

  /** A message that fits one packet is the fragmenter's only packet. */
  lemma OneFragment(message: seq<byte>, max: nat, large: bool)
    requires 0 < |message| <= max
    ensures Flat(Fragments(message, max, 0, large)) == DataPacket(END_OF_REQUEST, message, large)
  {
    hide DataPacket;
    assert message[0..] == message && message[0..0 + |message|] == message;
    FragmentsStep(message, 0, max, 0, large);
    assert message[|message|..] == [];
  }

  lemma HeaderLength(stream: seq<byte>, large: bool)
    requires |stream| >= HEADER_SIZE
    ensures var n := if large then 4 else 2;
      BeAt(stream[..HEADER_SIZE], 0, n) == BeAt(stream, 0, n)
  {
    var n := if large then 4 else 2;
    BeAtSame(stream[..HEADER_SIZE], 0, n, stream, 0);
  }

  lemma PayloadFlags(packet: seq<byte>)
    requires |packet| >= HEADER_SIZE + 2
    ensures BeAt(packet[HEADER_SIZE..], 0, 2) == FlagsOf(packet)
  {
    BeAtSame(packet[HEADER_SIZE..], 0, 2, packet, HEADER_SIZE);
  }

  lemma ExtendGrows(acc: seq<byte>, p: seq<byte>)
    requires |p| >= HEADER_SIZE + 2
    ensures Extend(acc, p) != []
  {
  }

  /** One packet into the loop, with a stream behind it and without. */
  lemma FeedByCase(p: seq<byte>, rest: seq<byte>, acc: seq<byte>, large: bool)
    requires |p| >= HEADER_SIZE
    ensures p[4] != DATA ==> Feed(p, rest, acc, large) == Other(p, acc, rest) && FeedAlone(p, acc, large) == Success(p)
    ensures p[4] == DATA && |p| < HEADER_SIZE + 2 ==>
      Feed(p, rest, acc, large) == TooSmall(rest) && FeedAlone(p, acc, large) == Failure(DataPacketTooSmall)
    ensures p[4] == DATA && |p| >= HEADER_SIZE + 2 ==>
      var more := Extend(acc, p);
      && Feed(p, rest, acc, large) == (if Completes(more, p) then Whole(more, rest) else GatherNext(rest, more, large))
      && FeedAlone(p, acc, large)
         == if Completes(more, p) then Success(Rebuilt(more, large)) else Failure(ConnectionClosed)
  {
    hide Completes, Extend, Rebuilt, Next;
  }

  lemma DeliverByCase(p: seq<byte>, acc: seq<byte>, rest: seq<byte>, large: bool)
    ensures Deliver(Other(p, acc, rest), large) == Answer(Success(p), rest)
    ensures Deliver(Whole(acc, rest), large) == Answer(Success(Rebuilt(acc, large)), rest)
    ensures Deliver(TooSmall(rest), large) == Answer(Failure(DataPacketTooSmall), rest)
    ensures Deliver(Lost, large) == Answer(Failure(Io), [])
  {
    hide Rebuilt;
  }

  /** The loop goes on with the next packet. */
  function GatherNext(stream: seq<byte>, acc: seq<byte>, large: bool): Gathered {
    match Next(stream, large)
    case Broken => Lost
    case Packet(p, rest) => Feed(p, rest, acc, large)
  }

  lemma NextShortens(stream: seq<byte>, large: bool)
    ensures var n := Next(stream, large); n.Packet? ==> |n.rest| < |stream| && |n.packet| >= HEADER_SIZE
  {
  }
}
