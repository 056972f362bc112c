/** Packets on the byte stream: the eight-byte header, cutting a stream into packets, and
    splitting a request into packets. */
module Framing {
  import opened Bytes

  const HEADER_SIZE: nat := 8
  const DATA: byte := 6
  const MARKER: byte := 12
  const END_OF_REQUEST: u16 := 0x0800
  const END_OF_RESPONSE: u16 := 0x2000
  const EOF: u16 := 0x0040

  /** `(flags & bit) != 0` for a one-bit mask. */
  predicate HasFlag(flags: nat, bit: nat)
    requires bit > 0
  {
    flags / bit % 2 == 1
  }

  /** The length field: four bytes in large-SDU mode, two otherwise. */
  function LengthField(packet: seq<byte>, large: bool): nat
    requires |packet| >= HEADER_SIZE
  {
    if large then BeAt(packet, 0, 4) else BeAt(packet, 0, 2)
  }

  function Header(length: nat, kind: byte, large: bool): (h: seq<byte>)
    ensures |h| == HEADER_SIZE && h[4] == kind
  {
    (if large then BeBytes(length, 4) else BeBytes(length, 2) + [0, 0]) + [kind, 0, 0, 0]
  }

  datatype Received = Packet(packet: seq<byte>, rest: seq<byte>) | Broken

  /** `receive`: the first packet of the stream and what follows it. A length field below the
      header size counts as an empty payload. */
  function Next(stream: seq<byte>, large: bool): (r: Received)
    ensures r.Packet? ==> |r.packet| >= HEADER_SIZE && r.packet + r.rest == stream
  {
    if |stream| < HEADER_SIZE then Broken
    else
      var n := Max(LengthField(stream, large), HEADER_SIZE);
      if |stream| < n then Broken else Packet(stream[..n], stream[n..])
  }

  /** A packet whose length field says how long it is. */
  ghost predicate Framed(packet: seq<byte>, large: bool) {
    |packet| >= HEADER_SIZE && |packet| == Max(LengthField(packet, large), HEADER_SIZE)
  }

  ghost predicate AllFramed(ps: seq<seq<byte>>, large: bool) {
    forall p | p in ps :: Framed(p, large)
  }

  function Flat(ps: seq<seq<byte>>): seq<byte> {
    if ps == [] then [] else ps[0] + Flat(ps[1..])
  }

  /** A framed packet is cut off the stream exactly, whatever follows it. */
  lemma NextOfFramed(p: seq<byte>, rest: seq<byte>, large: bool)
    requires Framed(p, large)
    ensures Next(p + rest, large) == Packet(p, rest)
  {
    var n := if large then 4 else 2;
    assert Same(p, 0, n, p + rest, 0);
    BeAtSame(p, 0, n, p + rest, 0);
    assert (p + rest)[..|p|] == p && (p + rest)[|p|..] == rest;
  }

  lemma NextOfFlat(ps: seq<seq<byte>>, tail: seq<byte>, large: bool)
    requires ps != [] && AllFramed(ps, large)
    ensures Next(Flat(ps) + tail, large) == Packet(ps[0], Flat(ps[1..]) + tail)
  {
    hide Next, LengthField, BeAt;
    NextOfFramed(ps[0], Flat(ps[1..]) + tail, large);
    assert (ps[0] + Flat(ps[1..])) + tail == ps[0] + (Flat(ps[1..]) + tail);
  }

  /** All packets of a stream, if it is made of whole packets. */
  datatype Frames = Cut(packets: seq<seq<byte>>) | Ragged

  function Deframe(stream: seq<byte>, large: bool): Frames
    decreases |stream|
  {
    if stream == [] then Cut([])
    else
      match Next(stream, large)
      case Broken => Ragged
      case Packet(p, rest) =>
        match Deframe(rest, large)
        case Ragged => Ragged
        case Cut(ps) => Cut([p] + ps)
  }

  lemma {:induction false} DeframeOfFlat(ps: seq<seq<byte>>, large: bool)
    requires AllFramed(ps, large)
    ensures Deframe(Flat(ps), large) == Cut(ps)
  {
    if ps != [] {
      NextOfFlat(ps, [], large);
      assert Flat(ps) + [] == Flat(ps) && Flat(ps[1..]) + [] == Flat(ps[1..]);
      DeframeOfFlat(ps[1..], large);
      assert [ps[0]] + ps[1..] == ps;
    }
  }

  // ---- DATA packets --------------------------------------------------------------------

  function DataPacket(flags: u16, body: seq<byte>, large: bool): seq<byte> {
    Header(HEADER_SIZE + 2 + |body|, DATA, large) + BeBytes(flags, 2) + body
  }

  function FlagsOf(packet: seq<byte>): nat
    requires |packet| >= HEADER_SIZE + 2
  {
    BeAt(packet, HEADER_SIZE, 2)
  }

  function BodyOf(packet: seq<byte>): seq<byte>
    requires |packet| >= HEADER_SIZE + 2
  {
    packet[HEADER_SIZE + 2..]
  }

  lemma BeAtPrefix(u: seq<byte>, v: seq<byte>, n: nat, k: nat)
    requires u == BeBytes(n, k) && n < Pow256(k)
    ensures BeAt(u + v, 0, k) == n
  {
    BeAtOfBytes(n, k, u + v, 0);
  }

  lemma HeaderFrames(length: nat, kind: byte, large: bool, payload: seq<byte>)
    requires length == HEADER_SIZE + |payload|
    requires length < if large then 0x1_0000_0000 else 0x1_0000
    ensures Framed(Header(length, kind, large) + payload, large)
  {
    Pow256Values();
    var p := Header(length, kind, large) + payload;
    if large {
      var rest := [kind, 0, 0, 0] + payload;
      assert p == BeBytes(length, 4) + rest;
      BeAtPrefix(BeBytes(length, 4), rest, length, 4);
    } else {
      var rest := [0, 0] + [kind, 0, 0, 0] + payload;
      assert p == BeBytes(length, 2) + rest;
      BeAtPrefix(BeBytes(length, 2), rest, length, 2);
    }
  }

  /** Building a DATA packet and taking it apart again. */
  lemma DataPacketParts(flags: u16, body: seq<byte>, large: bool)
    requires HEADER_SIZE + 2 + |body| < if large then 0x1_0000_0000 else 0x1_0000
    ensures var p := DataPacket(flags, body, large);
      Framed(p, large) && |p| == HEADER_SIZE + 2 + |body| && p[4] == DATA && FlagsOf(p) == flags && BodyOf(p) == body
  {
    var h, p := Header(HEADER_SIZE + 2 + |body|, DATA, large), DataPacket(flags, body, large);
    assert p == h + (BeBytes(flags, 2) + body);
    HeaderFrames(HEADER_SIZE + 2 + |body|, DATA, large, BeBytes(flags, 2) + body);
    Pow256Values();
    BeAtOfBytes(flags, 2, p, HEADER_SIZE);
  }

  // ---- Splitting a request -------------------------------------------------------------

  /** The packets `send_multi_packet` emits: chunks of at most `max` bytes, the caller's flags
      on the first packet, and END_OF_REQUEST instead on the last. */
  function Fragments(payload: seq<byte>, max: nat, flags: u16, large: bool): seq<seq<byte>>
    requires max > 0
    decreases |payload|
  {
    if payload == [] then []
    else
      var n := Min(|payload|, max);
      var last := n == |payload|;
      [DataPacket(if last then END_OF_REQUEST else flags, payload[..n], large)]
      + Fragments(payload[n..], max, 0, large)
  }

  ghost predicate AllData(ps: seq<seq<byte>>) {
    forall p | p in ps :: |p| >= HEADER_SIZE + 2 && p[4] == DATA
  }

  /** The bodies of the packets, in order. */
  function Bodies(ps: seq<seq<byte>>): seq<byte>
    requires AllData(ps)
  {
    if ps == [] then [] else BodyOf(ps[0]) + Bodies(ps[1..])
  }

  /** A packet that a request was split into. */
  ghost predicate Fragment(p: seq<byte>, flags: nat, max: nat, large: bool) {
    && Framed(p, large) && HEADER_SIZE + 2 <= |p| <= HEADER_SIZE + 2 + max
    && p[4] == DATA && FlagsOf(p) == flags
  }

  lemma FragmentHead(payload: seq<byte>, max: nat, flags: u16, large: bool)
    requires 0 < max && max + HEADER_SIZE + 2 < 0x1_0000 && payload != []
    ensures var ps, n := Fragments(payload, max, flags, large), Min(|payload|, max);
      && ps != [] && ps[1..] == Fragments(payload[n..], max, 0, large)
      && Fragment(ps[0], if n == |payload| then END_OF_REQUEST else flags, max, large)
      && BodyOf(ps[0]) == payload[..n]
  {
    var n := Min(|payload|, max);
    DataPacketParts(if n == |payload| then END_OF_REQUEST else flags, payload[..n], large);
    hide Header, LengthField, BeAt, BeBytes, DataPacket;
  }

  function FlagsAt(i: nat, count: nat, flags: u16): u16 {
    if i + 1 == count then END_OF_REQUEST else if i == 0 then flags else 0
  }

  lemma {:induction false} FragmentsFlags(payload: seq<byte>, max: nat, flags: u16, large: bool)
    requires 0 < max && max + HEADER_SIZE + 2 < 0x1_0000
    ensures var ps := Fragments(payload, max, flags, large);
      && (payload != [] <==> ps != [])
      && forall i | 0 <= i < |ps| :: Fragment(ps[i], FlagsAt(i, |ps|, flags), max, large)
    decreases |payload|
  {
    if payload != [] {
      FragmentsFlagsStep(payload, max, flags, large);
    }
  }

  lemma {:induction false} FragmentsFlagsStep(payload: seq<byte>, max: nat, flags: u16, large: bool)
    requires 0 < max && max + HEADER_SIZE + 2 < 0x1_0000 && payload != []
    ensures var ps := Fragments(payload, max, flags, large);
      ps != [] && forall i | 0 <= i < |ps| :: Fragment(ps[i], FlagsAt(i, |ps|, flags), max, large)
    decreases |payload|, 0
  {
    hide Fragment, Fragments;
    var ps, n := Fragments(payload, max, flags, large), Min(|payload|, max);
    FragmentHead(payload, max, flags, large);
    FragmentsFlags(payload[n..], max, 0, large);
    forall i | 0 <= i < |ps|
      ensures Fragment(ps[i], FlagsAt(i, |ps|, flags), max, large)
    {
      if i > 0 {
        assert ps[i] == ps[1..][i - 1];
      }
    }
  }

  lemma FragmentsAreData(payload: seq<byte>, max: nat, flags: u16, large: bool)
    requires 0 < max && max + HEADER_SIZE + 2 < 0x1_0000
    ensures var ps := Fragments(payload, max, flags, large);
      AllFramed(ps, large) && AllData(ps) && forall p | p in ps :: |p| <= HEADER_SIZE + 2 + max
  {
    hide Fragments, Framed, FlagsOf, LengthField;
    FragmentsFlags(payload, max, flags, large);
  }

  lemma {:induction false} FragmentsBodies(payload: seq<byte>, max: nat, flags: u16, large: bool)
    requires 0 < max && max + HEADER_SIZE + 2 < 0x1_0000
    ensures var ps := Fragments(payload, max, flags, large);
      AllData(ps) && Bodies(ps) == payload
    decreases |payload|
  {
    if payload != [] {
      FragmentsBodiesStep(payload, max, flags, large);
    }
  }

  lemma {:induction false} FragmentsBodiesStep(payload: seq<byte>, max: nat, flags: u16, large: bool)
    requires 0 < max && max + HEADER_SIZE + 2 < 0x1_0000 && payload != []
    ensures var ps := Fragments(payload, max, flags, large);
      AllData(ps) && Bodies(ps) == payload
    decreases |payload|, 0
  {
    hide Fragments, Fragment, BodyOf;
    var n := Min(|payload|, max);
    FragmentsAreData(payload, max, flags, large);
    FragmentHead(payload, max, flags, large);
    FragmentsBodies(payload[n..], max, 0, large);
    assert payload[..n] + payload[n..] == payload;
  }

  /** Sending a request and cutting the stream back into packets is the identity on the
      payload: every packet fits the SDU, the bodies concatenate to the payload, the last
      packet and no other carries END_OF_REQUEST. */
  lemma FragmentThenDeframe(payload: seq<byte>, sdu: u16, large: bool)
    requires sdu > HEADER_SIZE + 2 && payload != []
    ensures var ps := Fragments(payload, sdu - HEADER_SIZE - 2, 0, large);
      && Deframe(Flat(ps), large) == Cut(ps)
      && AllData(ps) && Bodies(ps) == payload
      && (forall p | p in ps :: |p| <= sdu)
      && ps != []
      && (forall i | 0 <= i < |ps| :: HasFlag(FlagsOf(ps[i]), END_OF_REQUEST) <==> i == |ps| - 1)
  {
    hide Fragments, Deframe, Bodies, LengthField;
    var max := sdu - HEADER_SIZE - 2;
    var ps := Fragments(payload, max, 0, large);
    FragmentsAreData(payload, max, 0, large);
    FragmentsBodies(payload, max, 0, large);
    FragmentsFlags(payload, max, 0, large);
    DeframeOfFlat(ps, large);
  }

  /** With caller flags that already carry END_OF_REQUEST the first packet carries it too: the
      mark is on the last packet alone exactly when the caller's flags do not have it or one
      packet is enough. */
  lemma EndMarkUnique(payload: seq<byte>, sdu: u16, flags: u16, large: bool)
    requires sdu > HEADER_SIZE + 2 && payload != []
    ensures var ps := Fragments(payload, sdu - HEADER_SIZE - 2, flags, large);
      && AllData(ps)
      && ((forall i | 0 <= i < |ps| :: HasFlag(FlagsOf(ps[i]), END_OF_REQUEST) <==> i == |ps| - 1)
          <==> (!HasFlag(flags, END_OF_REQUEST) || |payload| <= sdu - HEADER_SIZE - 2))
  {
    hide Fragments, LengthField;
    var max := sdu - HEADER_SIZE - 2;
    var ps := Fragments(payload, max, flags, large);
    FragmentsAreData(payload, max, flags, large);
    FragmentsFlags(payload, max, flags, large);
    FragmentsCount(payload, max, flags, large);
    if |payload| > max {
      assert FlagsOf(ps[0]) == flags;
    }
  }

  lemma FragmentsCount(payload: seq<byte>, max: nat, flags: u16, large: bool)
    requires 0 < max && payload != []
    ensures |Fragments(payload, max, flags, large)| == 1 <==> |payload| <= max
  {
    var n := Min(|payload|, max);
    assert payload[n..] == [] <==> |payload| <= max;
  }
}
