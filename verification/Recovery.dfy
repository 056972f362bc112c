/** The MARKER/RESET handshake that may interrupt a response, and what callers get back. */
module Recovery {
  import opened Bytes
  import opened Framing
  import opened Reassembly
  import opened Wrappers

  const RESET: byte := 2

  datatype TransportError =
    | ConnectionClosed
    | Io
    | PacketTooSmall
    | DataPacketTooSmall
    | EmptyResponse
    | ClosedDuringRecovery

  /** What a receiving operation returns, and the unread rest of the stream. */
  datatype Answer = Answer(result: Result<seq<byte>, TransportError>, rest: seq<byte>)

  /** `build_data_packet_from_payload`; the two-byte length field wraps around. */
  function Rebuilt(payload: seq<byte>, large: bool): (p: seq<byte>)
    ensures |p| >= HEADER_SIZE && p[HEADER_SIZE..] == payload && p[4] == DATA
  {
    Header((HEADER_SIZE + |payload|) % if large then 0x1_0000_0000 else 0x1_0000, DATA, large) + payload
  }

  /** A response without its packet header. */
  function Body(response: seq<byte>): seq<byte> {
    if |response| < HEADER_SIZE then [] else response[HEADER_SIZE..]
  }

  lemma BodyOfRebuilt(payload: seq<byte>, large: bool)
    ensures Body(Rebuilt(payload, large)) == payload
    ensures payload != [] ==> |Rebuilt(payload, large)| > HEADER_SIZE
  {
    assert Rebuilt(payload, large)[HEADER_SIZE..] == payload;
  }

  /** How a finished loop is reported when a packet of another kind is simply handed back. */
  function Deliver(g: Gathered, large: bool): Answer {
    match g
    case Whole(payload, rest) => Answer(Success(Rebuilt(payload, large)), rest)
    case Other(p, _, rest) => Answer(Success(p), rest)
    case TooSmall(rest) => Answer(Failure(DataPacketTooSmall), rest)
    case Lost => Answer(Failure(Io), [])
  }

  function MarkerPacket(kind: byte, large: bool): seq<byte> {
    Header(HEADER_SIZE + 3, MARKER, large) + [1, 0, kind]
  }

  /** The reassembly loop without a stream: the packet in hand is all there is. */
  function FeedAlone(p: seq<byte>, acc: seq<byte>, large: bool): Result<seq<byte>, TransportError>
    requires |p| >= HEADER_SIZE
  {
    if p[4] != DATA then Success(p)
    else if |p| < HEADER_SIZE + 2 then Failure(DataPacketTooSmall)
    else
      var more := Extend(acc, p);
      if Completes(more, p) then Success(Rebuilt(more, large)) else Failure(ConnectionClosed)
  }

  predicate IsReset(p: seq<byte>) {
    |p| >= HEADER_SIZE + 3 && p[HEADER_SIZE + 2] == RESET
  }

  /** After our RESET was sent: wait for the server's, or for its answer. */
  function AwaitReset(stream: seq<byte>, partial: seq<byte>, large: bool): Answer
    decreases |stream|
  {
    match Next(stream, large)
    case Broken => Answer(Failure(Io), [])
    case Packet(p, rest) =>
      if p[4] != MARKER then Deliver(Feed(p, rest, partial, large), large)
      else if IsReset(p) then SkipMarkers(rest, partial, large)
      else AwaitReset(rest, partial, large)
  }

  /** After the server's RESET: pass over further markers up to the answer. */
  function SkipMarkers(stream: seq<byte>, partial: seq<byte>, large: bool): Answer
    decreases |stream|
  {
    match Next(stream, large)
    case Broken => Answer(Failure(ClosedDuringRecovery), [])
    case Packet(p, rest) =>
      if p[4] != MARKER then Deliver(Feed(p, rest, partial, large), large)
      else SkipMarkers(rest, partial, large)
  }

  /** `receive_response`: a packet of another kind ends it and what was gathered is dropped. */
  function Response(stream: seq<byte>, large: bool): Answer {
    Deliver(Gather(stream, [], large), large)
  }

  /** The loop was stopped by a marker that is more than a header. */
  predicate StoppedByMarker(g: Gathered) {
    g.Other? && |g.packet| > HEADER_SIZE && g.packet[4] == MARKER
  }

  /** The response to a DML statement, a batch or a fetch: received so that a marker leaves what
      was gathered, which then goes into the recovery. */
  function Exchange(stream: seq<byte>, large: bool): Answer {
    match Gather(stream, [], large)
    case Other(p, partial, rest) =>
      if |p| <= HEADER_SIZE then Answer(Failure(EmptyResponse), rest)
      else if p[4] == MARKER then AwaitReset(rest, partial, large)
      else Answer(Success(p), rest)
    case g => Deliver(g, large)
  }

  /** The packet that reading or writing a LOB goes on with: a marker starts the recovery with
      nothing kept. What becomes of the packet is another matter (`LobReplies`). */
  function LobExchange(stream: seq<byte>, large: bool): Answer {
    var a := Response(stream, large);
    if a.result.Failure? then a
    else if |a.result.value| <= HEADER_SIZE then Answer(Failure(EmptyResponse), a.rest)
    else if a.result.value[4] == MARKER then AwaitReset(a.rest, [], large)
    else a
  }

  // ---- Markers are transparent ---------------------------------------------------------

  ghost predicate AllMarkers(ms: seq<seq<byte>>) {
    forall m | m in ms :: |m| >= HEADER_SIZE && m[4] == MARKER
  }

  ghost predicate StartsWithData(stream: seq<byte>, large: bool) {
    var n := Next(stream, large);
    n.Packet? && n.packet[4] != MARKER
  }

  lemma FlatHead(ms: seq<seq<byte>>, rest: seq<byte>, large: bool)
    requires ms != [] && AllFramed(ms, large)
    ensures Next(Flat(ms) + rest, large) == Packet(ms[0], Flat(ms[1..]) + rest)
    ensures AllFramed(ms[1..], large)
  {
    hide Next, Flat;
    NextOfFlat(ms, rest, large);
  }

  lemma FlatNothing(rest: seq<byte>)
    ensures Flat([]) + rest == rest
  {
  }

  lemma {:induction false} SkipMarkersSkips(ms: seq<seq<byte>>, rest: seq<byte>, partial: seq<byte>, large: bool)
    requires AllMarkers(ms) && AllFramed(ms, large) && StartsWithData(rest, large)
    ensures SkipMarkers(Flat(ms) + rest, partial, large) == Deliver(Gather(rest, partial, large), large)
  {
    hide Flat, Next, Feed, Framed;
    if ms == [] {
      FlatNothing(rest);
    } else {
      FlatHead(ms, rest, large);
      SkipMarkersSkips(ms[1..], rest, partial, large);
    }
  }

  lemma {:induction false} AwaitResetSkips(ms: seq<seq<byte>>, rest: seq<byte>, partial: seq<byte>, large: bool)
    requires AllMarkers(ms) && AllFramed(ms, large) && StartsWithData(rest, large)
    ensures AwaitReset(Flat(ms) + rest, partial, large) == Deliver(Gather(rest, partial, large), large)
  {
    hide Flat, Next, Feed, Framed, SkipMarkers;
    if ms == [] {
      FlatNothing(rest);
    } else {
      FlatHead(ms, rest, large);
      if IsReset(ms[0]) {
        SkipMarkersSkips(ms[1..], rest, partial, large);
      } else {
        AwaitResetSkips(ms[1..], rest, partial, large);
      }
    }
  }

  /** The stream of a response whose packets `ps` are cut after `k` of them by markers. */
  function Interrupted(ps: seq<seq<byte>>, k: nat, ms: seq<seq<byte>>, tail: seq<byte>): seq<byte>
    requires k <= |ps|
  {
    Flat(ps[..k]) + (Flat(ms) + (Flat(ps[k..]) + tail))
  }

  /** The markers `ms` cut the packets `ps` after `k` of them, before the response is complete. */
  ghost predicate Cut(ps: seq<seq<byte>>, k: nat, last: nat, ms: seq<seq<byte>>, large: bool) {
    && AllData(ps) && AllFramed(ps, large) && FirstComplete(ps, last) && k <= last
    && AllMarkers(ms) && AllFramed(ms, large) && ms != []
  }

  /** And the first marker is more than a header. */
  ghost predicate CutByMarkers(ps: seq<seq<byte>>, k: nat, last: nat, ms: seq<seq<byte>>, large: bool) {
    Cut(ps, k, last, ms, large) && |ms[0]| > HEADER_SIZE
  }

  lemma AllDataPart(ps: seq<seq<byte>>, k: nat, large: bool)
    requires k <= |ps| && AllData(ps) && AllFramed(ps, large)
    ensures AllData(ps[..k]) && AllFramed(ps[..k], large) && AllData(ps[k..]) && AllFramed(ps[k..], large)
  {
  }

  lemma CompleteAtPrefix(ps: seq<seq<byte>>, k: nat, j: nat)
    requires AllData(ps) && j < k <= |ps|
    ensures AllData(ps[..k]) && CompleteAt(ps[..k], j) == CompleteAt(ps, j)
  {
    assert ps[..k][..j + 1] == ps[..j + 1];
  }

  /** Before the cut the loop hands over the first marker with everything gathered so far. */
  lemma GatherUpToMarker(ps: seq<seq<byte>>, k: nat, ms: seq<seq<byte>>, tail: seq<byte>, large: bool)
    requires AllData(ps) && AllFramed(ps, large) && k <= |ps| && forall j | 0 <= j < k :: !CompleteAt(ps, j)
    requires AllMarkers(ms) && AllFramed(ms, large) && ms != []
    ensures AllData(ps[..k])
    ensures Gather(Interrupted(ps, k, ms, tail), [], large)
         == Other(ms[0], Joined(ps[..k]), Flat(ms[1..]) + (Flat(ps[k..]) + tail))
  {
    hide Flat, Next, Framed, Joined, CompleteAt, Completes;
    AllDataPart(ps, k, large);
    var q, rest := ps[..k], Flat(ps[k..]) + tail;
    forall j | 0 <= j < k
      ensures !CompleteAt(q, j)
    {
      CompleteAtPrefix(ps, k, j);
    }
    GatherIncomplete(q, 0, Flat(ms) + rest, large);
    assert q[0..] == q && q[..0] == [];
    BodiesEmpty();
    FlatHead(ms, rest, large);
  }

  lemma DataComesNext(ps: seq<seq<byte>>, k: nat, tail: seq<byte>, large: bool)
    requires k < |ps| && AllData(ps) && AllFramed(ps, large)
    ensures StartsWithData(Flat(ps[k..]) + tail, large)
  {
    hide Flat, Next, Framed;
    AllDataPart(ps, k, large);
    NextOfFlat(ps[k..], tail, large);
    assert ps[k..][0] == ps[k];
  }

  /** Wherever markers interrupt a response before it is complete, and however many there are,
      the recovered response is the one the uninterrupted stream yields: the same packet and
      the same unread rest. */
  lemma MarkersAreTransparent(ps: seq<seq<byte>>, k: nat, last: nat, ms: seq<seq<byte>>, tail: seq<byte>, large: bool)
    requires CutByMarkers(ps, k, last, ms, large)
    ensures Exchange(Interrupted(ps, k, ms, tail), large) == Exchange(Flat(ps) + tail, large)
    ensures Exchange(Flat(ps) + tail, large)
         == Answer(Success(Rebuilt(Joined(ps[..last + 1]), large)), Flat(ps[last + 1..]) + tail)
  {
    hide Gather, Flat, Next, Framed, Joined, CompleteAt, AwaitReset, Interrupted, Rebuilt;
    var rest := Flat(ps[k..]) + tail;
    GatherUpToMarker(ps, k, ms, tail, large);
    MarkerTail(ms, large);
    DataComesNext(ps, k, tail, large);
    AwaitResetSkips(ms[1..], rest, Joined(ps[..k]), large);
    GatherFrom(ps, k, last, tail, large);
    GatherFrom(ps, 0, last, tail, large);
    BodiesEmpty();
    assert ps[0..] == ps && ps[..0] == [];
  }

  /** That the first marker is more than a header is needed: a bare header is taken for an empty
      response. */
  lemma TransparentExactly(ps: seq<seq<byte>>, k: nat, last: nat, ms: seq<seq<byte>>, tail: seq<byte>, large: bool)
    requires Cut(ps, k, last, ms, large)
    ensures Exchange(Interrupted(ps, k, ms, tail), large) == Exchange(Flat(ps) + tail, large) <==> |ms[0]| > HEADER_SIZE
    ensures |ms[0]| == HEADER_SIZE ==> Exchange(Interrupted(ps, k, ms, tail), large).result == Failure(EmptyResponse)
  {
    hide Gather, Flat, Next, Framed, Joined, CompleteAt, AwaitReset, Interrupted, Rebuilt;
    MarkerTail(ms, large);
    GatherUpToMarker(ps, k, ms, tail, large);
    if |ms[0]| > HEADER_SIZE {
      MarkersAreTransparent(ps, k, last, ms, tail, large);
    } else {
      GatherFrom(ps, 0, last, tail, large);
      BodiesEmpty();
      assert ps[0..] == ps && ps[..0] == [];
    }
  }

  lemma MarkerTail(ms: seq<seq<byte>>, large: bool)
    requires AllMarkers(ms) && AllFramed(ms, large) && ms != []
    ensures AllMarkers(ms[1..]) && AllFramed(ms[1..], large) && ms[0][4] == MARKER && |ms[0]| >= HEADER_SIZE
  {
    assert ms[0] in ms;
  }

  /** Only one interruption is survived: if markers cut the rest of the response again, the
      caller gets the bare second marker instead of a response. */
  lemma SecondMarkerIsReturned(ps: seq<seq<byte>>, k: nat, i: nat, last: nat, ms: seq<seq<byte>>,
                               m: seq<byte>, tail: seq<byte>, large: bool)
    requires CutByMarkers(ps, k, last, ms, large) && k < i <= last
    requires Framed(m, large) && m[4] == MARKER
    ensures Exchange(Flat(ps[..k]) + (Flat(ms) + (Flat(ps[k..i]) + (m + tail))), large) == Answer(Success(m), tail)
  {
    hide Gather, Flat, Next, Framed, Joined, CompleteAt, AwaitReset, Rebuilt;
    var q, end := ps[..i], m + tail;
    CutPrefix(ps, k, i, last, ms, large);
    assert q[..k] == ps[..k] && q[k..] == ps[k..i];
    GatherUpToMarker(q, k, ms, end, large);
    MarkerTail(ms, large);
    DataComesNext(q, k, end, large);
    AwaitResetSkips(ms[1..], Flat(q[k..]) + end, Joined(q[..k]), large);
    GatherIncomplete(q, k, end, large);
    GatherOther(m, tail, Joined(q), large);
  }

  lemma CutPrefix(ps: seq<seq<byte>>, k: nat, i: nat, last: nat, ms: seq<seq<byte>>, large: bool)
    requires CutByMarkers(ps, k, last, ms, large) && k < i <= last
    ensures AllData(ps[..i]) && AllFramed(ps[..i], large) && forall j | 0 <= j < i :: !CompleteAt(ps[..i], j)
  {
    hide CompleteAt, Framed;
    AllDataPart(ps, i, large);
    forall j | 0 <= j < i
      ensures !CompleteAt(ps[..i], j)
    {
      CompleteAtPrefix(ps, i, j);
    }
  }

  lemma GatherOther(m: seq<byte>, tail: seq<byte>, acc: seq<byte>, large: bool)
    requires Framed(m, large) && m[4] == MARKER
    ensures Gather(m + tail, acc, large) == Other(m, acc, tail)
  {
    NextOfFramed(m, tail, large);
  }

  /** The LOB path keeps nothing: the packet it goes on with is that of the packets after the cut
      taken as a response of their own, whatever came before them. */
  lemma LobCutForgets(ps: seq<seq<byte>>, k: nat, last: nat, ms: seq<seq<byte>>, tail: seq<byte>, large: bool)
    requires CutByMarkers(ps, k, last, ms, large)
    ensures LobExchange(Interrupted(ps, k, ms, tail), large) == Response(Flat(ps[k..]) + tail, large)
  {
    hide Gather, Flat, Next, Framed, Joined, CompleteAt, AwaitReset, Interrupted, Rebuilt;
    GatherUpToMarker(ps, k, ms, tail, large);
    MarkerTail(ms, large);
    DataComesNext(ps, k, tail, large);
    AwaitResetSkips(ms[1..], Flat(ps[k..]) + tail, [], large);
  }

  /** Nothing but empty bodies was gathered before the cut, under the flags the rest starts with:
      forgetting it makes no difference. */
  ghost predicate NothingToForget(ps: seq<seq<byte>>, k: nat)
    requires AllData(ps) && k < |ps|
  {
    k == 0 || (AllData(ps[..k]) && Bodies(ps[..k]) == [] && FlagBytes(ps[k]) == FlagBytes(ps[0]))
  }

  /** The parts of a payload that is gathered across the cut. */
  lemma JoinedAcross(ps: seq<seq<byte>>, k: nat, i: nat)
    requires AllData(ps) && 0 < k && k + i < |ps|
    ensures AllData(ps[..k]) && AllData(ps[k..k + i + 1]) && AllData(ps[..k + i + 1])
    ensures Joined(ps[..k + i + 1]) == FlagBytes(ps[0]) + (Bodies(ps[..k]) + Bodies(ps[k..k + i + 1]))
    ensures Joined(ps[k..k + i + 1]) == FlagBytes(ps[k]) + Bodies(ps[k..k + i + 1])
  {
    hide Joined, Bodies, FlagBytes;
    var front, back := ps[..k], ps[k..k + i + 1];
    BodiesAppend(front, back);
    assert front + back == ps[..k + i + 1];
    JoinedIsFlagsAndBodies(ps[..k + i + 1]);
    JoinedIsFlagsAndBodies(back);
  }

  lemma ForgottenIsKept(ps: seq<seq<byte>>, k: nat, i: nat)
    requires AllData(ps) && k + i < |ps| && NothingToForget(ps, k)
    ensures AllData(ps[k..]) && Joined(ps[k..][..i + 1]) == Joined(ps[..k + i + 1])
    ensures CompleteAt(ps[k..], i) == CompleteAt(ps, k + i)
  {
    hide Joined, Bodies, FlagBytes, Completes;
    var q := ps[k..];
    assert q[..i + 1] == ps[k..k + i + 1] && q[i] == ps[k + i];
    if k == 0 {
      assert ps[0..0 + i + 1] == ps[..0 + i + 1];
    } else {
      JoinedAcross(ps, k, i);
      assert [] + Bodies(ps[k..k + i + 1]) == Bodies(ps[k..k + i + 1]);
    }
  }

  lemma ForgottenIsFirst(ps: seq<seq<byte>>, k: nat, last: nat)
    requires AllData(ps) && FirstComplete(ps, last) && k <= last && NothingToForget(ps, k)
    ensures AllData(ps[k..]) && FirstComplete(ps[k..], last - k)
  {
    hide Joined, Bodies, FlagBytes, CompleteAt, NothingToForget;
    forall i | 0 <= i <= last - k
      ensures AllData(ps[k..]) && CompleteAt(ps[k..], i) == CompleteAt(ps, k + i)
    {
      ForgottenIsKept(ps, k, i);
    }
  }

  /** If the payload is the same without what was forgotten, there was nothing to forget. */
  lemma SamePayload(ps: seq<seq<byte>>, k: nat, i: nat)
    requires AllData(ps) && k + i < |ps|
    requires AllData(ps[k..k + i + 1]) && Joined(ps[k..k + i + 1]) == Joined(ps[..k + i + 1])
    ensures NothingToForget(ps, k)
  {
    hide Joined, Bodies, FlagBytes;
    if k > 0 {
      JoinedAcross(ps, k, i);
      var u, v := Bodies(ps[..k]), Bodies(ps[k..k + i + 1]);
      assert |FlagBytes(ps[0]) + (u + v)| == 2 + |u| + |v| && |FlagBytes(ps[k]) + v| == 2 + |v|;
      assert (FlagBytes(ps[0]) + (u + v))[..2] == FlagBytes(ps[0]);
      assert (FlagBytes(ps[k]) + v)[..2] == FlagBytes(ps[k]);
    }
  }

  lemma {:induction false} FlatShrinks(ps: seq<seq<byte>>, i: nat, j: nat)
    requires AllData(ps) && i < j <= |ps|
    ensures |Flat(ps[i..])| > |Flat(ps[j..])|
    decreases j - i
  {
    assert ps[i..][0] == ps[i] && ps[i..][1..] == ps[i + 1..];
    if i + 1 < j {
      FlatShrinks(ps, i + 1, j);
    }
  }

  /** A loop that delivers has read something. */
  lemma {:induction false} GatherConsumes(stream: seq<byte>, acc: seq<byte>, large: bool)
    ensures var a := Deliver(Gather(stream, acc, large), large); a.result.Success? ==> |a.rest| < |stream|
    decreases |stream|
  {
    hide Completes, Extend, Rebuilt;
    var n := Next(stream, large);
    if n.Packet? && n.packet[4] == DATA && |n.packet| >= HEADER_SIZE + 2 {
      GatherConsumes(n.rest, Extend(acc, n.packet), large);
    }
  }

  /** What the rest of a cut response yields as a response of its own is not what the whole
      response yields, if it is complete elsewhere or never. */
  lemma RestYields(ps: seq<seq<byte>>, k: nat, last: nat, tail: seq<byte>, large: bool)
    requires AllData(ps) && AllFramed(ps, large) && FirstComplete(ps, last) && k <= last
    requires Response(Flat(ps[k..]) + tail, large)
          == Answer(Success(Rebuilt(Joined(ps[..last + 1]), large)), Flat(ps[last + 1..]) + tail)
    ensures NothingToForget(ps, k)
  {
    hide Gather, Flat, Framed, Joined, CompleteAt, Rebuilt, NothingToForget;
    var q := ps[k..];
    AllDataPart(ps, k, large);
    BodiesEmpty();
    assert q[0..] == q && q[..0] == [];
    if j: nat :| j < |q| && CompleteAt(q, j) {
      var first := FirstCompleteBelow(q, j);
      GatherFrom(q, 0, first, tail, large);
      assert q[first + 1..] == ps[k + first + 1..] && q[..first + 1] == ps[k..k + first + 1];
      SameRest(ps, k + first + 1, last + 1, tail);
      assert Joined(ps[k..k + first + 1]) == Joined(ps[..last + 1]);
      SamePayload(ps, k, first);
    } else {
      GatherIncomplete(q, 0, tail, large);
      GatherConsumes(tail, Joined(q), large);
      assert false;
    }
  }

  lemma SameRest(ps: seq<seq<byte>>, i: nat, j: nat, tail: seq<byte>)
    requires AllData(ps) && i <= |ps| && j <= |ps| && Flat(ps[i..]) + tail == Flat(ps[j..]) + tail
    ensures i == j
  {
    assert |Flat(ps[i..])| + |tail| == |Flat(ps[j..])| + |tail|;
    if i < j {
      FlatShrinks(ps, i, j);
    } else if j < i {
      FlatShrinks(ps, j, i);
    }
  }

  lemma LobUninterrupted(ps: seq<seq<byte>>, last: nat, tail: seq<byte>, large: bool)
    requires AllData(ps) && AllFramed(ps, large) && FirstComplete(ps, last)
    ensures var whole := Answer(Success(Rebuilt(Joined(ps[..last + 1]), large)), Flat(ps[last + 1..]) + tail);
      Response(Flat(ps) + tail, large) == whole && LobExchange(Flat(ps) + tail, large) == whole
  {
    hide Gather, Flat, Framed, CompleteAt, AwaitReset, Joined;
    BodiesEmpty();
    assert ps[0..] == ps && ps[..0] == [];
    GatherFrom(ps, 0, last, tail, large);
  }

  lemma LobRest(ps: seq<seq<byte>>, k: nat, last: nat, tail: seq<byte>, large: bool)
    requires AllData(ps) && AllFramed(ps, large) && k <= last < |ps|
    requires AllData(ps[k..]) && FirstComplete(ps[k..], last - k)
    ensures Response(Flat(ps[k..]) + tail, large)
         == Answer(Success(Rebuilt(Joined(ps[k..][..last - k + 1]), large)), Flat(ps[last + 1..]) + tail)
  {
    hide LobExchange, Flat, Framed, CompleteAt, Joined, Rebuilt;
    LobUninterrupted(ps[k..], last - k, tail, large);
    assert ps[k..][last - k + 1..] == ps[last + 1..];
  }

  lemma LobKept(ps: seq<seq<byte>>, k: nat, last: nat, ms: seq<seq<byte>>, tail: seq<byte>, large: bool)
    requires CutByMarkers(ps, k, last, ms, large) && NothingToForget(ps, k)
    ensures LobExchange(Interrupted(ps, k, ms, tail), large) == LobExchange(Flat(ps) + tail, large)
  {
    hide Response, Flat, Framed, CompleteAt, Joined, Interrupted, LobExchange, Rebuilt, NothingToForget, AllMarkers;
    LobCutForgets(ps, k, last, ms, tail, large);
    LobUninterrupted(ps, last, tail, large);
    ForgottenIsFirst(ps, k, last);
    ForgottenIsKept(ps, k, last - k);
    LobRest(ps, k, last, tail, large);
  }

  lemma LobLost(ps: seq<seq<byte>>, k: nat, last: nat, ms: seq<seq<byte>>, tail: seq<byte>, large: bool)
    requires CutByMarkers(ps, k, last, ms, large)
    requires LobExchange(Interrupted(ps, k, ms, tail), large) == LobExchange(Flat(ps) + tail, large)
    ensures k < |ps| && NothingToForget(ps, k)
  {
    hide Response, Flat, Framed, CompleteAt, Joined, Interrupted, LobExchange, Rebuilt, NothingToForget, AllMarkers;
    LobCutForgets(ps, k, last, ms, tail, large);
    LobUninterrupted(ps, last, tail, large);
    RestYields(ps, k, last, tail, large);
  }

  /** The packet is that of the uninterrupted stream exactly if the packets before the cut had
      empty bodies and the packet behind it has the flags of the first. */
  lemma LobTransparentExactly(ps: seq<seq<byte>>, k: nat, last: nat, ms: seq<seq<byte>>, tail: seq<byte>, large: bool)
    requires CutByMarkers(ps, k, last, ms, large)
    ensures LobExchange(Interrupted(ps, k, ms, tail), large) == LobExchange(Flat(ps) + tail, large)
       <==> (k == 0 || (AllData(ps[..k]) && Bodies(ps[..k]) == [] && FlagBytes(ps[k]) == FlagBytes(ps[0])))
  {
    hide Response, Flat, Framed, CompleteAt, Joined, Interrupted, LobExchange, Bodies, FlagBytes, AllMarkers;
    if NothingToForget(ps, k) {
      LobKept(ps, k, last, ms, tail, large);
    }
    if LobExchange(Interrupted(ps, k, ms, tail), large) == LobExchange(Flat(ps) + tail, large) {
      LobLost(ps, k, last, ms, tail, large);
    }
  }

  // ---- Two interruptions in full -------------------------------------------------------

  const FRONT: seq<byte> := DataPacket(0, [7], false)
  const BACK: seq<byte> := DataPacket(END_OF_RESPONSE, [8], false)
  const BREAK: seq<byte> := MarkerPacket(1, false)

  lemma BreakIsMarker()
    ensures AllMarkers([BREAK]) && AllFramed([BREAK], false) && |BREAK| > HEADER_SIZE && Flat([BREAK]) == BREAK
  {
    HeaderFrames(HEADER_SIZE + 3, MARKER, false, [1, 0, 1]);
    assert BREAK + [] == BREAK;
  }

  lemma FrontAndBackAreData()
    ensures AllData([FRONT, BACK]) && AllFramed([FRONT, BACK], false)
    ensures FlagBytes(FRONT) == [0, 0] && BodyOf(FRONT) == [7] && FlagsOf(FRONT) == 0
    ensures FlagBytes(BACK) == [0x20, 0] && BodyOf(BACK) == [8] && FlagsOf(BACK) == END_OF_RESPONSE
  {
    hide Framed, FlagsOf, BodyOf;
    DataPacketParts(0, [7], false);
    DataPacketParts(END_OF_RESPONSE, [8], false);
    FlagBytesOf(0, [7]);
    FlagBytesOf(END_OF_RESPONSE, [8]);
    assert BeBytes(0, 2) == [0, 0] by { BeBytesTwo(0); }
    assert BeBytes(END_OF_RESPONSE, 2) == [0x20, 0] by { BeBytesTwo(END_OF_RESPONSE); }
  }

  lemma FlagBytesOf(flags: u16, body: seq<byte>)
    ensures |DataPacket(flags, body, false)| == HEADER_SIZE + 2 + |body|
    ensures FlagBytes(DataPacket(flags, body, false)) == BeBytes(flags, 2)
  {
    hide Header;
    var p := DataPacket(flags, body, false);
    assert p[HEADER_SIZE..HEADER_SIZE + 2] == BeBytes(flags, 2);
  }

  lemma BeBytesTwo(n: u16)
    ensures BeBytes(n, 2) == [n / 256, n % 256]
  {
    assert BeBytes(n / 256, 1) == BeBytes(n / 256 / 256, 0) + [n / 256 % 256];
  }

  lemma FrontAndBackJoined()
    ensures AllData([FRONT, BACK]) && AllData([FRONT])
    ensures Joined([FRONT]) == [0, 0, 7] && Joined([FRONT, BACK]) == [0, 0, 7, 8] && Bodies([FRONT]) == [7]
    ensures Joined([BACK]) == [0x20, 0, 8]
  {
    hide BodyOf, FlagBytes, FlagsOf, Framed, Joined;
    FrontAndBackAreData();
    JoinedIsFlagsAndBodies([FRONT]);
    JoinedIsFlagsAndBodies([BACK]);
    JoinedIsFlagsAndBodies([FRONT, BACK]);
    assert [FRONT, BACK][1..] == [BACK] && [BACK][1..] == [] && [FRONT][1..] == [];
  }

  lemma FrontAndBackComplete()
    ensures AllData([FRONT, BACK]) && FirstComplete([FRONT, BACK], 1)
  {
    hide BodyOf, FlagBytes, FlagsOf, Framed, Joined;
    var ps := [FRONT, BACK];
    FrontAndBackAreData();
    FrontAndBackJoined();
    assert ps[..0 + 1] == [FRONT];
    assert FRONT[HEADER_SIZE + 2] == BodyOf(FRONT)[0];
    assert [0, 0, 7][2..] == [7];
    assert !Scanned(Joined(ps[..0 + 1]));
    assert !CompleteAt(ps, 0);
  }

  lemma FrontAndBackCut(k: nat)
    requires k <= 1
    ensures CutByMarkers([FRONT, BACK], k, 1, [BREAK], false)
  {
    hide FirstComplete, Framed, AllMarkers;
    FrontAndBackAreData();
    FrontAndBackComplete();
    BreakIsMarker();
  }

  /** A marker between two DATA packets, and the packet without the data of the first. */
  lemma LobDataIsLost()
    ensures CutByMarkers([FRONT, BACK], 1, 1, [BREAK], false)
    ensures LobExchange(FRONT + BACK, false) == Answer(Success(Rebuilt([0, 0, 7, 8], false)), [])
    ensures LobExchange(FRONT + BREAK + BACK, false) == Answer(Success(Rebuilt([0x20, 0, 8], false)), [])
  {
    hide LobExchange, Response, Joined, Rebuilt, Framed, FirstComplete, AllMarkers, DataPacket, MarkerPacket, Header, Flat,
      FlagBytes, Bodies;
    var ps := [FRONT, BACK];
    FrontAndBackCut(1);
    FrontAndBackJoined();
    BackIsComplete();
    BreakIsMarker();
    LobUninterrupted(ps, 1, [], false);
    LobUninterrupted([BACK], 0, [], false);
    LobCutForgets(ps, 1, 1, [BREAK], [], false);
    FrontAndBackFlat();
    assert ps[..1 + 1] == ps && [BACK][..0 + 1] == [BACK] && [BACK][0 + 1..] == [] && ps[1 + 1..] == [];
    assert ps[1..] == [BACK] && ps[..1] == [FRONT];
    assert FRONT + (BREAK + (BACK + [])) == FRONT + BREAK + BACK;
    assert FRONT + BACK + [] == FRONT + BACK;
  }

  lemma BackIsComplete()
    ensures AllData([BACK]) && AllFramed([BACK], false) && FirstComplete([BACK], 0)
  {
    hide BodyOf, FlagBytes, FlagsOf, Framed, Joined, Scanned;
    FrontAndBackAreData();
    assert BACK in [FRONT, BACK];
  }

  lemma FrontAndBackFlat()
    ensures Flat([]) == [] && Flat([FRONT]) == FRONT && Flat([BACK]) == BACK && Flat([FRONT, BACK]) == FRONT + BACK
  {
    assert [FRONT][1..] == [] && [BACK][1..] == [] && [FRONT, BACK][1..] == [BACK];
    assert FRONT + [] == FRONT && BACK + [] == BACK;
  }

  /** Markers before a response and again inside it, and the second is what the caller gets. */
  lemma SecondMarkerInFull()
    ensures Exchange(BREAK + FRONT + BREAK + BACK, false) == Answer(Success(BREAK), BACK)
  {
    hide CutByMarkers, Exchange, Framed, DataPacket, MarkerPacket, Header, Flat;
    var ps := [FRONT, BACK];
    FrontAndBackCut(0);
    BreakIsMarker();
    SecondMarkerIsReturned(ps, 0, 1, 1, [BREAK], BREAK, BACK, false);
    FrontAndBackFlat();
    assert ps[..0] == [] && ps[0..1] == [FRONT];
    assert [] + (BREAK + (FRONT + (BREAK + BACK))) == BREAK + FRONT + BREAK + BACK;
  }
}
