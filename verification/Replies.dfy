/** DML statements, batches and fetches from the stream to the answer: what an interruption does to
    them, and what a second one does. */
module Replies {
  import opened Bytes
  import opened ErrorMessages
  import opened Framing
  import opened Reassembly
  import opened Recovery
  import Responses
  import Rows
  import opened Wrappers

  datatype ReplyError<+E> = NotReceived(cause: TransportError) | Unusable(reason: E)

  /** What the parser makes of a response, if there is one; and the unread rest of the stream. */
  function Parsed<T, E>(a: Answer, parse: seq<byte> -> Result<T, E>): (Result<T, ReplyError<E>>, seq<byte>) {
    match a.result
    case Failure(e) => (Failure(NotReceived(e)), a.rest)
    case Success(response) =>
      match parse(Body(response))
      case Success(v) => (Success(v), a.rest)
      case Failure(e) => (Failure(Unusable(e)), a.rest)
  }

  function DmlReply(t: TextRules, stream: seq<byte>, large: bool)
    : (Result<Responses.DmlAnswer, ReplyError<Responses.ResponseError>>, seq<byte>)
  {
    Parsed(Exchange(stream, large), payload => Responses.Dml(t, payload))
  }

  /** What is asked of a batch: its size, row counts, and whether errors of single rows are borne. */
  datatype BatchOptions = BatchOptions(size: nat, want: bool, tolerant: bool)

  function BatchReply(t: TextRules, o: BatchOptions, stream: seq<byte>, large: bool)
    : (Result<Responses.BatchResult, ReplyError<Responses.ResponseError>>, seq<byte>)
  {
    Parsed(Exchange(stream, large), payload => Responses.Batch(t, payload, o.size, o.want, o.tolerant))
  }

  function FetchReply<V>(g: Rows.Setting<V>, cursorId: u16, stream: seq<byte>, large: bool)
    : (Result<Rows.Fetched<V>, ReplyError<Rows.RowError>>, seq<byte>)
  {
    Parsed(Exchange(stream, large), payload => Rows.ParseFetch(g, payload, cursorId))
  }

  /** Markers make no difference to the answer of a DML statement, a batch or a fetch. */
  lemma RepliesSurvive<V>(t: TextRules, o: BatchOptions, g: Rows.Setting<V>, cursorId: u16,
                          ps: seq<seq<byte>>, k: nat, last: nat, ms: seq<seq<byte>>, tail: seq<byte>, large: bool)
    requires CutByMarkers(ps, k, last, ms, large)
    ensures var (cut, whole) := (Interrupted(ps, k, ms, tail), Flat(ps) + tail);
      && DmlReply(t, cut, large) == DmlReply(t, whole, large)
      && BatchReply(t, o, cut, large) == BatchReply(t, o, whole, large)
      && FetchReply(g, cursorId, cut, large) == FetchReply(g, cursorId, whole, large)
  {
    hide Exchange, CutByMarkers, Interrupted, Responses.Dml, Responses.Batch, Rows.ParseFetch;
    MarkersAreTransparent(ps, k, last, ms, tail, large);
  }

  /** BREAK, RESET and INTERRUPT. */
  predicate MarkerKind(kind: byte) {
    1 <= kind <= 3
  }

  /** The three parsers take the body of a marker for a response with nothing in it. */
  lemma MarkerBodySucceeds<V>(t: TextRules, o: BatchOptions, g: Rows.Setting<V>, cursorId: u16, kind: byte)
    requires MarkerKind(kind)
    ensures Responses.Dml(t, [1, 0, kind]) == Success(Responses.DmlAnswer(0, 0))
    ensures Responses.Batch(t, [1, 0, kind], o.size, o.want, o.tolerant)
         == Success(Responses.BatchResult(0, o.size, 0, [], None))
    ensures Rows.ParseFetch(g, [1, 0, kind], cursorId) == Success(Rows.Fetched([], true, cursorId))
  {
    hide ErrorMessage, FetchEnd, Responses.ReturnParameters, Responses.PiggybackEnd, Rows.RowHeader, Rows.DecodeFrom;
    var s: seq<byte> := [1, 0, kind];
    assert Responses.Message(t, s, 2, false) == Some((Responses.Nothing, 3));
    assert Responses.Message(t, s, 2, o.want) == Some((Responses.Nothing, 3));
    assert Responses.DmlFrom(t, s, 3, Responses.DmlAnswer(0, 0)) == Success(Responses.DmlAnswer(0, 0));
    var a := Responses.BatchAnswer(0, None, []);
    assert Responses.BatchFrom(t, s, 3, o.want, o.tolerant, a) == Success(a);
  }

  lemma MarkerBody(kind: byte, large: bool)
    ensures Body(MarkerPacket(kind, large)) == [1, 0, kind]
    ensures Framed(MarkerPacket(kind, large), large) && MarkerPacket(kind, large)[4] == MARKER
  {
    hide Framed;
    HeaderFrames(HEADER_SIZE + 3, MARKER, large, [1, 0, kind]);
    assert MarkerPacket(kind, large)[HEADER_SIZE..] == [1, 0, kind];
  }

  /** A second interruption is worse than a failure: the marker's own bytes are parsed, and the DML
      statement, the batch with all its rows and the fetch are reported as successful, whatever
      the server was about to say. */
  lemma InterruptedTwiceSucceeds<V>(t: TextRules, o: BatchOptions, g: Rows.Setting<V>, cursorId: u16, ps: seq<seq<byte>>,
                                    k: nat, i: nat, last: nat, ms: seq<seq<byte>>, kind: byte, tail: seq<byte>, large: bool)
    requires CutByMarkers(ps, k, last, ms, large) && k < i <= last && MarkerKind(kind)
    ensures var stream := Flat(ps[..k]) + (Flat(ms) + (Flat(ps[k..i]) + (MarkerPacket(kind, large) + tail)));
      && DmlReply(t, stream, large) == (Success(Responses.DmlAnswer(0, 0)), tail)
      && BatchReply(t, o, stream, large) == (Success(Responses.BatchResult(0, o.size, 0, [], None)), tail)
      && FetchReply(g, cursorId, stream, large) == (Success(Rows.Fetched([], true, cursorId)), tail)
  {
    hide Exchange, CutByMarkers, Responses.Dml, Responses.Batch, Rows.ParseFetch, MarkerPacket, Flat, Framed, Body;
    MarkerBody(kind, large);
    SecondMarkerIsReturned(ps, k, i, last, ms, MarkerPacket(kind, large), tail, large);
    MarkerBodySucceeds(t, o, g, cursorId, kind);
  }

  /** Two markers and two packets of which the second is never read. */
  lemma TwiceInFull(t: TextRules)
    ensures DmlReply(t, BREAK + FRONT + BREAK + BACK, false) == (Success(Responses.DmlAnswer(0, 0)), BACK)
  {
    hide Exchange, Responses.Dml, MarkerPacket, DataPacket, Body;
    SecondMarkerInFull();
    MarkerBody(1, false);
    MarkerBodySucceeds(t, BatchOptions(0, false, false), Rows.Setting(EMPTY_CODEC, 0, false), 0, 1);
  }

  const EMPTY_CODEC: Rows.Codec<()> := Rows.Codec((col: nat, v: ()) => [], (col: nat, bs: seq<byte>) => Some(((), 0)), ())
}

/** The same as it is written. */
module ReplyCode {
  import opened Bytes
  import opened ErrorMessages
  import Recovery
  import opened Replies
  import ResponseParsers
  import Responses
  import RowDecoders
  import Rows
  import opened Transport
  import opened Wrappers

  /** The state that failing to receive leaves. */
  function StateAfter<T, E>(before: ConnectionState, r: Result<T, ReplyError<E>>): ConnectionState {
    if r.Failure? && r.error.NotReceived? && r.error.cause in {Recovery.Io, Recovery.ClosedDuringRecovery} then Closed
    else before
  }

  method ReceiveDml(connection: Connection, t: TextRules)
    returns (r: Result<Responses.DmlAnswer, ReplyError<Responses.ResponseError>>)
    modifies connection`incoming, connection`state, connection`sent
    ensures !connection.open ==> r == Failure(NotReceived(Recovery.ConnectionClosed))
    ensures connection.open ==>
      (r, connection.incoming) == DmlReply(t, old(connection.incoming), connection.largeSdu)
    ensures connection.state == StateAfter(old(connection.state), r)
  {
    hide Recovery.Exchange, Responses.Dml;
    var response := connection.ReceiveReply();
    if response.Failure? {
      return Failure(NotReceived(response.error));
    }
    var parsed := ResponseParsers.ParseDmlResponse(t, Recovery.Body(response.value));
    r := if parsed.Success? then Success(parsed.value) else Failure(Unusable(parsed.error));
  }

  method ReceiveBatch(connection: Connection, t: TextRules, o: BatchOptions)
    returns (r: Result<Responses.BatchResult, ReplyError<Responses.ResponseError>>)
    modifies connection`incoming, connection`state, connection`sent
    ensures !connection.open ==> r == Failure(NotReceived(Recovery.ConnectionClosed))
    ensures connection.open ==>
      (r, connection.incoming) == BatchReply(t, o, old(connection.incoming), connection.largeSdu)
    ensures connection.state == StateAfter(old(connection.state), r)
  {
    hide Recovery.Exchange, Responses.Batch;
    var response := connection.ReceiveReply();
    if response.Failure? {
      return Failure(NotReceived(response.error));
    }
    var parsed := ResponseParsers.ParseBatchResponse(t, Recovery.Body(response.value), o.size, o.want, o.tolerant);
    r := if parsed.Success? then Success(parsed.value) else Failure(Unusable(parsed.error));
  }

  method ReceiveFetch<V>(connection: Connection, g: Rows.Setting<V>, cursorId: u16)
    returns (r: Result<Rows.Fetched<V>, ReplyError<Rows.RowError>>)
    modifies connection`incoming, connection`state, connection`sent
    ensures !connection.open ==> r == Failure(NotReceived(Recovery.ConnectionClosed))
    ensures connection.open ==>
      (r, connection.incoming) == FetchReply(g, cursorId, old(connection.incoming), connection.largeSdu)
    ensures connection.state == StateAfter(old(connection.state), r)
  {
    hide Recovery.Exchange, Rows.ParseFetch;
    var response := connection.ReceiveReply();
    if response.Failure? {
      return Failure(NotReceived(response.error));
    }
    var parsed := RowDecoders.ParseFetchResponse(g, Recovery.Body(response.value), cursorId);
    r := if parsed.Success? then Success(parsed.value) else Failure(Unusable(parsed.error));
  }
}
