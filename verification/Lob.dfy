/** LOB operations from the stream to the answer. Behind a marker the recovered bytes go to a parser
    that returns errors only, and reads them from the wrong place. */
module LobReplies {
  import opened Bytes
  import opened ErrorMessages
  import opened Framing
  import opened Messages
  import opened Reads
  import opened Reassembly
  import opened Recovery
  import opened Texts
  import opened Wrappers
  import opened Writes

  /** What an operation asks for: the data, nothing, a number, or a flag. Reading and writing take a
      whole response, the others one packet. */
  datatype LobOperation = ReadLob | WriteLob | ChangeLob | LobNumber | LobFlag
  {
    predicate Whole() {
      ReadLob? || WriteLob?
    }
  }

  datatype LobAnswer = LobAnswer(data: Option<seq<byte>>, number: u64, flag: bool)

  datatype LobError =
    | NotReceived(cause: TransportError)
    | Unreadable(reason: ReadError)
    | Oracle(code: nat, message: Text)
    | LobFailed

  const NOTHING := LobAnswer(None, 0, false)
  const LOB_ERROR := "LOB error"
  const UNKNOWN_LOB_ERROR := "Unknown LOB error"

  /** A parameter message: the locator, as long as the one that was sent, and what was asked for. */
  function Returned(op: LobOperation, locator: nat, s: seq<byte>, p: nat, a: LobAnswer): (r: Reading<LobAnswer>)
    requires p <= |s|
    ensures p <= r.pos <= |s|
  {
    var skipped := Skip(s, p, locator);
    if !skipped.Ok() then skipped.Fail()
    else
      match op
      case ReadLob =>
        var n := Ub64(s, skipped.pos);
        if n.Ok() then Reading(Success(a), n.pos) else n.Fail()
      case LobNumber =>
        var n := Ub64(s, skipped.pos);
        if n.Ok() then Reading(Success(a.(number := n.Value())), n.pos) else n.Fail()
      case LobFlag =>
        var b := U8(s, skipped.pos);
        if b.Ok() then Reading(Success(a.(flag := b.Value() > 0)), b.pos) else b.Fail()
      case _ => Reading(Success(a), skipped.pos)
  }

  /** The messages of a response from `p` on. An error message that cannot be read is left where the
      reading stopped, and the loop goes on there. */
  function LobFrom(t: TextRules, op: LobOperation, locator: nat, s: seq<byte>, p: nat, a: LobAnswer)
    : Result<LobAnswer, LobError>
    decreases |s| - p
  {
    if p >= |s| then Success(a)
    else
      var kind, b := s[p], p + 1;
      if kind == LOB_DATA && op == ReadLob then
        var data := RawBytesChunked(s, b);
        if data.Ok() then LobFrom(t, op, locator, s, data.pos, a.(data := Some(data.Value())))
        else Failure(Unreadable(data.result.error))
      else if kind == PARAMETER then
        var r := Returned(op, locator, s, b, a);
        if r.Ok() then LobFrom(t, op, locator, s, r.pos, r.Value()) else Failure(Unreadable(r.result.error))
      else if kind == ERROR then
        var e := ErrorMessage(t, s, b, false);
        if e.Ok() && e.Value().code != 0 then Failure(Oracle(e.Value().code, e.Value().message.GetOr(Ascii(LOB_ERROR))))
        else LobFrom(t, op, locator, s, e.pos, a)
      else if kind == END_OF_RESPONSE_MESSAGE then Success(a)
      else LobFrom(t, op, locator, s, b, a)
  }

  function Lob(t: TextRules, op: LobOperation, locator: nat, payload: seq<byte>): Result<LobAnswer, LobError> {
    var flags := Skip(payload, 0, 2);
    if flags.Ok() then LobFrom(t, op, locator, payload, 2, NOTHING) else Failure(Unreadable(flags.result.error))
  }

  /** The parser for what comes behind a marker. It has errors only to return, and it takes the type
      byte of the first message for the start of an error message. */
  function LobFailure(t: TextRules, payload: seq<byte>): LobError {
    var flags := Skip(payload, 0, 2);
    if !flags.Ok() then Unreadable(flags.result.error)
    else
      var e := ErrorMessage(t, payload, 2, false);
      if e.Ok() then Oracle(e.Value().code, e.Value().message.GetOr(Ascii(UNKNOWN_LOB_ERROR))) else LobFailed
  }

  /** The response to an operation: all of it, or its first packet. */
  function FirstReply(op: LobOperation, stream: seq<byte>, large: bool): Answer {
    if op.Whole() then Response(stream, large)
    else
      match Next(stream, large)
      case Packet(p, rest) => Answer(Success(p), rest)
      case Broken => Answer(Failure(Io), [])
  }

  function LobReply(t: TextRules, op: LobOperation, locator: nat, stream: seq<byte>, large: bool)
    : (Result<LobAnswer, LobError>, seq<byte>)
  {
    var first := FirstReply(op, stream, large);
    if first.result.Failure? then (Failure(NotReceived(first.result.error)), first.rest)
    else
      var response := first.result.value;
      if |response| <= HEADER_SIZE then (Failure(NotReceived(EmptyResponse)), first.rest)
      else if response[4] == MARKER then
        var a := AwaitReset(first.rest, [], large);
        (Failure(if a.result.Success? then LobFailure(t, Body(a.result.value)) else NotReceived(a.result.error)), a.rest)
      else (Lob(t, op, locator, Body(response)), first.rest)
  }

  // ---- A marked operation fails --------------------------------------------------------

  /** Whatever bytes are recovered, and whatever the operation, a marker in front makes it fail. */
  lemma MarkedLobFails(t: TextRules, op: LobOperation, locator: nat, m: seq<byte>, rest: seq<byte>, large: bool)
    requires Framed(m, large) && m[4] == MARKER
    ensures LobReply(t, op, locator, m + rest, large).0.Failure?
  {
    hide AwaitReset, LobFailure, Lob, Framed, Rebuilt, Body;
    NextOfFramed(m, rest, large);
    assert Gather(m + rest, [], large) == Other(m, [], rest);
  }

  lemma {:induction false} LobErrors(t: TextRules, op: LobOperation, locator: nat, s: seq<byte>, p: nat, a: LobAnswer)
    ensures var r := LobFrom(t, op, locator, s, p, a); r.Failure? ==> r.error.Unreadable? || r.error.Oracle?
    decreases |s| - p
  {
    hide ErrorMessage, RawBytesChunked, Returned;
    if p < |s| {
      var kind, b := s[p], p + 1;
      if kind == LOB_DATA && op == ReadLob {
        LobErrors(t, op, locator, s, RawBytesChunked(s, b).pos,
                  if RawBytesChunked(s, b).Ok() then a.(data := Some(RawBytesChunked(s, b).Value())) else a);
      } else if kind == PARAMETER {
        var r := Returned(op, locator, s, b, a);
        if r.Ok() {
          LobErrors(t, op, locator, s, r.pos, r.Value());
        }
      } else if kind == ERROR {
        LobErrors(t, op, locator, s, ErrorMessage(t, s, b, false).pos, a);
      } else if kind != END_OF_RESPONSE_MESSAGE {
        LobErrors(t, op, locator, s, b, a);
      }
    }
  }

  lemma LobAnswersErrors(t: TextRules, op: LobOperation, locator: nat, payload: seq<byte>)
    ensures var r := Lob(t, op, locator, payload); r.Failure? ==> r.error.Unreadable? || r.error.Oracle?
  {
    hide LobFrom;
    LobErrors(t, op, locator, payload, 2, NOTHING);
  }

  lemma LobUncut(t: TextRules, op: LobOperation, locator: nat, ps: seq<seq<byte>>, last: nat, tail: seq<byte>, large: bool)
    requires op.Whole() && AllData(ps) && AllFramed(ps, large) && FirstComplete(ps, last)
    ensures LobReply(t, op, locator, Flat(ps) + tail, large)
         == (Lob(t, op, locator, Joined(ps[..last + 1])), Flat(ps[last + 1..]) + tail)
  {
    hide Response, Flat, Framed, CompleteAt, Joined, Lob, LobFailure, Rebuilt, Body;
    LobUninterrupted(ps, last, tail, large);
    JoinedIsFlagsAndBodies(ps[..last + 1]);
    BodyOfRebuilt(Joined(ps[..last + 1]), large);
  }

  lemma LobCut(t: TextRules, op: LobOperation, locator: nat, ps: seq<seq<byte>>, k: nat, last: nat, ms: seq<seq<byte>>,
               tail: seq<byte>, large: bool)
    requires op.Whole() && CutByMarkers(ps, k, last, ms, large)
    ensures var a := Response(Flat(ps[k..]) + tail, large);
      LobReply(t, op, locator, Interrupted(ps, k, ms, tail), large) ==
        (Failure(if a.result.Success? then LobFailure(t, Body(a.result.value)) else NotReceived(a.result.error)), a.rest)
  {
    hide Gather, Flat, Framed, Joined, CompleteAt, AwaitReset, Interrupted, Rebuilt, Lob, LobFailure, Body;
    GatherUpToMarker(ps, k, ms, tail, large);
    MarkerTail(ms, large);
    DataComesNext(ps, k, tail, large);
    AwaitResetSkips(ms[1..], Flat(ps[k..]) + tail, [], large);
  }

  /** The packets behind the cut, taken as a response of their own, come to the error that the whole
      response reports. */
  ghost predicate SameLobFailure(t: TextRules, op: LobOperation, locator: nat, ps: seq<seq<byte>>, k: nat, last: nat)
    requires AllData(ps) && k <= last < |ps|
  {
    && AllData(ps[k..]) && FirstComplete(ps[k..], last - k)
    && Lob(t, op, locator, Joined(ps[..last + 1])) == Failure(LobFailure(t, Joined(ps[k..][..last - k + 1])))
  }

  /** A LOB operation that markers interrupt always fails. It fails as the uninterrupted one does
      exactly if the packets behind the cut are complete where all of them are, and the error read
      from their type byte on is the one that the whole response reports. */
  lemma InterruptedLobExactly(t: TextRules, op: LobOperation, locator: nat, ps: seq<seq<byte>>, k: nat, last: nat,
                              ms: seq<seq<byte>>, tail: seq<byte>, large: bool)
    requires op.Whole() && CutByMarkers(ps, k, last, ms, large)
    ensures LobReply(t, op, locator, Interrupted(ps, k, ms, tail), large).0.Failure?
    ensures SameLobFailure(t, op, locator, ps, k, last) <==>
      LobReply(t, op, locator, Interrupted(ps, k, ms, tail), large) == LobReply(t, op, locator, Flat(ps) + tail, large)
  {
    hide Response, Flat, Framed, CompleteAt, Joined, Interrupted, Rebuilt, Lob, LobFailure, Body, LobReply, AllMarkers;
    LobCut(t, op, locator, ps, k, last, ms, tail, large);
    LobUncut(t, op, locator, ps, last, tail, large);
    LobAnswersErrors(t, op, locator, Joined(ps[..last + 1]));
    AllDataPart(ps, k, large);
    if FirstComplete(ps[k..], last - k) {
      LobRest(ps, k, last, tail, large);
      BodyOfRebuilt(Joined(ps[k..][..last - k + 1]), large);
    } else {
      ElsewhereDiffers(ps, k, last, tail, large);
    }
  }

  /** What is complete elsewhere, or never, leaves another rest, or none at all. */
  lemma ElsewhereDiffers(ps: seq<seq<byte>>, k: nat, last: nat, tail: seq<byte>, large: bool)
    requires AllData(ps) && AllFramed(ps, large) && FirstComplete(ps, last) && k <= last
    requires AllData(ps[k..]) && !FirstComplete(ps[k..], last - k)
    ensures var a := Response(Flat(ps[k..]) + tail, large);
      a.result.Success? ==> a.rest != Flat(ps[last + 1..]) + tail
  {
    hide Gather, Flat, Framed, Joined, CompleteAt, Rebuilt;
    var q := ps[k..];
    AllDataPart(ps, k, large);
    BodiesEmpty();
    assert q[0..] == q && q[..0] == [];
    if j: nat :| j < |q| && CompleteAt(q, j) {
      var first := FirstCompleteBelow(q, j);
      GatherFrom(q, 0, first, tail, large);
      assert q[first + 1..] == ps[k + first + 1..];
      if Flat(ps[k + first + 1..]) + tail == Flat(ps[last + 1..]) + tail {
        SameRest(ps, k + first + 1, last + 1, tail);
      }
    } else {
      GatherIncomplete(q, 0, tail, large);
      GatherConsumes(tail, Joined(q), large);
    }
  }

  // ---- What the error says -------------------------------------------------------------

  /** A first message whose type, low seven bits taken, is more than four: nothing of it is read, and
      the error says only that the operation failed. That is every kind but an error message. */
  lemma OtherMessageIsLost(t: TextRules, payload: seq<byte>)
    requires |payload| >= 3 && payload[2] % 0x80 > 4
    ensures LobFailure(t, payload) == LobFailed
  {
    assert !Ub(payload, 2, 4).Ok();
  }

  /** And that is never what the response would have come to without the marker. */
  lemma LostDiffers(t: TextRules, op: LobOperation, locator: nat, payload: seq<byte>, rest: seq<byte>)
    requires LobFailure(t, rest) == LobFailed
    ensures Lob(t, op, locator, payload) != Failure(LobFailure(t, rest))
  {
    hide Lob, LobFailure;
    LobAnswersErrors(t, op, locator, payload);
  }

  /** An error message that reports a failure, with nothing in it but the cursor, the code and a
      text, read from its type byte on: that byte announces a number of four bytes, the fields of
      the head are taken for those three further on, and the code comes to be the length of a list
      that the text does not fit. Code and text are lost. */
  lemma FailureIsLost(t: TextRules, e: PlainEnd, flags: seq<byte>, rest: seq<byte>)
    requires |flags| == 2 && e.rowCount == 0 && e.code > 0 && LengthPrefixed(e.text)[0] % 0x80 > 4
    ensures LobFailure(t, flags + ([ERROR] + EndBytes(e, true)) + rest) == LobFailed
  {
    hide EndBytes, Head, BatchLists, At, LengthPrefixed, UbBytes, Zeros;
    var s := flags + ([ERROR] + EndBytes(e, true)) + rest;
    assert s == flags + (([ERROR] + EndBytes(e, true)) + rest);
    AfterFlags(flags, ([ERROR] + EndBytes(e, true)) + rest, s);
    var q := MisreadHead(e, s, 2, rest);
    MisreadLists(t, e, s, q, rest);
  }

  /** Without a marker the same message is reported: if its text does not come first, the code and
      the text that are found in the response. */
  lemma FailureIsReported(t: TextRules, op: LobOperation, locator: nat, e: PlainEnd, flags: seq<byte>, rest: seq<byte>)
    requires |flags| == 2 && e.code > 0
    ensures var s := flags + ([ERROR] + EndBytes(e, true)) + rest;
      var (code, message) := Named(t, s, e.code, Some(t.trim([])));
      code != 0 ==> Lob(t, op, locator, s) == Failure(Oracle(code, message.GetOr(Ascii(LOB_ERROR))))
  {
    hide EndBytes, FrontAt, FieldsAt, Named, At, UbBytes, Ascii, RowErrors, Returned, RawBytesChunked;
    var s := flags + ([ERROR] + EndBytes(e, true)) + rest;
    assert s == flags + ([ERROR] + (EndBytes(e, true) + rest));
    AfterFlags(flags, [ERROR] + (EndBytes(e, true) + rest), s);
    AtSplit(s, 2, [ERROR], EndBytes(e, true) + rest);
    TypeByte(s, 2);
    AtSplit(s, 3, EndBytes(e, true), rest);
    PlainFront(t, e, s, 3, true);
    FieldsByFront(t, s, 3, false);
    EmptyText(s, FrontAt(t, s, 3).pos);
  }

  lemma AfterFlags(flags: seq<byte>, w: seq<byte>, s: seq<byte>)
    requires s == flags + w
    ensures At(s, |flags|, w) && |flags| <= |s|
  {
  }

  lemma MisreadHead(e: PlainEnd, s: seq<byte>, p: nat, rest: seq<byte>) returns (q: nat)
    requires e.rowCount == 0 && e.code > 0 && At(s, p, ([ERROR] + EndBytes(e, true)) + rest)
    ensures p < q <= |s| && Head(s, p) == Reading(Success(0), q)
    ensures At(s, q, UbBytes(e.code) + (UbBytes(0) + (Zeros(2) + (LengthPrefixed(e.text) + rest))))
  {
    hide UbBytes, LengthPrefixed, At, Zeros, Ub, SkipUb, Pow256, ZerosAt, HeadStart, HeadCursor, HeadFlags, HeadCounters,
      Chunked;
    Pow256Values();
    var w3 := UbBytes(e.code) + (UbBytes(0) + (Zeros(2) + (LengthPrefixed(e.text) + rest)));
    var w2 := Zeros(21) + w3;
    var w1 := UbBytes(e.cursorId) + w2;
    EndRegroup(e, rest);
    AtSplit(s, p, [ERROR], Zeros(6) + w1);
    TypeByte(s, p);
    ZerosBefore(s, p + 1, 6, w1);
    UbAt(e.cursorId, 2, s, p + 7, w2);
    var c := p + 7 + |UbBytes(e.cursorId)|;
    SkipAsRead(s, p + 7);
    ZerosBefore(s, c, 21, w3);
    MisreadStart(s, p, c);
    MisreadMiddle(s, c);
    q := c + 21;
  }

  lemma MisreadLists(t: TextRules, e: PlainEnd, s: seq<byte>, q: nat, rest: seq<byte>)
    requires e.code > 0 && LengthPrefixed(e.text)[0] % 0x80 > 4 && q <= |s|
    requires At(s, q, UbBytes(e.code) + (UbBytes(0) + (Zeros(2) + (LengthPrefixed(e.text) + rest))))
    ensures !BatchLists(t, s, q).Ok()
  {
    hide UbBytes, LengthPrefixed, Zeros, At, Pow256, ZerosAt, Ub, Numbers, TextList;
    Pow256Values();
    var w := LengthPrefixed(e.text) + rest;
    UbAt(e.code, 4, s, q, UbBytes(0) + (Zeros(2) + w));
    var d := q + |UbBytes(e.code)|;
    UbAt(0, 8, s, d, Zeros(2) + w);
    OneZero(s, d);
    ZerosBefore(s, d + 1, 2, w);
    PrefixNotEmpty(e.text);
    FirstOf(s, d + 3, LengthPrefixed(e.text), rest);
    if Ub(s, q, 2).Ok() {
      NarrowUb(s, q);
      TextDoesNotFit(t, s, d + 1, e.code);
    }
  }

  lemma PrefixNotEmpty(x: Option<seq<byte>>)
    ensures LengthPrefixed(x) != []
  {
  }

  lemma OneZero(s: seq<byte>, p: nat)
    ensures |UbBytes(0)| == 1
  {
  }

  lemma FirstOf(s: seq<byte>, p: nat, w: seq<byte>, rest: seq<byte>)
    requires At(s, p, w + rest) && w != []
    ensures p < |s| && s[p] == w[0]
  {
    assert (w + rest)[0] == w[0];
  }

  lemma NarrowUb(s: seq<byte>, p: nat)
    requires p <= |s| && Ub(s, p, 2).Ok()
    ensures Ub(s, p, 4) == Ub(s, p, 2)
  {
  }

  /** Two zeros and then a byte that announces more than four: one of the three lists starts or goes
      on there and cannot be read. */
  lemma TextDoesNotFit(t: TextRules, s: seq<byte>, p: nat, count: nat)
    requires ZerosAt(s, p, 2) && p + 2 < |s| && s[p + 2] % 0x80 > 4 && count > 0
    ensures var codes := Numbers(s, p, count, 2, []);
      codes.Ok() ==> (var rows := NumberList(s, codes.pos, 4); rows.Ok() ==> !TextList(t, s, rows.pos).Ok())
  {
    hide Numbers, Ub;
    UbZero(s, p, 2);
    UbZero(s, p + 1, 2);
    UbZero(s, p + 1, 4);
    TooLong(s, p + 2);
    NumbersStep(s, p, count, []);
    if count == 1 {
      NumbersDone(s, p + 1, [] + [0]);
      assert NumberList(s, p + 1, 4) == Reading(Success([]), p + 2);
    } else {
      NumbersStep(s, p + 1, count - 1, [] + [0]);
      if count == 2 {
        NumbersDone(s, p + 2, [] + [0] + [0]);
      } else {
        NumbersStep(s, p + 2, count - 2, [] + [0] + [0]);
      }
    }
  }

  lemma TooLong(s: seq<byte>, p: nat)
    requires p < |s| && s[p] % 0x80 > 4
    ensures !Ub(s, p, 2).Ok() && !Ub(s, p, 4).Ok()
  {
  }

  lemma NumbersStep(s: seq<byte>, p: nat, count: nat, acc: seq<nat>)
    requires p <= |s| && count > 0
    ensures var n := Ub(s, p, 2);
      Numbers(s, p, count, 2, acc) == if n.Ok() then Numbers(s, n.pos, count - 1, 2, acc + [n.Value()]) else n.Fail()
  {
    hide Ub;
  }

  lemma NumbersDone(s: seq<byte>, p: nat, acc: seq<nat>)
    requires p <= |s|
    ensures Numbers(s, p, 0, 2, acc) == Reading(Success(acc), p)
  {
  }

  lemma EndRegroup(e: PlainEnd, rest: seq<byte>)
    requires e.rowCount == 0 && e.code > 0
    ensures ([ERROR] + EndBytes(e, true)) + rest == [ERROR] + (Zeros(6) + (UbBytes(e.cursorId) + (Zeros(21)
            + (UbBytes(e.code) + (UbBytes(0) + (Zeros(2) + (LengthPrefixed(e.text) + rest)))))))
  {
    hide LengthPrefixed, Zeros;
    var x, z := LengthPrefixed(e.text), Zeros(2);
    var a4, b4 := UbBytes(0) + (z + x), UbBytes(0) + (z + (x + rest));
    assert a4 + rest == b4;
    var a3, b3 := UbBytes(e.code) + a4, UbBytes(e.code) + b4;
    assert a3 + rest == b3;
    var a2, b2 := Zeros(21) + a3, Zeros(21) + b3;
    assert a2 + rest == b2;
    var a1, b1 := UbBytes(e.cursorId) + a2, UbBytes(e.cursorId) + b2;
    assert a1 + rest == b1;
    var a0, b0 := Zeros(6) + a1, Zeros(6) + b1;
    assert a0 + rest == b0;
  }

  lemma TypeByte(s: seq<byte>, p: nat)
    requires At(s, p, [ERROR])
    ensures p < |s| && s[p] == ERROR
  {
    assert [ERROR][0] == ERROR;
  }

  lemma SkipAsRead(s: seq<byte>, p: nat)
    requires p <= |s| && Ub(s, p, 2).Ok()
    ensures SkipUb(s, p) == Reading(Success(()), Ub(s, p, 2).pos)
  {
  }

  /** The type byte makes a number of four bytes; then two zeros, the cursor and two zeros more. */
  lemma MisreadStart(s: seq<byte>, p: nat, c: nat)
    requires p < |s| && s[p] == ERROR && ZerosAt(s, p + 1, 6) && SkipUb(s, p + 7) == Reading(Success(()), c)
    requires c <= |s| && ZerosAt(s, c, 21)
    ensures HeadStart(s, p) == Reading(Success(()), c + 2)
  {
    hide SkipUb, SkipUbs;
    assert Ub(s, p, 4).Ok() && Ub(s, p, 4).pos == p + 5;
    TwoZerosThen(s, p + 5, 3);
    UnfoldSkip(s, p + 7, 3);
    SkipZeros(s, c, 2);
  }

  lemma UnfoldSkip(s: seq<byte>, p: nat, n: nat)
    requires p <= |s| && n > 0
    ensures var one := SkipUb(s, p); SkipUbs(s, p, n) == if one.Ok() then SkipUbs(s, one.pos, n - 1) else one
  {
  }

  lemma TwoZerosThen(s: seq<byte>, p: nat, n: nat)
    requires ZerosAt(s, p, 2)
    ensures SkipUbs(s, p, n + 2) == SkipUbs(s, p + 2, n)
  {
    hide SkipUbs;
    UnfoldSkip(s, p, n + 2);
    UnfoldSkip(s, p + 1, n + 1);
  }

  lemma MisreadMiddle(s: seq<byte>, c: nat)
    requires ZerosAt(s, c, 21)
    ensures HeadCursor(s, c + 2) == Reading(Success(0), c + 4)
    ensures HeadFlags(s, c + 4) == Reading(Success(()), c + 13)
    ensures HeadCounters(s, c + 13) == Reading(Success(()), c + 20)
    ensures Chunked(s, c + 20, 4) == Reading(Success(()), c + 21)
  {
    hide Ub, SkipUb, SkipUbs;
    UbZero(s, c + 20, 4);
    UbZero(s, c + 2, 2);
    UbZero(s, c + 3, 2);
    SkipZeros(s, c + 10, 2);
    SkipZeros(s, c + 13, 3);
    SkipZeros(s, c + 18, 2);
  }
}

/** The parsers as they are written, and the end of an operation. */
module LobCode {
  import opened Bytes
  import ErrorMessageCode
  import opened ErrorMessages
  import opened Framing
  import opened LobReplies
  import opened Messages
  import opened ReadBuffers
  import opened Reads
  import Recovery
  import opened Texts
  import opened Transport
  import opened Wrappers

  method ReadReturned(op: LobOperation, locator: nat, buf: ReadBuffer, a: LobAnswer)
    returns (r: Result<LobAnswer, ReadError>)
    requires buf.Valid()
    modifies buf
    ensures buf.Valid() && Reading(r, buf.pos) == Returned(op, locator, buf.data, old(buf.pos), a)
  {
    hide Ub;
    var _ :- buf.SkipBytes(locator);
    match op {
      case ReadLob =>
        var _ :- buf.ReadUb8();
        return Success(a);
      case LobNumber =>
        ghost var start := buf.pos;
        var n := buf.ReadUb8();
        if n.Failure? {
          return Failure(n.error);
        }
        UbBound(buf.data, start, 8);
        return Success(a.(number := n.value));
      case LobFlag =>
        var flag :- buf.ReadU8();
        return Success(a.(flag := flag > 0));
      case _ => return Success(a);
    }
  }

  /** The loop that the parsers of the operations have in common. */
  method ParseLobResponse(t: TextRules, op: LobOperation, locator: nat, payload: seq<byte>)
    returns (r: Result<LobAnswer, LobError>)
    ensures r == Lob(t, op, locator, payload)
  {
    hide ErrorMessage, RawBytesChunked, Returned, Ascii;
    var buf := new ReadBuffer(payload);
    var flags := buf.SkipBytes(2);
    if flags.Failure? {
      return Failure(Unreadable(flags.error));
    }
    var answer, done := NOTHING, false;
    while !done && buf.Remaining() > 0
      invariant buf.Valid() && fresh(buf) && buf.data == payload
      invariant Lob(t, op, locator, payload)
             == if done then Success(answer) else LobFrom(t, op, locator, payload, buf.pos, answer)
      decreases !done, |payload| - buf.pos
    {
      var kind := buf.ReadU8();
      if kind.value == LOB_DATA && op == ReadLob {
        var data := buf.ReadRawBytesChunked();
        if data.Failure? {
          return Failure(Unreadable(data.error));
        }
        answer := answer.(data := Some(data.value));
      } else if kind.value == PARAMETER {
        var returned := ReadReturned(op, locator, buf, answer);
        if returned.Failure? {
          return Failure(Unreadable(returned.error));
        }
        answer := returned.value;
      } else if kind.value == ERROR {
        var info := ErrorMessageCode.ParseErrorInfo(t, buf, false);
        if info.Success? && info.value.code != 0 {
          return Failure(Oracle(info.value.code, info.value.message.GetOr(Ascii(LOB_ERROR))));
        }
      } else if kind.value == END_OF_RESPONSE_MESSAGE {
        done := true;
      }
    }
    return Success(answer);
  }

  /** What a marker leads to. */
  method ParseLobError(t: TextRules, payload: seq<byte>) returns (e: LobError)
    ensures e == LobFailure(t, payload)
  {
    hide ErrorMessage, Ascii;
    var buf := new ReadBuffer(payload);
    var flags := buf.SkipBytes(2);
    if flags.Failure? {
      return Unreadable(flags.error);
    }
    var info := ErrorMessageCode.ParseErrorInfo(t, buf, false);
    if info.Success? {
      return Oracle(info.value.code, info.value.message.GetOr(Ascii(UNKNOWN_LOB_ERROR)));
    }
    return LobFailed;
  }

  /** An operation from its response on. */
  method ReceiveLob(connection: Connection, t: TextRules, op: LobOperation, locator: nat)
    returns (r: Result<LobAnswer, LobError>)
    modifies connection`incoming, connection`state, connection`sent
    ensures !connection.open ==> r == Failure(NotReceived(Recovery.ConnectionClosed))
    ensures connection.open ==>
      (r, connection.incoming) == LobReply(t, op, locator, old(connection.incoming), connection.largeSdu)
    ensures connection.open ==>
      var first := FirstReply(op, old(connection.incoming), connection.largeSdu).result;
      var marked := first.Success? && |first.value| > HEADER_SIZE && first.value[4] == MARKER;
      connection.sent == old(connection.sent)
                       + if marked then Recovery.MarkerPacket(Recovery.RESET, connection.largeSdu) else []
    ensures connection.state ==
      if r.Failure? && r.error.NotReceived? && r.error.cause in {Recovery.Io, Recovery.ClosedDuringRecovery}
      then Closed else old(connection.state)
  {
    hide Lob, LobFailure, Recovery.AwaitReset, Recovery.Response;
    var response;
    if op.Whole() {
      response := connection.ReceiveResponse();
    } else {
      response := connection.Receive();
    }
    if response.Failure? {
      return Failure(NotReceived(response.error));
    }
    if |response.value| <= HEADER_SIZE {
      return Failure(NotReceived(Recovery.EmptyResponse));
    }
    if response.value[4] == MARKER {
      var recovered := connection.HandleMarkerReset([]);
      if recovered.Failure? {
        return Failure(NotReceived(recovered.error));
      }
      var e := ParseLobError(t, Recovery.Body(recovered.value));
      LobFailureHasBytes(t, Recovery.Body(recovered.value));
      return Failure(e);
    }
    LobAnswersErrors(t, op, locator, Recovery.Body(response.value));
    r := ParseLobResponse(t, op, locator, Recovery.Body(response.value));
  }

  lemma LobFailureHasBytes(t: TextRules, payload: seq<byte>)
    ensures !LobFailure(t, payload).NotReceived?
  {
    hide ErrorMessage, Ascii;
  }
}
