/** The response to a query, and the two parsers it may go to: behind a marker it goes to one that
    knows error messages only. */
module QueryResponses {
  import opened Bytes
  import opened ErrorMessages
  import opened Framing
  import opened Messages
  import opened Reads
  import opened Reassembly
  import opened Recovery
  import Responses
  import Rows
  import opened ServerMessages
  import opened Texts
  import WireFormat
  import opened Wrappers
  import opened Writes

  /** What the parsers are given besides the bytes. A column description is what the bytes behind
      its length-prefixed head say: the columns and how many bytes that took. */
  datatype Formats<!C, !V> = Formats(
    describe: seq<byte> -> Option<(seq<C>, nat)>,
    codec: seq<C> -> Rows.Codec<V>,
    text: TextRules)

  datatype QueryError =
    | NotReceived(cause: TransportError)
    | EmptyReply
    | QueryTooShort
    | ErrorTooShort
    | Malformed
    | BadError(reason: ReadError)
    | NotAnError(kind: byte)
    | Oracle(code: nat, message: Text)

  datatype QueryAnswer<C, V> = QueryAnswer(
    columns: seq<C>, rows: seq<seq<V>>, rowsAffected: u64, hasMoreRows: bool, cursorId: u16)

  /** The parser between two messages. */
  datatype State<C, V> = State(columns: seq<C>, rows: seq<seq<V>>, bv: Option<seq<byte>>, prev: Option<seq<V>>)

  /** What the message that ends a query comes to. */
  function Ended<C, V>(e: ErrorInfo, st: State<C, V>): Result<QueryAnswer<C, V>, QueryError> {
    if Responses.Fatal(e.code) then Failure(Oracle(e.code, e.message.GetOr([])))
    else Success(QueryAnswer(st.columns, st.rows, e.rowCount, e.cursorId != 0 && e.code != 1403, e.cursorId))
  }

  function Unended<C, V>(st: State<C, V>): QueryAnswer<C, V> {
    QueryAnswer(st.columns, st.rows, 0, false, 0)
  }

  /** A column description: a length-prefixed head that is skipped, then the columns. */
  function Described<C, V>(g: Formats<C, V>, s: seq<byte>, p: nat): (r: Option<(seq<C>, nat)>)
    requires p <= |s|
    ensures r.Some? ==> p <= r.value.1 <= |s|
  {
    var head := SkipRawBytesChunked(s, p);
    if !head.Ok() then None
    else
      match g.describe(s[head.pos..])
      case Some((columns, n)) => if n <= |s| - head.pos then Some((columns, head.pos + n)) else None
      case None => None
  }

  /** A status message. */
  function StatusEnd(s: seq<byte>, p: nat): (r: Option<nat>)
    requires p <= |s|
    ensures r.Some? ==> p <= r.value <= |s|
  {
    var status := Ub(s, p, 4);
    if !status.Ok() then None
    else
      var sequence := Ub(s, status.pos, 2);
      if sequence.Ok() then Some(sequence.pos) else None
  }

  /** Messages that a query's parser passes over. A row header is one of them: the bit vector in it
      is not looked at. */
  predicate Passed(kind: byte) {
    kind in {ROW_HEADER, PARAMETER, PIGGYBACK, STATUS}
  }

  function PassedEnd(t: TextRules, s: seq<byte>, p: nat): (r: Option<nat>)
    requires p < |s|
    ensures r.Some? ==> p < r.value <= |s|
  {
    var kind, b := s[p], p + 1;
    if kind == ROW_HEADER then
      var h := Rows.RowHeader(s, b);
      if h.Ok() then Some(h.pos) else None
    else if kind == PARAMETER then
      match Responses.ReturnParameters(t, s, b, false)
      case Some((_, q)) => Some(q)
      case None => None
    else if kind == PIGGYBACK then Responses.PiggybackEnd(s, b)
    else if kind == STATUS then StatusEnd(s, b)
    else None
  }

  /** One message other than the end of the query, its type byte at `p`: the new state and where
      the next message starts. */
  function Step<C, V>(g: Formats<C, V>, s: seq<byte>, p: nat, st: State<C, V>): (r: Option<(State<C, V>, nat)>)
    requires p < |s|
    ensures r.Some? ==> p < r.value.1 <= |s|
  {
    var kind, b := s[p], p + 1;
    if kind == DESCRIBE_INFO then
      match Described(g, s, b)
      case Some((columns, q)) => Some((st.(columns := columns), q))
      case None => None
    else if kind == ROW_DATA then
      match Rows.DecodeFrom(g.codec(st.columns), |st.columns|, 0, s, b, st.bv, st.prev)
      case Some((vs, q)) =>
        if b <= q <= |s| then Some((State(st.columns, st.rows + [vs], None, Some(vs)), q)) else None
      case None => None
    else if kind == BIT_VECTOR then
      var v := Rows.VectorMessage(s, b, |st.columns|);
      if v.Ok() then Some((st.(bv := Rows.Pending(v.Value(), st.bv)), v.pos)) else None
    else
      match PassedEnd(g.text, s, p)
      case Some(q) => Some((st, q))
      case None => None
  }

  predicate Known(kind: byte) {
    kind in {DESCRIBE_INFO, ROW_DATA, BIT_VECTOR} || Passed(kind)
  }

  function QueryFrom<C, V>(g: Formats<C, V>, s: seq<byte>, p: nat, st: State<C, V>): Result<QueryAnswer<C, V>, QueryError>
    decreases |s| - p
  {
    if p >= |s| then Success(Unended(st))
    else if s[p] == ERROR then
      var e := ErrorMessage(g.text, s, p + 1, true);
      if e.Ok() then Ended(e.Value(), st) else Failure(BadError(e.result.error))
    else if !Known(s[p]) then Success(Unended(st))
    else
      match Step(g, s, p, st)
      case None => Failure(Malformed)
      case Some((next, q)) => QueryFrom(g, s, q, next)
  }

  /** The parser of a query response, with the columns if they are known already. */
  function Query<C, V>(g: Formats<C, V>, known: seq<C>, payload: seq<byte>): Result<QueryAnswer<C, V>, QueryError> {
    if |payload| < 3 then Failure(QueryTooShort)
    else QueryFrom(g, payload, 2, State(known, [], None, None))
  }

  /** The parser that a response behind a marker goes to: it has errors only to return. */
  function ErrorReply<C, V>(g: Formats<C, V>, payload: seq<byte>): QueryError {
    if |payload| < 3 then ErrorTooShort
    else if payload[2] != ERROR then NotAnError(payload[2])
    else
      var e := ErrorMessage(g.text, payload, 3, false);
      if e.Ok() then Oracle(e.Value().code, e.Value().message.GetOr(OraText(e.Value().code)))
      else BadError(e.result.error)
  }

  /** A query from its response on: the answer and the unread rest of the stream. */
  function QueryExchange<C, V>(g: Formats<C, V>, known: seq<C>, stream: seq<byte>, large: bool)
    : (Result<QueryAnswer<C, V>, QueryError>, seq<byte>)
  {
    var received := Gather(stream, [], large);
    if StoppedByMarker(received) then
      var a := AwaitReset(received.rest, received.partial, large);
      (Failure(if a.result.Failure? then NotReceived(a.result.error) else ErrorReply(g, Body(a.result.value))), a.rest)
    else
      var a := Deliver(received, large);
      (if a.result.Failure? then Failure(NotReceived(a.result.error))
       else if |a.result.value| <= HEADER_SIZE then Failure(EmptyReply)
       else Query(g, known, Body(a.result.value)),
       a.rest)
  }

  // ---- The rows of a query -------------------------------------------------------------

  /** A row header's mask is not looked at, so a row behind one must be sent in full. */
  ghost predicate HeaderRowsFull<V>(rs: seq<Rows.SentRow<V>>) {
    forall r | r in rs && r.delivery.InHeader? :: forall j | 0 <= j < |r.sent| :: r.sent[j]
  }

  /** The bit vector that is pending once the mask of a row has arrived. */
  function PendingVector(sent: seq<bool>, d: Rows.Delivery): Option<seq<byte>> {
    if d.InHeader? then None else Rows.ArrivedVector(sent, d)
  }

  lemma AfterMask<C, V(!new)>(g: Formats<C, V>, r: Rows.SentRow<V>, s: seq<byte>, p: nat, st: State<C, V>, rest: seq<byte>)
    requires |r.sent| == |st.columns| < 0x1_0000 && st.bv.None?
    requires Rows.GoodDelivery(r.delivery)
    requires At(s, p, Rows.MaskBytes(r.sent, r.delivery) + rest)
    ensures var q := p + |Rows.MaskBytes(r.sent, r.delivery)|;
      At(s, q, rest) && QueryFrom(g, s, p, st) == QueryFrom(g, s, q, st.(bv := PendingVector(r.sent, r.delivery)))
  {
    hide Rows.MaskBytes, Rows.RowHeader, Rows.VectorMessage, At, Rows.DecodeFrom, ErrorMessage, Described;
    match r.delivery {
      case Plain => Rows.PlainMask(r.sent, rest);
      case InVector(_) => Rows.VectorMessageAt(r.delivery, r.sent, s, p, rest);
      case InHeader(_, _) => Rows.HeaderMessageAt(r.delivery, r.sent, s, p, rest);
    }
  }

  lemma RowDataStep<C, V>(g: Formats<C, V>, s: seq<byte>, p: nat, st: State<C, V>, vs: seq<V>, q: nat)
    requires p < q <= |s| && s[p] == ROW_DATA
    requires Rows.DecodeFrom(g.codec(st.columns), |st.columns|, 0, s, p + 1, st.bv, st.prev) == Some((vs, q))
    ensures QueryFrom(g, s, p, st) == QueryFrom(g, s, q, State(st.columns, st.rows + [vs], None, Some(vs)))
  {
    hide Rows.DecodeFrom, ErrorMessage, PassedEnd, Described;
  }

  lemma PendingVectorMarks(sent: seq<bool>, d: Rows.Delivery)
    requires !d.InVector? ==> forall j | 0 <= j < |sent| :: sent[j]
    ensures Rows.Marks(PendingVector(sent, d), sent)
  {
    Rows.ArrivedVectorMarks(sent, d);
  }

  lemma AfterRow<C, V(!new)>(g: Formats<C, V>, r: Rows.SentRow<V>, s: seq<byte>, p: nat, st: State<C, V>, rest: seq<byte>)
    requires Rows.Exact(g.codec(st.columns)) && |st.columns| < 0x1_0000 && st.bv.None?
    requires Rows.GoodRow(r, |st.columns|, st.prev) && HeaderRowsFull([r])
    requires At(s, p, Rows.RowBytes(g.codec(st.columns), r) + rest)
    ensures var q := p + |Rows.RowBytes(g.codec(st.columns), r)|;
      At(s, q, rest)
      && QueryFrom(g, s, p, st) == QueryFrom(g, s, q, State(st.columns, st.rows + [r.values], None, Some(r.values)))
  {
    hide Rows.MaskBytes, Rows.EncodeFrom, Rows.DecodeFrom, PendingVector, At, Rows.Exact, QueryFrom, Rows.Marks;
    var c := g.codec(st.columns);
    var mask, body := Rows.MaskBytes(r.sent, r.delivery), Rows.EncodeFrom(c, r.values, r.sent, 0);
    var p1 := p + |mask|;
    assert Rows.RowBytes(c, r) + rest == mask + ([ROW_DATA] + (body + rest));
    AfterMask(g, r, s, p, st, [ROW_DATA] + (body + rest));
    Rows.FirstByte(s, p1, ROW_DATA, body + rest);
    Rows.TakeAt([ROW_DATA], s, p1, body + rest);
    AtSplit(s, p1 + 1, body, rest);
    assert r in [r];
    PendingVectorMarks(r.sent, r.delivery);
    Rows.RowRoundTrip(c, r.values, r.sent, 0, s, p1 + 1, PendingVector(r.sent, r.delivery), st.prev);
    assert r.values[0..] == r.values;
    RowDataStep(g, s, p1, st.(bv := PendingVector(r.sent, r.delivery)), r.values, p1 + 1 + |body|);
  }

  lemma {:induction false} AfterRows<C, V(!new)>(g: Formats<C, V>, rs: seq<Rows.SentRow<V>>, s: seq<byte>, p: nat,
                                                 st: State<C, V>, rest: seq<byte>)
    requires Rows.Exact(g.codec(st.columns)) && |st.columns| < 0x1_0000 && st.bv.None?
    requires Rows.GoodRows(rs, |st.columns|, st.prev) && HeaderRowsFull(rs)
    requires forall r | r in rs :: |r.sent| == |r.values| < 0x1_0000
    requires At(s, p, Rows.RowsBytes(g.codec(st.columns), rs) + rest)
    ensures exists last ::
      QueryFrom(g, s, p, st) == QueryFrom(g, s, p + |Rows.RowsBytes(g.codec(st.columns), rs)|,
                                          State(st.columns, st.rows + Rows.Values(rs), None, last))
    ensures At(s, p + |Rows.RowsBytes(g.codec(st.columns), rs)|, rest)
    decreases |rs|
  {
    hide Rows.RowBytes, At, Rows.Exact, Rows.GoodRow, QueryFrom;
    if rs == [] {
      assert [] + rest == rest && st.rows + [] == st.rows;
      assert st == State(st.columns, st.rows + Rows.Values(rs), None, st.prev);
    } else {
      var c := g.codec(st.columns);
      var w, more := Rows.RowBytes(c, rs[0]), Rows.RowsBytes(c, rs[1..]);
      assert (w + more) + rest == w + (more + rest);
      AfterRow(g, rs[0], s, p, st, more + rest);
      var next := State(st.columns, st.rows + [rs[0].values], None, Some(rs[0].values));
      AfterRows(g, rs[1..], s, p + |w|, next, rest);
      assert (st.rows + [rs[0].values]) + Rows.Values(rs[1..]) == st.rows + Rows.Values(rs);
    }
  }

  // ---- A whole response to a query, in bytes ------------------------------------------

  /** How the columns come to be known: they were known before, or the response describes them, in a
      length-prefixed head and bytes behind it. */
  datatype Intro = KnownBefore | Told(head: seq<byte>, body: seq<byte>)

  function IntroThen(x: Intro, rest: seq<byte>): seq<byte> {
    match x
    case KnownBefore => rest
    case Told(head, body) => [16] + (LengthPrefixed(Some(head)) + (body + rest))
  }

  /** The columns are the ones known before, or those that the bytes behind the head describe,
      whatever follows. */
  ghost predicate Introduces<C, V>(g: Formats<C, V>, x: Intro, known: seq<C>, columns: seq<C>) {
    match x
    case KnownBefore => columns == known
    case Told(_, body) => forall more: seq<byte> :: g.describe(body + more) == Some((columns, |body|))
  }

  ghost predicate AllInQuery(ns: seq<Quiet>) {
    forall i: nat | i < |ns| :: InQuery(ns[i])
  }

  /** Messages that a query's parser passes over, one after the other. */
  ghost function NotesThen(ns: seq<Quiet>, rest: seq<byte>): seq<byte>
    requires AllInQuery(ns)
  {
    if ns == [] then rest else QuietThen(ns[0], NotesThen(ns[1..], rest))
  }

  /** The response to a query: flags, the columns, messages, rows, messages, and what is left. */
  ghost predicate QuerySays<C, V>(g: Formats<C, V>, payload: seq<byte>, x: Intro, columns: seq<C>, before: seq<Quiet>,
                                  rs: seq<Rows.SentRow<V>>, after: seq<Quiet>, rest: seq<byte>)
    requires forall r | r in rs :: |r.sent| == |r.values| < 0x1_0000
  {
    && AllInQuery(before) && AllInQuery(after)
    && |payload| >= 3
    && Left(payload, 2, IntroThen(x, NotesThen(before, Rows.RowsBytes(g.codec(columns), rs) + NotesThen(after, rest))))
  }

  /** A column description is read behind its head, and the reading goes on behind it. */
  lemma DescriptionRead<C, V>(g: Formats<C, V>, x: Intro, known: seq<C>, columns: seq<C>, s: seq<byte>, p: nat,
                              rest: seq<byte>) returns (q: nat)
    requires x.Told? && Introduces(g, x, known, columns)
    requires Left(s, p, LengthPrefixed(Some(x.head)) + (x.body + rest))
    ensures p < q <= |s| && Left(s, q, rest) && Described(g, s, p) == Some((columns, q))
  {
    hide LengthPrefixed, SkipRawBytesChunked;
    var h := PrefixedThen(Some(x.head), s, p, x.body + rest);
    q := Past(x.body, s, h, rest);
    assert g.describe(x.body + rest) == Some((columns, |x.body|));
  }

  lemma AfterIntro<C, V>(g: Formats<C, V>, x: Intro, known: seq<C>, columns: seq<C>, s: seq<byte>, p: nat, rest: seq<byte>)
    returns (q: nat)
    requires Introduces(g, x, known, columns) && Left(s, p, IntroThen(x, rest))
    ensures p <= q <= |s| && Left(s, q, rest)
    ensures QueryFrom(g, s, p, State(known, [], None, None)) == QueryFrom(g, s, q, State(columns, [], None, None))
  {
    hide Described, ErrorMessage, PassedEnd, Left, LengthPrefixed, Introduces;
    match x {
      case KnownBefore =>
        q := p;
        LeftBound(s, p, rest);
        KnownIsKnown(g, known, columns);
      case Told(head, body) =>
        q := ByteThen(16, s, p, LengthPrefixed(Some(head)) + (body + rest));
        q := DescriptionRead(g, x, known, columns, s, q, rest);
    }
  }

  lemma KnownIsKnown<C, V>(g: Formats<C, V>, known: seq<C>, columns: seq<C>)
    requires Introduces(g, KnownBefore, known, columns)
    ensures columns == known
  {
  }

  /** A message that is passed over. */
  lemma NotePassed(t: TextRules, n: Quiet, s: seq<byte>, p: nat, rest: seq<byte>) returns (q: nat)
    requires InQuery(n) && Left(s, p, QuietThen(n, rest))
    ensures p < q <= |s| && Left(s, q, rest) && Passed(s[p]) && PassedEnd(t, s, p) == Some(q)
  {
    hide ParametersThen, PiggybackThen, UbBytes, Left, Pow256, Ub, SkipUb, Responses.ReturnParameters,
      Responses.PiggybackEnd, Rows.RowHeader, Rows.HeaderBytes;
    match n {
      case ReturnedParameters(x) =>
        q := ByteThen(8, s, p, ParametersThen(x, rest));
        q := ParametersRead(t, x, s, q, rest);
      case Piggybacked(x) =>
        q := ByteThen(23, s, p, PiggybackThen(x, rest));
        q := PiggybackRead(x, s, q, rest);
      case StatusReport(status, sequence) =>
        q := ByteThen(9, s, p, UbBytes(status) + (UbBytes(sequence) + rest));
        q := StatusRead(status, sequence, s, q, rest);
      case HeaderReport(fields, vector) =>
        q := ByteThen(6, s, p, Rows.HeaderBytes(fields, vector) + rest);
        q := HeaderRead(fields, vector, s, q, rest);
    }
  }

  lemma PassedStep<C, V>(g: Formats<C, V>, s: seq<byte>, p: nat, q: nat, st: State<C, V>)
    requires p < |s| && Passed(s[p]) && PassedEnd(g.text, s, p) == Some(q)
    ensures QueryFrom(g, s, p, st) == QueryFrom(g, s, q, st)
  {
    hide PassedEnd, ErrorMessage, Described;
  }

  lemma {:induction false} AfterNotes<C, V>(g: Formats<C, V>, ns: seq<Quiet>, s: seq<byte>, p: nat, st: State<C, V>,
                                            rest: seq<byte>) returns (q: nat)
    requires AllInQuery(ns) && Left(s, p, NotesThen(ns, rest))
    ensures p <= q <= |s| && Left(s, q, rest) && QueryFrom(g, s, p, st) == QueryFrom(g, s, q, st)
    decreases |ns|
  {
    hide InQuery, QuietThen, Left, QueryFrom, PassedEnd, Passed;
    if ns == [] {
      q := p;
      LeftBound(s, p, rest);
    } else {
      q := NotePassed(g.text, ns[0], s, p, NotesThen(ns[1..], rest));
      PassedStep(g, s, p, q, st);
      q := AfterNotes(g, ns[1..], s, q, st, rest);
    }
  }

  lemma AfterSentRows<C, V(!new)>(g: Formats<C, V>, rs: seq<Rows.SentRow<V>>, columns: seq<C>, s: seq<byte>, p: nat,
                                  rest: seq<byte>) returns (q: nat, last: Option<seq<V>>)
    requires Rows.Exact(g.codec(columns)) && |columns| < 0x1_0000
    requires Rows.GoodRows(rs, |columns|, None) && HeaderRowsFull(rs)
    requires forall r | r in rs :: |r.sent| == |r.values| < 0x1_0000
    requires Left(s, p, Rows.RowsBytes(g.codec(columns), rs) + rest)
    ensures p <= q <= |s| && Left(s, q, rest)
    ensures QueryFrom(g, s, p, State(columns, [], None, None))
         == QueryFrom(g, s, q, State(columns, Rows.Values(rs), None, last))
  {
    hide Rows.RowsBytes, Rows.GoodRows, Rows.Exact, QueryFrom, HeaderRowsFull;
    var body := Rows.RowsBytes(g.codec(columns), rs);
    LeftIsAt(s, p, body + rest);
    AfterRows(g, rs, s, p, State(columns, [], None, None), rest);
    q := Past(body, s, p, rest);
    assert [] + Rows.Values(rs) == Rows.Values(rs);
    last :| QueryFrom(g, s, p, State(columns, [], None, None))
         == QueryFrom(g, s, q, State(columns, Rows.Values(rs), None, last));
  }

  /** Up to what is left of the response, the columns and all the rows have been read. */
  lemma UpToTheEnd<C, V(!new)>(g: Formats<C, V>, known: seq<C>, payload: seq<byte>, x: Intro, columns: seq<C>,
                               before: seq<Quiet>, rs: seq<Rows.SentRow<V>>, after: seq<Quiet>, rest: seq<byte>)
    returns (q: nat, last: Option<seq<V>>)
    requires Rows.Exact(g.codec(columns)) && |columns| < 0x1_0000
    requires Rows.GoodRows(rs, |columns|, None) && HeaderRowsFull(rs)
    requires forall r | r in rs :: |r.sent| == |r.values| < 0x1_0000
    requires Introduces(g, x, known, columns) && QuerySays(g, payload, x, columns, before, rs, after, rest)
    ensures q <= |payload| && Left(payload, q, rest)
    ensures Query(g, known, payload) == QueryFrom(g, payload, q, State(columns, Rows.Values(rs), None, last))
  {
    hide Rows.RowsBytes, Rows.GoodRows, Rows.Exact, QueryFrom, HeaderRowsFull, IntroThen, NotesThen, Left, InQuery,
      Introduces;
    var w2 := NotesThen(after, rest);
    var w1 := Rows.RowsBytes(g.codec(columns), rs) + w2;
    q := AfterIntro(g, x, known, columns, payload, 2, NotesThen(before, w1));
    q := AfterNotes(g, before, payload, q, State(columns, [], None, None), w1);
    q, last := AfterSentRows(g, rs, columns, payload, q, w2);
    q := AfterNotes(g, after, payload, q, State(columns, Rows.Values(rs), None, last), rest);
  }

  /** The rows of a query response come back as they were, under the columns that were known or are
      described in front of them, whichever columns the server leaves out and announces in bit-vector
      messages, if no row header leaves any out. Messages of other kinds may stand before and behind
      them. The first error message says how the query ended; nothing behind it is read. */
  lemma QueryRowsComeBack<C, V(!new)>(g: Formats<C, V>, known: seq<C>, payload: seq<byte>, x: Intro, columns: seq<C>,
                                      before: seq<Quiet>, rs: seq<Rows.SentRow<V>>, after: seq<Quiet>, e: ServerEnd,
                                      rest: seq<byte>, code: nat, text: Option<Text>)
    requires Rows.Exact(g.codec(columns)) && |columns| < 0x1_0000
    requires Rows.GoodRows(rs, |columns|, None) && HeaderRowsFull(rs)
    requires forall r | r in rs :: |r.sent| == |r.values| < 0x1_0000
    requires e.Good() && Introduces(g, x, known, columns)
    requires QuerySays(g, payload, x, columns, before, rs, after, [4] + EndThen(e, true, rest))
    requires Says(g.text, payload, e, code, text)
    ensures Query(g, known, payload) ==
      if code == 0 || code == 1403
      then Success(QueryAnswer(columns, Rows.Values(rs), e.rowCount, e.head.cursorId != 0 && code != 1403, e.head.cursorId))
      else Failure(Oracle(code, text.GetOr([])))
  {
    hide Rows.GoodRows, Rows.Exact, QueryFrom, HeaderRowsFull, Left, Introduces, EndThen, Query, QuerySays, Says,
      ErrorMessage, RowErrors;
    var q, last := UpToTheEnd(g, known, payload, x, columns, before, rs, after, [4] + EndThen(e, true, rest));
    var b := ByteThen(4, payload, q, EndThen(e, true, rest));
    var r, c, m := ErrorRead(g.text, e, true, payload, b, rest);
    EndedAt(g, payload, q, State(columns, Rows.Values(rs), None, last));
  }

  /** Without an error message the query succeeds all the same, with its rows and without a cursor:
      at the end of the bytes or at the first message of a kind that is not known. */
  lemma QueryWithoutEnd<C, V(!new)>(g: Formats<C, V>, known: seq<C>, payload: seq<byte>, x: Intro, columns: seq<C>,
                                    before: seq<Quiet>, rs: seq<Rows.SentRow<V>>, after: seq<Quiet>, rest: seq<byte>)
    requires Rows.Exact(g.codec(columns)) && |columns| < 0x1_0000
    requires Rows.GoodRows(rs, |columns|, None) && HeaderRowsFull(rs)
    requires forall r | r in rs :: |r.sent| == |r.values| < 0x1_0000
    requires Introduces(g, x, known, columns) && QuerySays(g, payload, x, columns, before, rs, after, rest)
    requires rest == [] || rest[0] !in {4, 6, 7, 8, 9, 16, 21, 23}
    ensures Query(g, known, payload) == Success(QueryAnswer(columns, Rows.Values(rs), 0, false, 0))
  {
    hide Rows.GoodRows, Rows.Exact, HeaderRowsFull, Introduces, Query, QuerySays, ErrorMessage, Step;
    var q, last := UpToTheEnd(g, known, payload, x, columns, before, rs, after, rest);
    if rest != [] {
      assert payload[q] == payload[q..][0];
    }
  }

  lemma EndedAt<C, V>(g: Formats<C, V>, s: seq<byte>, p: nat, st: State<C, V>)
    requires p < |s| && s[p] == ERROR
    ensures QueryFrom(g, s, p, st) ==
      var e := ErrorMessage(g.text, s, p + 1, true);
      if e.Ok() then Ended(e.Value(), State(st.columns, st.rows, None, None)) else Failure(BadError(e.result.error))
  {
    hide ErrorMessage;
  }

  // ---- An interrupted query ------------------------------------------------------------

  /** Two texts `m` and `n` of one code come to the same fatal error: both name an Oracle error and
      are one text; or the texts that name none are replaced by an error named elsewhere in the
      response, which a text that does name one must repeat; or none is named anywhere and the
      stand-ins of the two parsers make no difference. */
  predicate SameText(t: TextRules, s: seq<byte>, code: nat, m: Option<Text>, n: Option<Text>) {
    if Names(m) && Names(n) then code != 1403 && m == n
    else
      match OracleText(t, s)
      case Some((found, x)) => Responses.Fatal(found) && forall y | y in {m, n} && Names(y) :: (code, y) == (found, Some(x))
      case None => code != 1403 && m.GetOr([]) == n.GetOr(OraText(code))
  }

  /** The payload starts with an error message that reports a failure, and the text behind the two
      newer fields comes to the same as what stands in their place. Or the message cannot be read
      up to the text, or neither text can, for the same reason. */
  predicate SameFailure(t: TextRules, payload: seq<byte>) {
    && |payload| >= 3 && payload[2] == ERROR
    && var front := FrontAt(t, payload, 3);
       front.Ok() ==>
         var code := front.Value().code;
         var full, bare := TextPart(payload, front.pos, code, true), TextPart(payload, front.pos, code, false);
         && code != 0
         && if full.Ok() && bare.Ok()
            then SameText(t, payload, code, Trimmed(t, full.Value()), Trimmed(t, bare.Value()))
            else !full.Ok() && !bare.Ok() && full.result.error == bare.result.error
  }

  lemma SameTextExactly(t: TextRules, s: seq<byte>, code: nat, m: Option<Text>, n: Option<Text>)
    requires code != 0
    ensures SameText(t, s, code, m, n) <==>
      var ((c, x), (d, y)) := (Named(t, s, code, m), Named(t, s, code, n));
      Responses.Fatal(c) && c == d && x.GetOr([]) == y.GetOr(OraText(d))
  {
    hide FindOra, OracleText, OraText;
  }

  lemma {:induction false} QueryErrors<C, V>(g: Formats<C, V>, s: seq<byte>, p: nat, st: State<C, V>)
    ensures var r := QueryFrom(g, s, p, st); r.Failure? ==> r.error.Malformed? || r.error.BadError? || r.error.Oracle?
    decreases |s| - p
  {
    hide Step, ErrorMessage;
    if p < |s| && s[p] != ERROR && Known(s[p]) {
      var step := Step(g, s, p, st);
      if step.Some? {
        QueryErrors(g, s, step.value.1, step.value.0);
      }
    }
  }

  /** Neither parser claims that nothing was received. */
  lemma ParsersHaveBytes<C, V>(g: Formats<C, V>, known: seq<C>, payload: seq<byte>)
    ensures !ErrorReply(g, payload).NotReceived?
    ensures var r := Query(g, known, payload); r.Failure? ==> !r.error.NotReceived?
  {
    hide Step, OraText, ErrorMessage;
    if |payload| >= 3 {
      QueryErrors(g, payload, 2, State(known, [], None, None));
    }
  }

  /** With no error message in front the two parsers part. */
  lemma OtherFront<C, V>(g: Formats<C, V>, known: seq<C>, payload: seq<byte>)
    requires |payload| < 3 || payload[2] != ERROR
    ensures Query(g, known, payload) != Failure(ErrorReply(g, payload))
  {
    hide Step, OraText, ErrorMessage;
    if |payload| >= 3 {
      QueryErrors(g, payload, 2, State(known, [], None, None));
    }
  }

  /** The query parser fails with the error of the other parser exactly in that case. */
  lemma ParsersAgree<C, V>(g: Formats<C, V>, known: seq<C>, payload: seq<byte>)
    ensures Query(g, known, payload) == Failure(ErrorReply(g, payload)) <==> SameFailure(g.text, payload)
  {
    hide Step, OraText, FieldsAt, FrontAt, TextPart, Named, SameText, RowErrors;
    if |payload| < 3 || payload[2] != ERROR {
      OtherFront(g, known, payload);
    } else {
      FieldsByFront(g.text, payload, 3, true);
      FieldsByFront(g.text, payload, 3, false);
      var front := FrontAt(g.text, payload, 3);
      if front.Ok() {
        var code := front.Value().code;
        var full, bare := TextPart(payload, front.pos, code, true), TextPart(payload, front.pos, code, false);
        TextOfZero(payload, front.pos);
        ZeroIsNotNamed(g.text, payload);
        if full.Ok() && bare.Ok() && code != 0 {
          SameTextExactly(g.text, payload, code, Trimmed(g.text, full.Value()), Trimmed(g.text, bare.Value()));
        }
      }
    }
  }

  lemma TextOfZero(s: seq<byte>, p: nat)
    requires p <= |s|
    ensures TextPart(s, p, 0, false) == Reading(Success(None), p)
    ensures var full := TextPart(s, p, 0, true); full.Ok() ==> full.Value() == None
  {
    hide SkipUbs;
  }

  lemma ZeroIsNotNamed(t: TextRules, s: seq<byte>)
    ensures Named(t, s, 0, None) == (0, None)
  {
  }

  /** The usual case: the first of the two newer fields is zero, and the text behind them names the
      error. The error parser takes the zero for an empty text and looks for the name of an error
      in the whole response: the two agree exactly if the first one it finds is that text. */
  lemma UsualFailure(t: TextRules, payload: seq<byte>, front: Reading<Front>, full: Reading<Option<Text>>)
    requires |payload| >= 3 && payload[2] == ERROR && t.trim([]) == []
    requires front == FrontAt(t, payload, 3) && front.Ok() && Responses.Fatal(front.Value().code)
    requires full == TextPart(payload, front.pos, front.Value().code, true) && full.Ok()
    requires front.pos < |payload| && payload[front.pos] == 0 && Names(Trimmed(t, full.Value()))
    ensures SameFailure(t, payload) <==>
      OracleText(t, payload) == Some((front.Value().code, Trimmed(t, full.Value()).value))
  {
    hide FrontAt, FindOra, OracleText, SkipUbs, OraText;
    EmptyText(payload, front.pos);
    NoOraInNothing();
  }

  lemma NoOraInNothing()
    ensures FindOra([], 0) == None
  {
  }

  lemma UninterruptedQuery<C, V>(g: Formats<C, V>, known: seq<C>, ps: seq<seq<byte>>, last: nat, tail: seq<byte>,
                                 large: bool)
    requires AllData(ps) && AllFramed(ps, large) && FirstComplete(ps, last)
    ensures QueryExchange(g, known, Flat(ps) + tail, large)
         == (Query(g, known, Joined(ps[..last + 1])), Flat(ps[last + 1..]) + tail)
  {
    hide Gather, Flat, Framed, Joined, CompleteAt, Query, Rebuilt, Body;
    BodiesEmpty();
    assert ps[0..] == ps && ps[..0] == [];
    GatherFrom(ps, 0, last, tail, large);
    BodyOfRebuilt(Joined(ps[..last + 1]), large);
  }

  lemma InterruptedQuery<C, V>(g: Formats<C, V>, known: seq<C>, ps: seq<seq<byte>>, k: nat, last: nat,
                               ms: seq<seq<byte>>, tail: seq<byte>, large: bool)
    requires CutByMarkers(ps, k, last, ms, large)
    ensures QueryExchange(g, known, Interrupted(ps, k, ms, tail), large)
         == (Failure(ErrorReply(g, Joined(ps[..last + 1]))), Flat(ps[last + 1..]) + tail)
  {
    hide Gather, Flat, Framed, Joined, CompleteAt, ErrorReply, Rebuilt, Body, Interrupted, AwaitReset, Query;
    GatherUpToMarker(ps, k, ms, tail, large);
    MarkerTail(ms, large);
    MarkersAreTransparent(ps, k, last, ms, tail, large);
    BodyOfRebuilt(Joined(ps[..last + 1]), large);
  }

  /** An interrupted query recovers its bytes and fails all the same: it gets the answer of the
      uninterrupted one exactly if that is a failure which both parsers read alike. */
  lemma InterruptedQueryExactly<C, V>(g: Formats<C, V>, known: seq<C>, ps: seq<seq<byte>>, k: nat, last: nat,
                                      ms: seq<seq<byte>>, tail: seq<byte>, large: bool)
    requires CutByMarkers(ps, k, last, ms, large)
    ensures QueryExchange(g, known, Interrupted(ps, k, ms, tail), large).0.Failure?
    ensures QueryExchange(g, known, Interrupted(ps, k, ms, tail), large).1
         == QueryExchange(g, known, Flat(ps) + tail, large).1
    ensures SameFailure(g.text, Joined(ps[..last + 1])) <==>
      QueryExchange(g, known, Interrupted(ps, k, ms, tail), large) == QueryExchange(g, known, Flat(ps) + tail, large)
  {
    hide Gather, Flat, Framed, Joined, CompleteAt, ErrorReply, Query, QueryExchange, SameFailure, Interrupted;
    InterruptedQuery(g, known, ps, k, last, ms, tail, large);
    UninterruptedQuery(g, known, ps, last, tail, large);
    ParsersAgree(g, known, Joined(ps[..last + 1]));
  }

  /** A query without rows whose end reports success: behind a marker it is the error ORA-00000,
      whatever the cursor and the row count. */
  lemma SuccessBecomesError<C, V>(g: Formats<C, V>, known: seq<C>, payload: seq<byte>)
    requires |payload| >= 3 && payload[2] == ERROR
    requires FieldsAt(g.text, payload, 3, true).Ok() && FieldsAt(g.text, payload, 3, true).Value().verdict.code == 0
    ensures Query(g, known, payload).Success? && ErrorReply(g, payload) == Oracle(0, Ascii("ORA-00000"))
  {
    hide FieldsAt, FrontAt, TextPart, RowErrors, Ascii;
    FieldsByFront(g.text, payload, 3, true);
    FieldsByFront(g.text, payload, 3, false);
    TextOfZero(payload, FrontAt(g.text, payload, 3).pos);
    ZeroIsNotNamed(g.text, payload);
    TextOfCodeZero();
  }

  lemma TextOfCodeZero()
    ensures OraText(0) == Ascii("ORA-00000")
  {
    hide Ascii;
    assert Decimal(0) == "0";
    assert "ORA-" + seq(4, i => '0') + "0" == "ORA-00000";
  }

  // ---- Texts as columns ----------------------------------------------------------------

  /** Columns that hold texts, as the wire format has them. */
  const TEXT_COLUMNS: Rows.Codec<Option<seq<byte>>> := Rows.Codec(
    (col: nat, v: Option<seq<byte>>) => LengthPrefixed(v),
    (col: nat, bs: seq<byte>) =>
      var r := BytesWithLength(bs, 0);
      if r.Ok() then Some((r.Value(), r.pos)) else None,
    None)

  lemma TextColumnsExact()
    ensures Rows.Exact(TEXT_COLUMNS)
  {
    hide LengthPrefixed, BytesWithLength;
    forall col: nat, v: Option<seq<byte>>, rest: seq<byte>
      ensures TEXT_COLUMNS.decode(col, TEXT_COLUMNS.encode(col, v) + rest) == Some((v, |TEXT_COLUMNS.encode(col, v)|))
    {
      WireFormat.LengthPrefixedRoundTrip(v, LengthPrefixed(v) + rest, 0);
    }
  }

  /** The rows found so far stay in front. */
  lemma {:induction false} RowsStay<C, V>(g: Formats<C, V>, s: seq<byte>, p: nat, st: State<C, V>)
    ensures var r := QueryFrom(g, s, p, st); r.Success? ==> st.rows <= r.value.rows
    decreases |s| - p
  {
    hide PassedEnd, ErrorMessage, Described, Rows.DecodeFrom, Rows.VectorMessage;
    if p < |s| && s[p] != ERROR && Known(s[p]) {
      var step := Step(g, s, p, st);
      if step.Some? {
        RowsStay(g, s, step.value.1, step.value.0);
      }
    }
  }

  /** Two rows of one column with the same value, the second left out as its header says. */
  function Repeated(v: Option<seq<byte>>, h: Rows.HeaderFields): seq<Rows.SentRow<Option<seq<byte>>>> {
    [Rows.SentRow([v], [true], Rows.Plain), Rows.SentRow([v], [false], Rows.InHeader(h, true))]
  }

  function RepeatedBytes(v: Option<seq<byte>>, h: Rows.HeaderFields): seq<byte> {
    [ROW_DATA] + LengthPrefixed(v) + ([ROW_HEADER] + Rows.HeaderBytes(h, Rows.PackVector([false])) + [ROW_DATA])
  }

  lemma RepeatedIsGood(v: Option<seq<byte>>, h: Rows.HeaderFields)
    requires h.rowid.Some? ==> h.rowid.value.announced > 0
    ensures Rows.GoodRows(Repeated(v, h), 1, None) && Rows.Values(Repeated(v, h)) == [[v], [v]]
    ensures forall r | r in Repeated(v, h) :: |r.sent| == |r.values| < 0x1_0000
  {
    var rs := Repeated(v, h);
    assert rs[1..][1..] == [];
    assert Rows.Values(rs[1..]) == [[v]];
  }

  lemma RepeatedOnTheWire(v: Option<seq<byte>>, h: Rows.HeaderFields)
    ensures forall r | r in Repeated(v, h) :: |r.sent| == |r.values| < 0x1_0000
    ensures Rows.RowsBytes(TEXT_COLUMNS, Repeated(v, h)) == RepeatedBytes(v, h)
  {
    hide LengthPrefixed, Rows.HeaderBytes, Rows.PackVector;
    var rs := Repeated(v, h);
    var x := LengthPrefixed(v);
    assert Rows.EncodeFrom(TEXT_COLUMNS, [v], [true], 0) == x + Rows.EncodeFrom(TEXT_COLUMNS, [v], [true], 1) == x;
    assert Rows.EncodeFrom(TEXT_COLUMNS, [v], [false], 0) == [] + Rows.EncodeFrom(TEXT_COLUMNS, [v], [false], 1) == [];
    assert Rows.RowBytes(TEXT_COLUMNS, rs[0]) == [ROW_DATA] + x;
    var m := [ROW_HEADER] + Rows.HeaderBytes(h, Rows.PackVector([false]));
    assert Rows.RowBytes(TEXT_COLUMNS, rs[1]) == m + [ROW_DATA];
    assert rs[1..][1..] == [] && rs[1..][0] == rs[1];
    assert Rows.RowsBytes(TEXT_COLUMNS, rs[1..]) == m + [ROW_DATA];
  }

  /** On one payload the parser of fetches reads the second row as the first once more; the parser
      of queries takes the four bytes behind the type byte of the error message for it, and never
      sees that message. */
  lemma HeaderMaskIsIgnored<C>(g: Formats<C, Option<seq<byte>>>, known: seq<C>, v: Option<seq<byte>>,
                               h: Rows.HeaderFields, flags: seq<byte>, end: seq<byte>, modern: bool, id: u16)
    requires |known| == 1 && g.codec(known) == TEXT_COLUMNS && |flags| == 2
    requires h.rowid.Some? ==> h.rowid.value.announced > 0
    requires |end| >= 5 && end[0] == ERROR && FetchEnd(end, 1, modern).Ok()
    requires !Responses.Fatal(FetchEnd(end, 1, modern).Value().code)
    ensures var payload := flags + RepeatedBytes(v, h) + end;
      && (var f := Rows.ParseFetch(Rows.Setting(TEXT_COLUMNS, 1, modern), payload, id);
          f.Success? && f.value.rows == [[v], [v]])
      && (var q := Query(g, known, payload);
          q.Success? ==> |q.value.rows| >= 2 && q.value.rows[..2] == [[v], [Some(end[1..5])]])
  {
    hide FetchEnd, Rows.ParseFetch, Query, RepeatedBytes;
    RepeatedFetched(v, h, flags, end, modern, id);
    RepeatedQueried(g, known, v, h, flags, end);
  }

  lemma RepeatedFetched(v: Option<seq<byte>>, h: Rows.HeaderFields, flags: seq<byte>, end: seq<byte>, modern: bool, id: u16)
    requires |flags| == 2 && (h.rowid.Some? ==> h.rowid.value.announced > 0)
    requires |end| >= 5 && end[0] == ERROR && FetchEnd(end, 1, modern).Ok()
    requires !Responses.Fatal(FetchEnd(end, 1, modern).Value().code)
    ensures var f := Rows.ParseFetch(Rows.Setting(TEXT_COLUMNS, 1, modern), flags + RepeatedBytes(v, h) + end, id);
      f.Success? && f.value.rows == [[v], [v]]
  {
    hide FetchEnd, Rows.ParseFetch, RepeatedBytes, Repeated, Rows.RowsBytes, Rows.GoodRows, Rows.Exact, Rows.Values;
    TextColumnsExact();
    RepeatedIsGood(v, h);
    RepeatedOnTheWire(v, h);
    Rows.RowsComeBack(Rows.Setting(TEXT_COLUMNS, 1, modern), Repeated(v, h), flags, end, id);
  }

  lemma RepeatedQueried<C>(g: Formats<C, Option<seq<byte>>>, known: seq<C>, v: Option<seq<byte>>,
                           h: Rows.HeaderFields, flags: seq<byte>, end: seq<byte>)
    requires |known| == 1 && g.codec(known) == TEXT_COLUMNS && |flags| == 2
    requires h.rowid.Some? ==> h.rowid.value.announced > 0
    requires |end| >= 5 && end[0] == ERROR
    ensures var q := Query(g, known, flags + RepeatedBytes(v, h) + end);
      q.Success? ==> |q.value.rows| >= 2 && q.value.rows[..2] == [[v], [Some(end[1..5])]]
  {
    hide LengthPrefixed, BytesWithLength, QueryFrom, Rows.RowBytes, Rows.HeaderBytes, Rows.Exact, Rows.DecodeFrom, At,
      TEXT_COLUMNS, Rows.PackVector;
    var x, m := LengthPrefixed(v), [ROW_HEADER] + Rows.HeaderBytes(h, Rows.PackVector([false]));
    var s := flags + RepeatedBytes(v, h) + end;
    var st := State(known, [], None, None);
    var p1 := 2 + 1 + |x|;
    var p2 := p1 + |m|;
    assert s == flags + (([ROW_DATA] + x) + (m + ([ROW_DATA] + end)));
    Rows.AtAfterFlags(flags, ([ROW_DATA] + x) + (m + ([ROW_DATA] + end)), s);
    AfterText(g, known, v, s, 2, st, m + ([ROW_DATA] + end));
    var one: State<C, Option<seq<byte>>> := State(known, [[v]], None, Some([v]));
    AfterHeader(g, h, s, p1, one, [ROW_DATA] + end);
    Rows.TakeAt([ROW_DATA], s, p2, end);
    Rows.FirstByte(s, p2, ROW_DATA, end);
    EndTakenForText(g, s, p2, one, end);
    var w := Some(end[1..5]);
    assert [[v]] + [[w]] == [[v], [w]];
    RowsStay(g, s, p2 + 6, State(known, [[v], [w]], None, Some([w])));
    assert Query(g, known, s) == QueryFrom(g, s, 2, st);
    FirstTwo(Query(g, known, s), [v], [w]);
  }

  lemma FirstTwo<C, V>(q: Result<QueryAnswer<C, V>, QueryError>, a: seq<V>, b: seq<V>)
    requires q.Success? ==> [a, b] <= q.value.rows
    ensures q.Success? ==> |q.value.rows| >= 2 && q.value.rows[..2] == [a, b]
  {
  }

  lemma AfterText<C>(g: Formats<C, Option<seq<byte>>>, known: seq<C>, v: Option<seq<byte>>, s: seq<byte>, p: nat,
                     st: State<C, Option<seq<byte>>>, rest: seq<byte>)
    requires |known| == 1 && g.codec(known) == TEXT_COLUMNS && st == State(known, [], None, None)
    requires At(s, p, ([ROW_DATA] + LengthPrefixed(v)) + rest)
    ensures var q := p + 1 + |LengthPrefixed(v)|;
      At(s, q, rest) && QueryFrom(g, s, p, st) == QueryFrom(g, s, q, State(known, [[v]], None, Some([v])))
  {
    hide LengthPrefixed, BytesWithLength, QueryFrom, Rows.Exact, At;
    TextColumnsExact();
    var r := Rows.SentRow([v], [true], Rows.Plain);
    var x := LengthPrefixed(v);
    assert Rows.EncodeFrom(TEXT_COLUMNS, [v], [true], 0) == x + Rows.EncodeFrom(TEXT_COLUMNS, [v], [true], 1) == x;
    assert Rows.RowBytes(TEXT_COLUMNS, r) == [ROW_DATA] + x;
    AfterRow(g, r, s, p, st, rest);
    assert [] + [[v]] == [[v]];
  }

  lemma AfterHeader<C, V>(g: Formats<C, V>, h: Rows.HeaderFields, s: seq<byte>, p: nat, st: State<C, V>, rest: seq<byte>)
    requires h.rowid.Some? ==> h.rowid.value.announced > 0
    requires At(s, p, ([ROW_HEADER] + Rows.HeaderBytes(h, Rows.PackVector([false]))) + rest)
    ensures var q := p + 1 + |Rows.HeaderBytes(h, Rows.PackVector([false]))|;
      At(s, q, rest) && QueryFrom(g, s, p, st) == QueryFrom(g, s, q, st)
  {
    hide Rows.HeaderBytes, Rows.RowHeader, At, ErrorMessage, Described;
    Rows.HeaderMessageAt(Rows.InHeader(h, true), [false], s, p, rest);
  }

  lemma EndTakenForText<C>(g: Formats<C, Option<seq<byte>>>, s: seq<byte>, p: nat, st: State<C, Option<seq<byte>>>,
                           end: seq<byte>)
    requires |st.columns| == 1 && g.codec(st.columns) == TEXT_COLUMNS && st.bv.None?
    requires |end| >= 5 && end[0] == ERROR && p < |s| && s[p] == ROW_DATA && At(s, p + 1, end)
    ensures QueryFrom(g, s, p, st)
         == QueryFrom(g, s, p + 6, State(st.columns, st.rows + [[Some(end[1..5])]], None, Some([Some(end[1..5])])))
  {
    hide QueryFrom, Rows.DecodeFrom;
    TakenForText(s[p + 1..], end);
    var w := Some(end[1..5]);
    DecodeOneText(s, p + 1, st.prev, w);
    RowDataStep(g, s, p, st, [w], p + 6);
  }

  lemma TakenForText(s: seq<byte>, end: seq<byte>)
    requires |end| >= 5 && end[0] == ERROR && end <= s
    ensures BytesWithLength(s, 0) == Reading(Success(Some(end[1..5])), 5)
  {
    assert s[0] == end[0];
    assert s[1..5] == end[1..5];
  }

  lemma DecodeOneText(s: seq<byte>, p: nat, prev: Option<seq<Option<seq<byte>>>>, w: Option<seq<byte>>)
    requires p <= |s| && BytesWithLength(s[p..], 0) == Reading(Success(w), 5)
    ensures Rows.DecodeFrom(TEXT_COLUMNS, 1, 0, s, p, None, prev) == Some(([w], p + 5))
  {
    hide BytesWithLength;
    assert Rows.DecodeFrom(TEXT_COLUMNS, 1, 1, s, p + 5, None, prev) == Some(([], p + 5));
    assert [w] + [] == [w];
  }

  // ---- A query that loses its rows -----------------------------------------------------

  /** One row of one column, and the end of the query. */
  function OneRow(v: Option<seq<byte>>, e: PlainEnd): seq<byte> {
    [ROW_DATA] + LengthPrefixed(v) + ([ERROR] + EndBytes(e, true))
  }

  lemma OneRowQueried<C>(g: Formats<C, Option<seq<byte>>>, known: seq<C>, v: Option<seq<byte>>, e: PlainEnd,
                         flags: seq<byte>)
    requires |known| == 1 && g.codec(known) == TEXT_COLUMNS && e.code == 0 && |flags| == 2
    ensures Query(g, known, flags + OneRow(v, e))
         == Success(QueryAnswer(known, [[v]], e.rowCount, e.cursorId != 0, e.cursorId))
    ensures ErrorReply(g, flags + OneRow(v, e)) == NotAnError(ROW_DATA)
  {
    hide LengthPrefixed, EndBytes, Rows.Exact, FieldsAt, FetchEnd, QueryFrom, At, RowErrors, ErrorMessage;
    var x, end := LengthPrefixed(v), [ERROR] + EndBytes(e, true);
    var s := flags + OneRow(v, e);
    var st := State(known, [], None, None);
    assert s == flags + (([ROW_DATA] + x) + end);
    Rows.AtAfterFlags(flags, ([ROW_DATA] + x) + end, s);
    AfterText(g, known, v, s, 2, st, end);
    var q := 3 + |x|;
    PlainEndAt(g.text, e, s, q);
    EndedAt(g, s, q, State(known, [[v]], None, Some([v])));
    assert Query(g, known, s) == QueryFrom(g, s, 2, st);
  }

  lemma PlainEndAt(t: TextRules, e: PlainEnd, s: seq<byte>, p: nat)
    requires e.code == 0 && At(s, p, [ERROR] + EndBytes(e, true))
    ensures p < |s| && s[p] == ERROR
    ensures var m := ErrorMessage(t, s, p + 1, true);
      m.Ok() && m.Value().code == 0 && m.Value().rowCount == e.rowCount && m.Value().cursorId == e.cursorId
  {
    hide EndBytes, FieldsAt, FetchEnd, At, RowErrors;
    Rows.FirstByte(s, p, ERROR, EndBytes(e, true));
    AtSplit(s, p, [ERROR], EndBytes(e, true));
    PlainEndRoundTrip(t, e, s, p + 1, true);
    ZeroIsNotNamed(t, s);
  }

  lemma OnePacket(body: seq<byte>)
    requires HEADER_SIZE + 2 + |body| < 0x1_0000
    ensures var p := DataPacket(END_OF_RESPONSE, body, false);
      && AllData([p]) && CutByMarkers([p], 0, 0, [BREAK], false)
      && Joined([p]) == BeBytes(END_OF_RESPONSE, 2) + body && Flat([p]) == p
  {
    hide Framed, DataPacket, AllMarkers, BeAt, Joined;
    var p := DataPacket(END_OF_RESPONSE, body, false);
    var ps: seq<seq<byte>> := [p];
    DataPacketParts(END_OF_RESPONSE, body, false);
    FlagBytesOf(END_OF_RESPONSE, body);
    BreakIsMarker();
    JoinedIsFlagsAndBodies(ps);
    assert ps[1..] == [] && p + [] == p && BodyOf(p) + [] == BodyOf(p);
    assert SignalsEnd(p);
    assert ps[..0 + 1] == ps;
  }

  /** A query whose response is one packet with its row and a success. With a marker in front of it
      the query fails, on whatever value the row has. */
  lemma RowsAreLost<C>(g: Formats<C, Option<seq<byte>>>, known: seq<C>, v: Option<seq<byte>>, e: PlainEnd)
    requires |known| == 1 && g.codec(known) == TEXT_COLUMNS && e.code == 0
    requires HEADER_SIZE + 2 + |OneRow(v, e)| < 0x1_0000
    ensures var p := DataPacket(END_OF_RESPONSE, OneRow(v, e), false);
      && QueryExchange(g, known, p, false)
         == (Success(QueryAnswer(known, [[v]], e.rowCount, e.cursorId != 0, e.cursorId)), [])
      && QueryExchange(g, known, BREAK + p, false) == (Failure(NotAnError(ROW_DATA)), [])
  {
    hide DataPacket, OneRow, Query, ErrorReply, QueryExchange, CutByMarkers, Joined, MarkerPacket, BeBytes;
    OnePacket(OneRow(v, e));
    OneRowQueried(g, known, v, e, BeBytes(END_OF_RESPONSE, 2));
    OnePacketQueried(g, known, DataPacket(END_OF_RESPONSE, OneRow(v, e), false));
  }

  lemma OnePacketQueried<C, V>(g: Formats<C, V>, known: seq<C>, p: seq<byte>)
    requires AllData([p]) && CutByMarkers([p], 0, 0, [BREAK], false) && Flat([p]) == p
    ensures QueryExchange(g, known, p, false) == (Query(g, known, Joined([p])), [])
    ensures QueryExchange(g, known, BREAK + p, false) == (Failure(ErrorReply(g, Joined([p]))), [])
  {
    hide Query, ErrorReply, QueryExchange, Joined, MarkerPacket, FirstComplete, Framed, AllMarkers, AllData;
    var ps := [p];
    UninterruptedQuery(g, known, ps, 0, [], false);
    InterruptedQuery(g, known, ps, 0, 0, [BREAK], [], false);
    BreakIsMarker();
    BodiesEmpty();
    assert ps[..0 + 1] == ps && ps[0 + 1..] == [] && ps[..0] == [] && ps[0..] == ps;
    assert [] + (BREAK + (p + [])) == BREAK + p && p + [] == p;
  }
}

/** The two parsers as loops over a buffer, and the end of a query that chooses between them. */
module QueryCode {
  import opened Bytes
  import ErrorMessageCode
  import opened ErrorMessages
  import opened Framing
  import opened Messages
  import opened QueryResponses
  import opened ReadBuffers
  import opened Reads
  import Reassembly
  import Recovery
  import ResponseParsers
  import Responses
  import RowDecoders
  import Rows
  import Transport
  import opened Wrappers

  /** The row header of a query response: the bit vector is passed over. */
  method ParseRowHeader(buf: ReadBuffer) returns (r: Result<(), ReadError>)
    requires buf.Valid()
    modifies buf
    ensures buf.Valid()
    ensures var h := Rows.RowHeader(buf.data, old(buf.pos)); r.Success? == h.Ok() && (h.Ok() ==> buf.pos == h.pos)
  {
    hide Rows.HeaderStart, Ub, Chunked;
    var _ :- RowDecoders.ReadHeaderStart(buf);
    var numBytes :- buf.ReadUb4();
    if numBytes > 0 {
      var _ :- buf.SkipBytes(1);
      var _ :- buf.SkipBytes(numBytes);
    }
    r := ErrorMessageCode.SkipChunked4(buf);
  }

  method ParseDescription<C, V>(g: Formats<C, V>, buf: ReadBuffer) returns (r: Option<seq<C>>)
    requires buf.Valid()
    modifies buf
    ensures buf.Valid()
    ensures match Described(g, buf.data, old(buf.pos))
      case Some((columns, q)) => r == Some(columns) && buf.pos == q
      case None => r == None
  {
    hide SkipRawBytesChunked;
    var head := buf.SkipRawChunked();
    if head.Failure? {
      return None;
    }
    var read := g.describe(buf.RemainingBytes());
    if read.None? {
      return None;
    }
    var (columns, n) := read.value;
    var moved := buf.SkipBytes(n);
    return if moved.Success? then Some(columns) else None;
  }

  /** One message that is passed over, its type byte already read. */
  method PassMessage(t: TextRules, buf: ReadBuffer, kind: byte) returns (ok: bool)
    requires buf.Valid() && buf.pos > 0 && buf.data[buf.pos - 1] == kind && Passed(kind)
    modifies buf
    ensures buf.Valid()
    ensures match PassedEnd(t, buf.data, old(buf.pos) - 1)
      case Some(q) => ok && buf.pos == q
      case None => !ok
  {
    hide Rows.RowHeader, Responses.ReturnParameters, Responses.PiggybackEnd, Ub;
    if kind == ROW_HEADER {
      var header := ParseRowHeader(buf);
      return header.Success?;
    } else if kind == PARAMETER {
      var parameters := ResponseParsers.ParseReturnParameters(t, buf, false);
      return parameters.Success?;
    } else if kind == PIGGYBACK {
      var piggyback := ResponseParsers.ParseServerSidePiggyback(buf);
      return piggyback.Success?;
    } else {
      var status := buf.ReadUb4();
      if status.Failure? {
        return false;
      }
      var sequence := buf.ReadUb2();
      return sequence.Success?;
    }
  }

  /** One message other than the end of the query, its type byte already read. */
  method ParseStep<C, V>(g: Formats<C, V>, buf: ReadBuffer, kind: byte, st: State<C, V>) returns (r: Option<State<C, V>>)
    requires buf.Valid() && buf.pos > 0 && buf.data[buf.pos - 1] == kind && Known(kind)
    modifies buf
    ensures buf.Valid()
    ensures match Step(g, buf.data, old(buf.pos) - 1, st)
      case Some((next, q)) => r == Some(next) && buf.pos == q
      case None => r == None
  {
    hide Described, Rows.DecodeFrom, PassedEnd, Rows.VectorMessage;
    if kind == DESCRIBE_INFO {
      var columns := ParseDescription(g, buf);
      if columns.None? {
        return None;
      }
      return Some(st.(columns := columns.value));
    } else if kind == ROW_DATA {
      RowDecoders.DecodeGrows(g.codec(st.columns), |st.columns|, 0, buf.data, buf.pos, st.bv, st.prev);
      var row := RowDecoders.ParseRowData(buf, g.codec(st.columns), |st.columns|, st.bv, st.prev);
      if row.None? {
        return None;
      }
      return Some(State(st.columns, st.rows + [row.value], None, Some(row.value)));
    } else if kind == BIT_VECTOR {
      var vector := RowDecoders.ReadVectorMessage(buf, |st.columns|);
      if vector.Failure? {
        return None;
      }
      return Some(if vector.value.Some? then st.(bv := vector.value) else st);
    } else {
      var passed := PassMessage(g.text, buf, kind);
      return if passed then Some(st) else None;
    }
  }

  /** The message loop of a query response. */
  method ParseQueryResponse<C, V>(g: Formats<C, V>, known: seq<C>, payload: seq<byte>)
    returns (r: Result<QueryAnswer<C, V>, QueryError>)
    ensures r == Query(g, known, payload)
  {
    hide Step, ErrorMessage;
    if |payload| < 3 {
      return Failure(QueryTooShort);
    }
    var buf := new ReadBuffer(payload);
    var _ := buf.SkipBytes(2);
    var st: State<C, V> := State(known, [], None, None);
    var rowCount: u64, cursorId: u16, hasMoreRows, ended := 0, 0, false, false;
    while !ended && buf.Remaining() > 0
      invariant buf.Valid() && fresh(buf) && buf.data == payload
      invariant Query(g, known, payload) ==
        if ended then Success(QueryAnswer(st.columns, st.rows, rowCount, hasMoreRows, cursorId))
        else QueryFrom(g, payload, buf.pos, st)
      invariant !ended ==> rowCount == 0 && cursorId == 0 && !hasMoreRows
      decreases !ended, |payload| - buf.pos
    {
      var kind := buf.ReadU8();
      if kind.value == ERROR {
        var info := ErrorMessageCode.ParseErrorInfo(g.text, buf, true);
        if info.Failure? {
          return Failure(BadError(info.error));
        }
        cursorId := info.value.cursorId;
        rowCount := info.value.rowCount;
        hasMoreRows := cursorId != 0 && info.value.code != 1403;
        if info.value.code != 0 && info.value.code != 1403 {
          return Failure(Oracle(info.value.code, info.value.message.GetOr([])));
        }
        ended := true;
      } else if Known(kind.value) {
        var next := ParseStep(g, buf, kind.value, st);
        if next.None? {
          return Failure(Malformed);
        }
        st := next.value;
      } else {
        break;
      }
    }
    return Success(QueryAnswer(st.columns, st.rows, rowCount, hasMoreRows, cursorId));
  }

  /** The parser for a response behind a marker. */
  method ParseErrorResponse<C, V>(g: Formats<C, V>, payload: seq<byte>) returns (r: Result<QueryAnswer<C, V>, QueryError>)
    ensures r == Failure(ErrorReply(g, payload))
  {
    hide ErrorMessage, OraText;
    if |payload| < 3 {
      return Failure(ErrorTooShort);
    }
    var buf := new ReadBuffer(payload);
    var _ := buf.SkipBytes(2);
    var kind := buf.ReadU8();
    if kind.value == ERROR {
      var info := ErrorMessageCode.ParseErrorInfo(g.text, buf, false);
      if info.Failure? {
        return Failure(BadError(info.error));
      }
      return Failure(Oracle(info.value.code, info.value.message.GetOr(OraText(info.value.code))));
    }
    return Failure(NotAnError(kind.value));
  }

  /** A query from its response on. */
  method ReceiveQuery<C, V>(connection: Transport.Connection, g: Formats<C, V>, known: seq<C>)
    returns (r: Result<QueryAnswer<C, V>, QueryError>)
    modifies connection`incoming, connection`state, connection`sent
    ensures !connection.open ==> r == Failure(NotReceived(Recovery.ConnectionClosed))
    ensures connection.open ==>
      (r, connection.incoming) == QueryExchange(g, known, old(connection.incoming), connection.largeSdu)
    ensures connection.open ==>
      var interrupted := Recovery.StoppedByMarker(Reassembly.Gather(old(connection.incoming), [], connection.largeSdu));
      var reset := Recovery.MarkerPacket(Recovery.RESET, connection.largeSdu);
      connection.sent == old(connection.sent) + if interrupted then reset else []
    ensures connection.state ==
      if r.Failure? && r.error.NotReceived? && r.error.cause in {Recovery.Io, Recovery.ClosedDuringRecovery}
      then Transport.Closed else old(connection.state)
  {
    hide Query, ErrorReply, Reassembly.Gather, Recovery.AwaitReset;
    var reply := connection.ReceiveResponseOrMarker();
    if reply.Failure? {
      return Failure(NotReceived(reply.error));
    }
    var (response, partial) := reply.value;
    if |response| <= HEADER_SIZE {
      return Failure(EmptyReply);
    }
    if response[4] == MARKER {
      var errorResponse := connection.HandleMarkerReset(partial);
      if errorResponse.Failure? {
        return Failure(NotReceived(errorResponse.error));
      }
      r := ParseErrorResponse(g, Recovery.Body(errorResponse.value));
      ParsersHaveBytes(g, known, Recovery.Body(errorResponse.value));
    } else {
      r := ParseQueryResponse(g, known, Recovery.Body(response));
      ParsersHaveBytes(g, known, Recovery.Body(response));
    }
  }
}
