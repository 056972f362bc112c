/** Fetching the rest of a query's rows once its first batch has arrived. */
module Draining {
  import opened Bytes
  import opened ErrorMessages
  import opened Messages
  import QueryCode
  import opened QueryResponses
  import RowDecoders
  import opened Rows
  import opened ServerMessages
  import opened Wrappers

  datatype FetchError = NoAnswer | BadAnswer(reason: RowError) | QueryFailed(cause: QueryError)

  /** How a server puts its rows on the wire: which columns it leaves out and how it announces
      them, the flags of its responses, the message behind the rows that says whether there are
      more, and the one it refuses a fetch with. */
  datatype Wire<!V> = Wire(
    setting: Setting<V>,
    send: seq<seq<V>> -> seq<SentRow<V>>,
    flags: seq<byte>,
    end: bool -> seq<byte>,
    refusal: seq<byte>)

  ghost predicate AllWide<V>(rows: seq<seq<V>>, columns: nat) {
    forall r | r in rows :: |r| == columns
  }

  /** The rows are sent so that they can be told from what is sent. */
  ghost predicate SendsAs<V>(rs: seq<SentRow<V>>, rows: seq<seq<V>>, columns: nat) {
    && GoodRows(rs, columns, None) && Values(rs) == rows
    && forall r | r in rs :: |r.sent| == |r.values| < 0x1_0000
  }

  /** Not mistaken for a row, or what goes before one. */
  predicate Closing(bytes: seq<byte>) {
    bytes != [] && bytes[0] !in {ROW_HEADER, ROW_DATA, BIT_VECTOR}
  }

  ghost predicate Faithful<V(!new)>(w: Wire<V>) {
    && Exact(w.setting.codec) && w.setting.columns < 0x1_0000 && |w.flags| == 2
    && (forall rows | AllWide(rows, w.setting.columns) :: SendsAs(w.send(rows), rows, w.setting.columns))
    && (forall more :: Closing(w.end(more))) && Closing(w.refusal)
    && (forall more, id :: SaysMore(Ending(w.setting, w.end(more), id), more))
    && (forall id :: Ending(w.setting, w.refusal, id).Failure?)
  }

  predicate SaysMore(e: Result<(bool, u16), RowError>, more: bool) {
    e.Success? && e.value.0 == more
  }

  /** Every row with all its columns. */
  function InFull<V>(rows: seq<seq<V>>): seq<SentRow<V>> {
    if rows == [] then [] else [SentRow(rows[0], seq(|rows[0]|, i => true), Plain)] + InFull(rows[1..])
  }

  /** One way to send rows so that they can be told from what is sent: leave nothing out. */
  lemma {:induction false} InFullSendsAs<V>(rows: seq<seq<V>>, columns: nat, prev: Option<seq<V>>)
    requires AllWide(rows, columns) && columns < 0x1_0000
    ensures GoodRows(InFull(rows), columns, prev) && SendsAs(InFull(rows), rows, columns)
    decreases |rows|
  {
    if rows != [] {
      assert rows[0] in rows;
      InFullSendsAs(rows[1..], columns, Some(rows[0]));
      InFullSendsAs(rows[1..], columns, None);
      assert InFull(rows)[1..] == InFull(rows[1..]);
      assert [rows[0]] + rows[1..] == rows;
    }
  }

  /** The end of a fetch, in an error message of the given code. */
  function EndOfFetch(cursorId: u16, code: u32, modern: bool): seq<byte> {
    [ERROR] + EndBytes(PlainEnd(cursorId, code, 0, None), modern)
  }

  /** A server that leaves nothing out, ends its responses with code 0 or 1403 and refuses with 1002. */
  function PlainWire<V>(setting: Setting<V>, cursorId: u16): Wire<V> {
    Wire(setting, InFull, [0, 0], more => EndOfFetch(cursorId, if more then 0 else 1403, setting.modern),
         EndOfFetch(cursorId, 1002, setting.modern))
  }

  lemma EndOfFetchReads<V>(setting: Setting<V>, cursorId: u16, code: u32, id: u16)
    ensures var end := EndOfFetch(cursorId, code, setting.modern);
      Closing(end) && Ending(setting, end, id) ==
        if code == 0 || code == 1403 then Success((code != 1403, cursorId)) else Failure(OracleError(code, []))
  {
    hide EndBytes, FetchEnd, FieldsAt;
    var e := PlainEnd(cursorId, code, 0, None);
    var end := EndOfFetch(cursorId, code, setting.modern);
    PlainEndRoundTrip(TextRules(x => x, x => x), e, end, 1, setting.modern);
  }

  /** There is such a server for every codec that reads back what it wrote. */
  lemma PlainWireIsFaithful<V(!new)>(setting: Setting<V>, cursorId: u16)
    requires Exact(setting.codec) && setting.columns < 0x1_0000
    ensures Faithful(PlainWire(setting, cursorId))
  {
    hide Exact, EndOfFetch, Ending, GoodRows, Values, Closing;
    var w := PlainWire(setting, cursorId);
    forall rows | AllWide(rows, setting.columns)
      ensures SendsAs(w.send(rows), rows, setting.columns)
    {
      InFullSendsAs(rows, setting.columns, None);
    }
    EndOfFetchReads(setting, cursorId, 1002, 0);
    forall more
      ensures Closing(w.end(more))
    {
      EndOfFetchReads(setting, cursorId, if more then 0 else 1403, 0);
    }
    forall more, id
      ensures SaysMore(Ending(setting, w.end(more), id), more)
    {
      EndOfFetchReads(setting, cursorId, if more then 0 else 1403, id);
    }
    forall id: u16
      ensures Ending(setting, w.refusal, id).Failure?
    {
      EndOfFetchReads(setting, cursorId, 1002, id);
    }
  }

  /** A response with some rows. */
  function Response<V>(w: Wire<V>, rows: seq<seq<V>>, end: seq<byte>): seq<byte>
    requires forall r | r in w.send(rows) :: |r.sent| == |r.values| < 0x1_0000
  {
    w.flags + RowsBytes(w.setting.codec, w.send(rows)) + end
  }

  lemma PartIsSent<V(!new)>(w: Wire<V>, rows: seq<seq<V>>, k: nat)
    requires Faithful(w) && AllWide(rows, w.setting.columns) && k <= |rows|
    ensures AllWide(rows[..k], w.setting.columns) && AllWide(rows[k..], w.setting.columns)
    ensures SendsAs(w.send(rows[..k]), rows[..k], w.setting.columns)
    ensures forall r | r in w.send(rows[..k]) :: |r.sent| == |r.values| < 0x1_0000
  {
    hide GoodRows, Values, Ending, Exact;
  }

  /** An open cursor on the server. It hands out its rows in order, at most as many as asked
      for, and may say that it is exhausted only when it is. It may also refuse, or not answer. */
  class ServerCursor<V(!new)> {
    const wire: Wire<V>
    /** Rows not yet handed out. */
    var rows: seq<seq<V>>
    var fetches: nat

    ghost predicate Valid()
      reads this
    {
      Faithful(wire) && AllWide(rows, wire.setting.columns)
    }

    constructor (wire: Wire<V>, rows: seq<seq<V>>)
      requires Faithful(wire) && AllWide(rows, wire.setting.columns)
      ensures Valid() && this.wire == wire && this.rows == rows && fetches == 0
    {
      this.wire := wire;
      this.rows := rows;
      fetches := 0;
    }

    method Answer(n: nat) returns (r: Option<seq<byte>>, ghost batch: seq<seq<V>>, ghost end: seq<byte>)
      requires Valid()
      modifies this
      ensures Valid() && fetches == old(fetches) + 1
      ensures batch + rows == old(rows) && AllWide(batch, wire.setting.columns)
      ensures SendsAs(wire.send(batch), batch, wire.setting.columns)
      ensures r.Some? ==> r.value == Response(wire, batch, end)
      ensures end == wire.refusal ||
        (exists more :: end == wire.end(more) && |batch| == Min(n, |old(rows)|) && (!more ==> rows == []))
    {
      hide Faithful, AllWide, SendsAs, Response;
      fetches := fetches + 1;
      var answers: bool, refuses: bool, reportsEnd: bool := *, *, *;
      var k := if refuses then 0 else Min(n, |rows|);
      var sent := rows[..k];
      batch := sent;
      PartIsSent(wire, rows, k);
      rows := rows[k..];
      var last := if refuses then wire.refusal else wire.end(rows != [] || !reportsEnd);
      end := last;
      r := if answers then Some(Response(wire, sent, last)) else None;
    }
  }

  lemma EndCloses<V(!new)>(w: Wire<V>, end: seq<byte>, id: u16)
    requires Faithful(w) && (end == w.refusal || exists more :: end == w.end(more))
    ensures Closing(end)
    ensures end == w.refusal ==> Ending(w.setting, end, id).Failure?
    ensures forall more | end == w.end(more) :: SaysMore(Ending(w.setting, end, id), more)
  {
    if end != w.refusal {
      var more :| end == w.end(more);
      assert SaysMore(Ending(w.setting, w.end(more), id), more);
    }
  }

  /** One fetch: the answer's bytes go through the parser of fetch responses. */
  method FetchMore<V(!new)>(cursor: ServerCursor<V>, cursorId: u16, n: nat)
    returns (r: Result<Fetched<V>, FetchError>)
    requires cursor.Valid()
    modifies cursor
    ensures cursor.Valid() && cursor.fetches == old(cursor.fetches) + 1
    ensures r.Success? ==>
      var k := Min(n, |old(cursor.rows)|);
      && r.value.rows == old(cursor.rows)[..k] && cursor.rows == old(cursor.rows)[k..]
      && (!r.value.hasMoreRows ==> cursor.rows == [])
  {
    hide Exact, GoodRows, Values, RowsBytes, Ending, ParseFetch;
    var answer, batch, end := cursor.Answer(n);
    if answer.None? {
      return Failure(NoAnswer);
    }
    var w := cursor.wire;
    EndCloses(w, end, cursorId);
    RowsComeBack(w.setting, w.send(batch), w.flags, end, cursorId);
    var parsed := RowDecoders.ParseFetchResponse(w.setting, answer.value, cursorId);
    if parsed.Failure? {
      return Failure(BadAnswer(parsed.error));
    }
    return Success(parsed.value);
  }

  /** The first batch leaves a cursor to go on with and is as long as was asked for. */
  predicate MustFetch<V>(first: QueryAnswer<string, V>, fetchSize: nat) {
    first.cursorId != 0 && first.columns != [] && |first.rows| >= fetchSize
  }

  /** Drains the cursor behind a first batch. A success never claims more rows; it holds every
      row once and in order exactly when a short first batch or an unusable cursor did not
      leave rows behind; and all fetches but the last brought a full batch. */
  method FetchRemaining<V(!new)>(first: QueryAnswer<string, V>, cursor: ServerCursor<V>, fetchSize: nat)
    returns (r: Result<QueryAnswer<string, V>, FetchError>)
    requires fetchSize > 0 && cursor.Valid()
    modifies cursor
    ensures r.Success? ==> r.value == first.(hasMoreRows := false,
      rows := first.rows + (if MustFetch(first, fetchSize) then old(cursor.rows) else []))
    ensures r.Success? ==>
      (r.value.rows == first.rows + old(cursor.rows) <==> MustFetch(first, fetchSize) || old(cursor.rows) == [])
    ensures r.Success? && MustFetch(first, fetchSize) ==> cursor.rows == []
    ensures MustFetch(first, fetchSize)
        ==> (cursor.fetches - old(cursor.fetches) - 1) * fetchSize <= |old(cursor.rows)|
    ensures !MustFetch(first, fetchSize) ==> r.Success? && cursor.fetches == old(cursor.fetches)
  {
    if first.cursorId == 0 || first.columns == [] || |first.rows| < fetchSize {
      NothingMore(first.rows, cursor.rows);
      return Success(first.(hasMoreRows := false));
    }
    r := FetchAll(first, cursor, fetchSize);
    NothingMore(first.rows, old(cursor.rows));
  }

  /** The fetch loop. */
  method FetchAll<V(!new)>(first: QueryAnswer<string, V>, cursor: ServerCursor<V>, fetchSize: nat)
    returns (r: Result<QueryAnswer<string, V>, FetchError>)
    requires fetchSize > 0 && cursor.Valid()
    modifies cursor
    ensures r.Success? ==> r.value == first.(rows := first.rows + old(cursor.rows), hasMoreRows := false)
    ensures r.Success? ==> cursor.rows == []
    ensures (cursor.fetches - old(cursor.fetches) - 1) * fetchSize <= |old(cursor.rows)|
  {
    hide Faithful, AllWide;
    var rows := first.rows;
    ghost var all, start, batches, handed := cursor.rows, cursor.fetches, 0, 0;
    while true
      invariant cursor.Valid() && rows + cursor.rows == first.rows + all
      invariant handed == |all| - |cursor.rows| && handed == batches * fetchSize
      invariant cursor.fetches == start + batches
      decreases |cursor.rows|
    {
      ghost var before := cursor.rows;
      var next := FetchMore(cursor, first.cursorId, fetchSize);
      OneMore(batches, fetchSize);
      assert cursor.fetches - start - 1 == batches;
      if next.Failure? {
        return Failure(next.error);
      }
      var batch := next.value.rows;
      TakeBatch(rows, batch, cursor.rows, before);
      rows := rows + batch;
      if |batch| < fetchSize || !next.value.hasMoreRows {
        NothingMore(rows, []);
        return Success(first.(rows := rows, hasMoreRows := false));
      }
      batches, handed := batches + 1, handed + fetchSize;
    }
  }

  lemma TakeBatch<R>(rows: seq<R>, batch: seq<R>, rest: seq<R>, before: seq<R>)
    requires exists k: nat | k <= |before| :: batch == before[..k] && rest == before[k..]
    ensures (rows + batch) + rest == rows + before
  {
  }

  lemma NothingMore<R>(a: seq<R>, b: seq<R>)
    ensures a + [] == a && (a == a + b <==> b == [])
  {
    if b != [] {
      assert |a + b| > |a|;
    }
  }

  /** The first response to a query as the server writes it: how the columns come to be known,
      messages that are passed over, the first rows, more such messages, and the error message at
      the end with whatever is behind it. */
  datatype First = First(intro: Intro, before: seq<Quiet>, after: seq<Quiet>, end: ServerEnd, rest: seq<byte>)

  ghost predicate FirstResponse<V(!new)>(g: Formats<string, V>, w: Wire<V>, columns: seq<string>, batch: seq<seq<V>>,
                                         f: First, payload: seq<byte>)
    requires SendsAs(w.send(batch), batch, w.setting.columns)
  {
    && w.setting.codec == g.codec(columns) && w.setting.columns == |columns|
    && HeaderRowsFull(w.send(batch))
    && Introduces(g, f.intro, [], columns) && f.end.Good()
    && QuerySays(g, payload, f.intro, columns, f.before, w.send(batch), f.after, [4] + EndThen(f.end, true, f.rest))
  }

  /** A whole query, from the bytes of its first response and of the answers to its fetches. If it
      succeeds it has every row of the table, once and in order, exactly if the first response
      held them all or left a cursor and columns to fetch the others with; and there was at most
      one further fetch per full batch. It fails at once if the first response reports a failure. */
  method QueryAll<V(!new)>(g: Formats<string, V>, w: Wire<V>, table: seq<seq<V>>, columns: seq<string>, prefetch: nat,
                           ghost f: First, payload: seq<byte>)
    returns (r: Result<QueryAnswer<string, V>, FetchError>, fetches: nat)
    requires prefetch > 0 && Faithful(w) && AllWide(table, w.setting.columns)
    requires FirstResponse(g, w, columns, table[..Min(prefetch, |table|)], f, payload)
    ensures r.Success? ==> !r.value.hasMoreRows && r.value.columns == columns && r.value.rows <= table
    ensures r.Success? ==> r.value.rowsAffected == f.end.rowCount && r.value.cursorId == f.end.head.cursorId
    ensures r.Success? ==>
      (r.value.rows == table <==> |table| <= prefetch || (f.end.head.cursorId != 0 && columns != []))
    ensures forall code, text | Says(g.text, payload, f.end, code, text) && code != 0 && code != 1403 ::
      r == Failure(QueryFailed(Oracle(code, text.GetOr([])))) && fetches == 0
    ensures fetches * prefetch <= |table|
  {
    hide Faithful, Query, GoodRows, Values, RowsBytes, QuerySays, Introduces, Says, EndThen;
    var k := Min(prefetch, |table|);
    ghost var batch := table[..k];
    var code, text := FirstRows(g, w, columns, batch, f, payload);
    var reply := QueryCode.ParseQueryResponse(g, [], payload);
    if reply.Failure? {
      return Failure(QueryFailed(reply.error)), 0;
    }
    var cursor := new ServerCursor(w, table[k..]);
    r := FetchRemaining(reply.value, cursor, prefetch);
    fetches := cursor.fetches;
    assert batch + table[k..] == table;
    NothingMore(batch, table[k..]);
    if MustFetch(reply.value, prefetch) {
      OneMore(fetches - 1, prefetch);
    }
  }

  lemma FirstRows<V(!new)>(g: Formats<string, V>, w: Wire<V>, columns: seq<string>, batch: seq<seq<V>>, f: First,
                           payload: seq<byte>) returns (code: nat, text: Option<Text>)
    requires Faithful(w) && AllWide(batch, w.setting.columns)
    requires FirstResponse(g, w, columns, batch, f, payload)
    ensures forall c, x | Says(g.text, payload, f.end, c, x) :: c == code && x == text
    ensures Query(g, [], payload) ==
      if code == 0 || code == 1403
      then Success(QueryAnswer(columns, batch, f.end.rowCount, f.end.head.cursorId != 0 && code != 1403,
                               f.end.head.cursorId))
      else Failure(Oracle(code, text.GetOr([])))
  {
    hide Exact, GoodRows, Values, RowsBytes, Introduces, QuerySays, HeaderRowsFull, Query, EndThen, Says;
    code, text := SaysOnce(g.text, payload, f.end);
    QueryRowsComeBack(g, [], payload, f.intro, columns, f.before, w.send(batch), f.after, f.end, f.rest, code, text);
  }

  lemma OneMore(batches: int, size: nat)
    ensures (batches + 1) * size == batches * size + size
  {
  }
}
