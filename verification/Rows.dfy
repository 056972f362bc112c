/** Row delivery: columns equal to those of the row before are left out of the wire and marked
    in a bit vector. */
module Rows {
  import opened Bytes
  import opened ErrorMessages
  import opened Messages
  import opened Reads
  import opened Wrappers
  import opened Writes
  import WireFormat

  /** How a column's value is written, and read back from the bytes that remain: the value and
      how many bytes it took. */
  datatype Codec<!V> = Codec(encode: (nat, V) -> seq<byte>, decode: (nat, seq<byte>) -> Option<(V, nat)>, absent: V)

  /** The codec consumes exactly what it wrote. */
  ghost predicate Exact<V(!new)>(c: Codec<V>) {
    forall col: nat, v: V, rest: seq<byte> ::
      c.decode(col, c.encode(col, v) + rest) == Some((v, |c.encode(col, v)|))
  }

  // ---- Bit vectors ---------------------------------------------------------------------

  /** `(n & (1 << i)) != 0`. */
  predicate Bit(n: nat, i: nat) {
    if i == 0 then n % 2 == 1 else Bit(n / 2, i - 1)
  }

  /** The bits of a byte, the lowest first. */
  lemma BitsOfByte(n: byte)
    ensures Bit(n, 0) <==> n % 2 == 1
    ensures Bit(n, 1) <==> n / 2 % 2 == 1
    ensures Bit(n, 2) <==> n / 4 % 2 == 1
    ensures Bit(n, 3) <==> n / 8 % 2 == 1
    ensures Bit(n, 4) <==> n / 16 % 2 == 1
    ensures Bit(n, 5) <==> n / 32 % 2 == 1
    ensures Bit(n, 6) <==> n / 64 % 2 == 1
    ensures Bit(n, 7) <==> n / 128 % 2 == 1
  {
    hide Bit;
    BitsOfHalf(n);
    BitsOfHalf(n / 2);
    BitsOfHalf(n / 4);
    BitsOfHalf(n / 8);
    BitsOfHalf(n / 16);
    BitsOfHalf(n / 32);
    BitsOfHalf(n / 64);
    BitsOfHalf(n / 128);
    var a: int := n;
    assert a / 2 / 2 == a / 4 && a / 4 / 2 == a / 8 && a / 8 / 2 == a / 16 && a / 16 / 2 == a / 32;
    assert a / 32 / 2 == a / 64 && a / 64 / 2 == a / 128;
  }

  lemma BitsOfHalf(n: nat)
    ensures Bit(n, 0) <==> n % 2 == 1
    ensures forall i: nat | 0 < i < 8 :: Bit(n, i) == Bit(n / 2, i - 1)
  {
  }

  function PackBits(bits: seq<bool>): nat {
    if bits == [] then 0 else (if bits[0] then 1 else 0) + 2 * PackBits(bits[1..])
  }

  function Pow2(k: nat): (p: nat)
    ensures p > 0
  {
    if k == 0 then 1 else 2 * Pow2(k - 1)
  }

  lemma {:induction false} PackBitsBound(bits: seq<bool>)
    ensures PackBits(bits) < Pow2(|bits|)
  {
    if bits != [] {
      PackBitsBound(bits[1..]);
    }
  }

  lemma {:induction false} BitOfPacked(bits: seq<bool>, i: nat)
    ensures Bit(PackBits(bits), i) <==> i < |bits| && bits[i]
  {
    if bits == [] {
      BitOfZero(i);
    } else if i > 0 {
      BitOfPacked(bits[1..], i - 1);
    }
  }

  lemma {:induction false} BitOfZero(i: nat)
    ensures !Bit(0, i)
  {
    if i > 0 {
      BitOfZero(i - 1);
    }
  }

  /** One byte for every eight columns, the last one padded. */
  function PackVector(bits: seq<bool>): (bv: seq<byte>)
    ensures |bv| == (|bits| + 7) / 8
    decreases |bits|
  {
    if bits == [] then []
    else
      var n := Min(|bits|, 8);
      PackBitsBound(bits[..n]);
      Pow2Eight(n);
      [PackBits(bits[..n])] + PackVector(bits[n..])
  }

  lemma Pow2Eight(n: nat)
    requires n <= 8
    ensures Pow2(n) <= 256
  {
    assert Pow2(8) == 2 * Pow2(7) && Pow2(6) == 2 * Pow2(5) && Pow2(4) == 2 * Pow2(3) && Pow2(2) == 2 * Pow2(1);
    assert Pow2(7) == 2 * Pow2(6) && Pow2(5) == 2 * Pow2(4) && Pow2(3) == 2 * Pow2(2);
  }

  lemma {:induction false} PackVectorBit(bits: seq<bool>, i: nat)
    requires i < |bits|
    ensures i / 8 < |PackVector(bits)| && (Bit(PackVector(bits)[i / 8], i % 8) <==> bits[i])
    decreases |bits|
  {
    hide Bit, PackBits;
    var n := Min(|bits|, 8);
    if i < 8 {
      BitOfPacked(bits[..n], i);
    } else {
      PackVectorBit(bits[8..], i - 8);
      assert (i - 8) / 8 == i / 8 - 1 && (i - 8) % 8 == i % 8;
    }
  }

  /** A column whose bit is clear repeats the row before; columns beyond the vector do not. */
  predicate IsDuplicate(bv: Option<seq<byte>>, col: nat) {
    bv.Some? && col / 8 < |bv.value| && !Bit(bv.value[col / 8], col % 8)
  }

  // ---- One row -------------------------------------------------------------------------

  datatype RowError = BadColumn | BadMessage | TooShort | OracleError(code: nat, message: Text)

  function Previous<V>(prev: Option<seq<V>>, col: nat, absent: V): V {
    if prev.Some? && col < |prev.value| then prev.value[col] else absent
  }

  /** The columns from `col` on of the row at `p`. */
  function DecodeFrom<V>(c: Codec<V>, columns: nat, col: nat, s: seq<byte>, p: nat,
                         bv: Option<seq<byte>>, prev: Option<seq<V>>): Option<(seq<V>, nat)>
    decreases columns - col
  {
    if col >= columns then Some(([], p))
    else if IsDuplicate(bv, col) then
      match DecodeFrom(c, columns, col + 1, s, p, bv, prev)
      case None => None
      case Some((vs, q)) => Some(([Previous(prev, col, c.absent)] + vs, q))
    else if p > |s| then None
    else
      match c.decode(col, s[p..])
      case None => None
      case Some((v, n)) =>
        match DecodeFrom(c, columns, col + 1, s, p + n, bv, prev)
        case None => None
        case Some((vs, q)) => Some(([v] + vs, q))
  }

  // ---- The server's side ---------------------------------------------------------------

  /** `sent[j]` says that column `j` of the row is written out. */
  function EncodeFrom<V>(c: Codec<V>, row: seq<V>, sent: seq<bool>, col: nat): seq<byte>
    requires |sent| == |row|
    decreases |row| - col
  {
    if col >= |row| then []
    else (if sent[col] then c.encode(col, row[col]) else []) + EncodeFrom(c, row, sent, col + 1)
  }

  /** Only a column equal to that of the row before may be left out. */
  ghost predicate MaySuppress<V>(row: seq<V>, sent: seq<bool>, prev: Option<seq<V>>) {
    |sent| == |row| && forall j | 0 <= j < |row| && !sent[j] ::
      prev.Some? && j < |prev.value| && prev.value[j] == row[j]
  }

  /** What the decoder must know of the bit vector it was given. */
  ghost predicate Marks(bv: Option<seq<byte>>, sent: seq<bool>) {
    forall j | 0 <= j < |sent| :: IsDuplicate(bv, j) <==> !sent[j]
  }

  lemma {:induction false} RowRoundTrip<V(!new)>(c: Codec<V>, row: seq<V>, sent: seq<bool>, col: nat,
                                                 s: seq<byte>, p: nat, bv: Option<seq<byte>>, prev: Option<seq<V>>)
    requires Exact(c) && MaySuppress(row, sent, prev) && Marks(bv, sent) && col <= |row|
    requires At(s, p, EncodeFrom(c, row, sent, col))
    ensures DecodeFrom(c, |row|, col, s, p, bv, prev)
         == Some((row[col..], p + |EncodeFrom(c, row, sent, col)|))
    decreases |row| - col
  {
    hide IsDuplicate;
    if col < |row| {
      var w, rest := if sent[col] then c.encode(col, row[col]) else [], EncodeFrom(c, row, sent, col + 1);
      AtSplit(s, p, w, rest);
      RowRoundTrip(c, row, sent, col + 1, s, p + |w|, bv, prev);
      assert [row[col]] + row[col + 1..] == row[col..];
      if sent[col] {
        SuffixAt(s, p, w);
        assert c.decode(col, s[p..]) == Some((row[col], |w|));
      } else {
        assert Previous(prev, col, c.absent) == row[col];
      }
    } else {
      assert row[col..] == [];
    }
  }

  lemma SuffixAt(s: seq<byte>, p: nat, w: seq<byte>)
    requires At(s, p, w)
    ensures s[p..] == w + s[p + |w|..]
  {
    AtSlice(s, p, w);
    assert s[p..] == s[p..p + |w|] + s[p + |w|..];
  }

  /** A row identifier as a header holds it: a number that only counts if it is zero, then the
      bytes. */
  datatype RowId = RowId(announced: u32, bytes: seq<byte>)

  /** What a row header says besides the mask. */
  datatype HeaderFields = HeaderFields(
    flags: byte,
    requests: u16,
    iteration: u32,
    iterations: u32,
    length: u16,
    again: byte,
    rowid: Option<RowId>)

  /** How the mask of a row travels: not at all, in a bit-vector message, or in a row header, which
      may also come without one. */
  datatype Delivery = Plain | InVector(count: u16) | InHeader(header: HeaderFields, masked: bool)
  {
    /** No mask comes with the row. */
    predicate Unmasked() {
      Plain? || (InHeader? && !masked)
    }
  }

  /** A row as the server may send it. */
  datatype SentRow<V> = SentRow(values: seq<V>, sent: seq<bool>, delivery: Delivery)

  function VectorPart(bv: seq<byte>, again: byte): seq<byte>
    requires |bv| < 0x1_0000
  {
    if bv == [] then UbBytes(0) else UbBytes(|bv|) + ([again] + bv)
  }

  function RowIdPart(id: Option<RowId>): seq<byte> {
    match id
    case None => UbBytes(0)
    case Some(id) => UbBytes(id.announced) + LengthPrefixed(Some(id.bytes))
  }

  function HeaderBytes(h: HeaderFields, bv: seq<byte>): seq<byte>
    requires |bv| < 0x1_0000
  {
    [h.flags] + (UbBytes(h.requests) + (UbBytes(h.iteration) + (UbBytes(h.iterations) + (UbBytes(h.length)
    + (VectorPart(bv, h.again) + RowIdPart(h.rowid))))))
  }

  function MaskBytes(sent: seq<bool>, d: Delivery): seq<byte>
    requires |sent| < 0x1_0000
  {
    match d
    case Plain => []
    case InVector(count) => [BIT_VECTOR] + (UbBytes(count) + PackVector(sent))
    case InHeader(header, masked) => [ROW_HEADER] + HeaderBytes(header, if masked then PackVector(sent) else [])
  }

  function RowBytes<V>(c: Codec<V>, r: SentRow<V>): seq<byte>
    requires |r.sent| == |r.values| < 0x1_0000
  {
    MaskBytes(r.sent, r.delivery) + ([ROW_DATA] + EncodeFrom(c, r.values, r.sent, 0))
  }

  /** A row identifier is announced by something other than zero. */
  predicate GoodDelivery(d: Delivery) {
    d.InHeader? && d.header.rowid.Some? ==> d.header.rowid.value.announced > 0
  }

  ghost predicate GoodRow<V>(r: SentRow<V>, columns: nat, prev: Option<seq<V>>) {
    && |r.values| == columns && MaySuppress(r.values, r.sent, prev)
    && (r.delivery.Unmasked() ==> forall j | 0 <= j < columns :: r.sent[j])
    && GoodDelivery(r.delivery)
  }

  /** Every row suppresses only what the row before it had; the first row is full. */
  ghost predicate GoodRows<V>(rs: seq<SentRow<V>>, columns: nat, prev: Option<seq<V>>) {
    rs == [] || (GoodRow(rs[0], columns, prev) && GoodRows(rs[1..], columns, Some(rs[0].values)))
  }

  function RowsBytes<V>(c: Codec<V>, rs: seq<SentRow<V>>): seq<byte>
    requires forall r | r in rs :: |r.sent| == |r.values| < 0x1_0000
  {
    if rs == [] then [] else RowBytes(c, rs[0]) + RowsBytes(c, rs[1..])
  }

  function Values<V>(rs: seq<SentRow<V>>): seq<seq<V>> {
    if rs == [] then [] else [rs[0].values] + Values(rs[1..])
  }

  // ---- A fetch response ----------------------------------------------------------------

  datatype Fetched<V> = Fetched(rows: seq<seq<V>>, hasMoreRows: bool, cursorId: u16)

  /** What the parser is given besides the bytes: the column codec, the number of columns, and
      whether error messages have the two fields that newer servers send. */
  datatype Setting<!V> = Setting(codec: Codec<V>, columns: nat, modern: bool)

  /** The parser between two messages. */
  datatype Progress<V> = Progress(bv: Option<seq<byte>>, prev: Option<seq<V>>, rows: seq<seq<V>>, cursorId: u16)

  /** The fields of a row header before its bit vector. */
  function HeaderStart(s: seq<byte>, p: nat): (r: Reading<()>)
    requires p <= |s|
    ensures p <= r.pos <= |s|
  {
    var flags := Skip(s, p, 1);
    if !flags.Ok() then flags
    else
      var requests := SkipUb(s, flags.pos);
      if !requests.Ok() then requests
      else
        var iteration := SkipUb(s, requests.pos);
        if !iteration.Ok() then iteration
        else
          var iterations := SkipUb(s, iteration.pos);
          if !iterations.Ok() then iterations else SkipUb(s, iterations.pos)
  }

  /** The bit vector of a row header, if it has one. */
  function HeaderVector(s: seq<byte>, p: nat): (r: Reading<Option<seq<byte>>>)
    requires p <= |s|
    ensures p <= r.pos <= |s|
  {
    var size := Ub(s, p, 4);
    if !size.Ok() then size.Fail()
    else if size.Value() == 0 then Reading(Success(None), size.pos)
    else
      var again := Skip(s, size.pos, 1);
      if !again.Ok() then again.Fail() else Some'(Take(s, again.pos, size.Value()))
  }

  function RowHeader(s: seq<byte>, p: nat): (r: Reading<Option<seq<byte>>>)
    requires p <= |s|
    ensures p <= r.pos <= |s|
  {
    var start := HeaderStart(s, p);
    if !start.Ok() then start.Fail()
    else
      var bv := HeaderVector(s, start.pos);
      if !bv.Ok() then bv
      else
        var rowid := Chunked(s, bv.pos, 4);
        if rowid.Ok() then Reading(bv.result, rowid.pos) else rowid.Fail()
  }

  /** The bit-vector message: a count nobody looks at, then one bit per column. */
  function VectorMessage(s: seq<byte>, p: nat, columns: nat): (r: Reading<Option<seq<byte>>>)
    requires p <= |s|
    ensures p <= r.pos <= |s|
  {
    var count := Ub(s, p, 2);
    if !count.Ok() then count.Fail()
    else if (columns + 7) / 8 == 0 then Reading(Success(None), count.pos)
    else Some'(Take(s, count.pos, (columns + 7) / 8))
  }

  /** A vector just read replaces the pending one; none leaves it. */
  function Pending(read: Option<seq<byte>>, before: Option<seq<byte>>): Option<seq<byte>> {
    if read.Some? then read else before
  }

  function ParseFrom<V>(g: Setting<V>, s: seq<byte>, p: nat, st: Progress<V>): Result<Fetched<V>, RowError>
    decreases |s| - p
  {
    if p >= |s| then Success(Fetched(st.rows, true, st.cursorId))
    else if s[p] == ROW_HEADER then
      var h := RowHeader(s, p + 1);
      if h.Ok() then ParseFrom(g, s, h.pos, st.(bv := Pending(h.Value(), st.bv))) else Failure(BadMessage)
    else if s[p] == ROW_DATA then
      match DecodeFrom(g.codec, g.columns, 0, s, p + 1, st.bv, st.prev)
      case None => Failure(BadColumn)
      case Some((vs, q)) =>
        // A codec that runs past the buffer has failed.
        if p < q <= |s| then ParseFrom(g, s, q, Progress(None, Some(vs), st.rows + [vs], st.cursorId))
        else Failure(BadColumn)
    else if s[p] == BIT_VECTOR then
      var v := VectorMessage(s, p + 1, g.columns);
      if v.Ok() then ParseFrom(g, s, v.pos, st.(bv := Pending(v.Value(), st.bv))) else Failure(BadMessage)
    else if s[p] == ERROR then
      var end := FetchEnd(s, p + 1, g.modern);
      if !end.Ok() then Failure(BadMessage)
      else
        var e := end.Value();
        if e.code != 0 && e.code != 1403 then Failure(OracleError(e.code, e.message))
        else Success(Fetched(st.rows, e.moreRows, e.cursorId))
    else Success(Fetched(st.rows, true, st.cursorId))
  }

  /** A fetch response: two flag bytes, then messages. */
  function ParseFetch<V>(g: Setting<V>, payload: seq<byte>, cursorId: u16): Result<Fetched<V>, RowError> {
    if |payload| < 3 then Failure(TooShort)
    else ParseFrom(g, payload, 2, Progress(None, None, [], cursorId))
  }

  // ---- Decoding undoes suppression -----------------------------------------------------

  lemma SkipUbAt(v: u64, max: byte, s: seq<byte>, p: nat, rest: seq<byte>)
    requires max in {2, 4, 8} && v < Pow256(max) && At(s, p, UbBytes(v) + rest)
    ensures p + |UbBytes(v)| <= |s| && At(s, p + |UbBytes(v)|, rest)
    ensures SkipUb(s, p) == Reading(Success(()), p + |UbBytes(v)|)
    ensures Ub(s, p, max) == Reading(Success(v as nat), p + |UbBytes(v)|)
  {
    hide UbBytes, Ub, SkipUb, Pow256;
    AtSplit(s, p, UbBytes(v), rest);
    WireFormat.UbRoundTrip(v, max, s, p);
    WireFormat.SkipUbOfWritten(v, max, s, p);
  }

  lemma TakeAt(w: seq<byte>, s: seq<byte>, p: nat, rest: seq<byte>)
    requires At(s, p, w + rest)
    ensures p + |w| + |rest| <= |s| && At(s, p + |w|, rest) && Take(s, p, |w|) == Reading(Success(w), p + |w|)
    ensures Skip(s, p, |w|) == Reading(Success(()), p + |w|)
  {
    AtSplit(s, p, w, rest);
    AtSlice(s, p, w);
  }

  lemma HeaderStartAt(h: HeaderFields, s: seq<byte>, p: nat, rest: seq<byte>)
    requires At(s, p, [h.flags] + (UbBytes(h.requests) + (UbBytes(h.iteration) + (UbBytes(h.iterations)
                      + (UbBytes(h.length) + rest)))))
    ensures var q := HeaderStart(s, p).pos;
      HeaderStart(s, p).Ok() && q <= |s| && At(s, q, rest)
      && q == p + 1 + |UbBytes(h.requests)| + |UbBytes(h.iteration)| + |UbBytes(h.iterations)| + |UbBytes(h.length)|
  {
    hide UbBytes, SkipUb, At, Ub, Pow256;
    Pow256Values();
    var w4 := UbBytes(h.length) + rest;
    var w3 := UbBytes(h.iterations) + w4;
    var w2 := UbBytes(h.iteration) + w3;
    var w1 := UbBytes(h.requests) + w2;
    TakeAt([h.flags], s, p, w1);
    var p1 := p + 1;
    SkipUbAt(h.requests, 2, s, p1, w2);
    var p2 := p1 + |UbBytes(h.requests)|;
    SkipUbAt(h.iteration, 4, s, p2, w3);
    var p3 := p2 + |UbBytes(h.iteration)|;
    SkipUbAt(h.iterations, 4, s, p3, w4);
    SkipUbAt(h.length, 2, s, p3 + |UbBytes(h.iterations)|, rest);
  }

  lemma HeaderVectorAt(bv: seq<byte>, again: byte, s: seq<byte>, p: nat, rest: seq<byte>)
    requires |bv| < 0x1_0000 && At(s, p, VectorPart(bv, again) + rest)
    ensures var q := p + |VectorPart(bv, again)|;
      q <= |s| && At(s, q, rest)
      && HeaderVector(s, p) == Reading(Success(if bv == [] then None else Some(bv)), q)
  {
    hide UbBytes, At, Ub, Pow256, SkipUb;
    Pow256Values();
    if bv == [] {
      SkipUbAt(0, 4, s, p, rest);
    } else {
      VectorRegrouped(bv, again, rest);
      SentVectorAt(bv, again, s, p, rest);
    }
  }

  lemma VectorRegrouped(bv: seq<byte>, again: byte, rest: seq<byte>)
    requires bv != [] && |bv| < 0x1_0000
    ensures VectorPart(bv, again) + rest == UbBytes(|bv|) + ([again] + (bv + rest))
  {
    hide UbBytes;
    assert ([again] + bv) + rest == [again] + (bv + rest);
  }

  lemma SentVectorAt(bv: seq<byte>, again: byte, s: seq<byte>, p: nat, rest: seq<byte>)
    requires bv != [] && |bv| < 0x1_0000 && At(s, p, UbBytes(|bv|) + ([again] + (bv + rest)))
    ensures var q := p + |UbBytes(|bv|)| + 1 + |bv|;
      q <= |s| && At(s, q, rest) && HeaderVector(s, p) == Reading(Success(Some(bv)), q)
  {
    hide UbBytes, At, Ub, Pow256, SkipUb, Take, Skip;
    Pow256Values();
    var q := p + |UbBytes(|bv|)|;
    SkipUbAt(|bv|, 4, s, p, [again] + (bv + rest));
    TakeAt([again], s, q, bv + rest);
    TakeAt(bv, s, q + 1, rest);
  }

  /** A row identifier, or the zero in its place, is passed over. */
  lemma RowIdAt(id: Option<RowId>, s: seq<byte>, p: nat, rest: seq<byte>)
    requires (id.Some? ==> id.value.announced > 0) && At(s, p, RowIdPart(id) + rest)
    ensures var q := p + |RowIdPart(id)|;
      q <= |s| && At(s, q, rest) && Chunked(s, p, 4) == Reading(Success(()), q)
  {
    hide UbBytes, LengthPrefixed, At, Ub, Pow256, SkipUb, SkipRawBytesChunked, RawBytesChunked;
    Pow256Values();
    if id.None? {
      SkipUbAt(0, 4, s, p, rest);
    } else {
      var w, x := UbBytes(id.value.announced), LengthPrefixed(Some(id.value.bytes));
      assert (w + x) + rest == w + (x + rest);
      SkipUbAt(id.value.announced, 4, s, p, x + rest);
      AtSplit(s, p + |w|, x, rest);
      WireFormat.LengthPrefixedRoundTrip(Some(id.value.bytes), s, p + |w|);
      WireFormat.SkipRawAgrees(s, p + |w|);
      UnitReading(SkipRawBytesChunked(s, p + |w|));
    }
  }

  lemma UnitReading(r: Reading<()>)
    requires r.Ok()
    ensures r == Reading(Success(()), r.pos)
  {
    assert r.result.value == ();
  }

  lemma HeaderRegroup(h: HeaderFields, bv: seq<byte>, rest: seq<byte>)
    requires |bv| < 0x1_0000
    ensures HeaderBytes(h, bv) + rest ==
      [h.flags] + (UbBytes(h.requests) + (UbBytes(h.iteration) + (UbBytes(h.iterations) + (UbBytes(h.length)
      + (VectorPart(bv, h.again) + (RowIdPart(h.rowid) + rest))))))
  {
    hide UbBytes, VectorPart, RowIdPart;
    var a5, b5 := VectorPart(bv, h.again) + RowIdPart(h.rowid), VectorPart(bv, h.again) + (RowIdPart(h.rowid) + rest);
    assert a5 + rest == b5;
    var a4, b4 := UbBytes(h.length) + a5, UbBytes(h.length) + b5;
    assert a4 + rest == b4;
    var a3, b3 := UbBytes(h.iterations) + a4, UbBytes(h.iterations) + b4;
    assert a3 + rest == b3;
    var a2, b2 := UbBytes(h.iteration) + a3, UbBytes(h.iteration) + b3;
    assert a2 + rest == b2;
    var a1, b1 := UbBytes(h.requests) + a2, UbBytes(h.requests) + b2;
    assert a1 + rest == b1;
    assert ([h.flags] + a1) + rest == [h.flags] + b1;
  }

  /** A header is read to its end, whether it holds a mask and a row identifier or not. */
  lemma RowHeaderAt(h: HeaderFields, bv: seq<byte>, s: seq<byte>, p: nat, rest: seq<byte>)
    requires |bv| < 0x1_0000 && (h.rowid.Some? ==> h.rowid.value.announced > 0)
    requires At(s, p, HeaderBytes(h, bv) + rest)
    ensures var q := p + |HeaderBytes(h, bv)|;
      q <= |s| && At(s, q, rest) && RowHeader(s, p) == Reading(Success(if bv == [] then None else Some(bv)), q)
  {
    hide UbBytes, At, VectorPart, RowIdPart, HeaderStart, HeaderVector, Chunked;
    var t2 := RowIdPart(h.rowid) + rest;
    var t1 := VectorPart(bv, h.again) + t2;
    HeaderRegroup(h, bv, rest);
    HeaderStartAt(h, s, p, t1);
    var p1 := HeaderStart(s, p).pos;
    HeaderVectorAt(bv, h.again, s, p1, t2);
    RowIdAt(h.rowid, s, p1 + |VectorPart(bv, h.again)|, rest);
  }

  /** The same behind its type byte. */
  lemma HeaderMessageAt(d: Delivery, sent: seq<bool>, s: seq<byte>, p: nat, rest: seq<byte>)
    requires d.InHeader? && |sent| < 0x1_0000 && GoodDelivery(d)
    requires At(s, p, MaskBytes(sent, d) + rest)
    ensures var q, bv := p + |MaskBytes(sent, d)|, if d.masked then PackVector(sent) else [];
      p + 1 < q <= |s| && s[p] == ROW_HEADER && At(s, q, rest)
      && RowHeader(s, p + 1) == Reading(Success(if bv == [] then None else Some(bv)), q)
  {
    hide At, HeaderBytes, PackVector, RowHeader;
    var bv := if d.masked then PackVector(sent) else [];
    var w := HeaderBytes(d.header, bv);
    assert ([ROW_HEADER] + w) + rest == [ROW_HEADER] + (w + rest);
    FirstByte(s, p, ROW_HEADER, w + rest);
    TakeAt([ROW_HEADER], s, p, w + rest);
    HeaderIsNotEmpty(d.header, bv);
    RowHeaderAt(d.header, bv, s, p + 1, rest);
  }

  lemma HeaderIsNotEmpty(h: HeaderFields, bv: seq<byte>)
    requires |bv| < 0x1_0000
    ensures HeaderBytes(h, bv) != []
  {
  }

  lemma FirstByte(s: seq<byte>, p: nat, b: byte, rest: seq<byte>)
    requires At(s, p, [b] + rest)
    ensures p < |s| && s[p] == b
  {
    assert s[p] == ([b] + rest)[0];
  }

  lemma VectorRegroup(d: Delivery, sent: seq<bool>, rest: seq<byte>)
    requires d.InVector? && |sent| < 0x1_0000
    ensures MaskBytes(sent, d) + rest == [BIT_VECTOR] + (UbBytes(d.count) + (PackVector(sent) + rest))
    ensures |MaskBytes(sent, d)| == 1 + |UbBytes(d.count)| + |PackVector(sent)|
  {
    hide UbBytes, PackVector;
    var w, bv := UbBytes(d.count), PackVector(sent);
    assert (w + bv) + rest == w + (bv + rest);
  }

  lemma VectorMessageAt(d: Delivery, sent: seq<bool>, s: seq<byte>, p: nat, rest: seq<byte>)
    requires d.InVector? && |sent| < 0x1_0000
    requires At(s, p, MaskBytes(sent, d) + rest)
    ensures var q, bv := p + |MaskBytes(sent, d)|, PackVector(sent);
      p < q <= |s| && s[p] == BIT_VECTOR && At(s, q, rest)
      && VectorMessage(s, p + 1, |sent|) == Reading(Success(if sent == [] then None else Some(bv)), q)
  {
    hide UbBytes, At, Ub, Pow256, SkipUb, PackVector, MaskBytes;
    Pow256Values();
    var bv := PackVector(sent);
    VectorRegroup(d, sent, rest);
    FirstByte(s, p, BIT_VECTOR, UbBytes(d.count) + (bv + rest));
    TakeAt([BIT_VECTOR], s, p, UbBytes(d.count) + (bv + rest));
    SkipUbAt(d.count, 2, s, p + 1, bv + rest);
    TakeAt(bv, s, p + 1 + |UbBytes(d.count)|, rest);
  }

  /** The bit vector the decoder holds once the mask of a row has arrived. */
  function ArrivedVector(sent: seq<bool>, d: Delivery): Option<seq<byte>> {
    if d.Unmasked() || sent == [] then None else Some(PackVector(sent))
  }

  lemma ArrivedVectorMarks(sent: seq<bool>, d: Delivery)
    requires d.Unmasked() ==> forall j | 0 <= j < |sent| :: sent[j]
    ensures Marks(ArrivedVector(sent, d), sent)
  {
    hide Bit, PackVector;
    forall j | 0 <= j < |sent|
      ensures IsDuplicate(ArrivedVector(sent, d), j) <==> !sent[j]
    {
      PackVectorBit(sent, j);
    }
  }

  lemma AfterMask<V(!new)>(g: Setting<V>, r: SentRow<V>, s: seq<byte>, p: nat, st: Progress<V>, rest: seq<byte>)
    requires |r.sent| == g.columns < 0x1_0000 && st.bv.None?
    requires GoodDelivery(r.delivery)
    requires At(s, p, MaskBytes(r.sent, r.delivery) + rest)
    ensures var q := p + |MaskBytes(r.sent, r.delivery)|;
      At(s, q, rest) && ParseFrom(g, s, p, st) == ParseFrom(g, s, q, st.(bv := ArrivedVector(r.sent, r.delivery)))
  {
    hide MaskBytes, RowHeader, VectorMessage, At, DecodeFrom, FetchEnd;
    match r.delivery {
      case Plain => PlainMask(r.sent, rest);
      case InVector(_) => VectorMessageAt(r.delivery, r.sent, s, p, rest);
      case InHeader(_, _) => HeaderMessageAt(r.delivery, r.sent, s, p, rest);
    }
  }

  lemma PlainMask(sent: seq<bool>, rest: seq<byte>)
    requires |sent| < 0x1_0000
    ensures MaskBytes(sent, Plain) + rest == rest && MaskBytes(sent, Plain) == []
  {
  }

  lemma RowDataStep<V>(g: Setting<V>, s: seq<byte>, p: nat, st: Progress<V>, vs: seq<V>, q: nat)
    requires p < q <= |s| && s[p] == ROW_DATA
    requires DecodeFrom(g.codec, g.columns, 0, s, p + 1, st.bv, st.prev) == Some((vs, q))
    ensures ParseFrom(g, s, p, st) == ParseFrom(g, s, q, Progress(None, Some(vs), st.rows + [vs], st.cursorId))
  {
    hide DecodeFrom, FetchEnd;
  }

  lemma AfterRow<V(!new)>(g: Setting<V>, r: SentRow<V>, s: seq<byte>, p: nat, st: Progress<V>, rest: seq<byte>)
    requires Exact(g.codec) && g.columns < 0x1_0000 && GoodRow(r, g.columns, st.prev) && st.bv.None?
    requires At(s, p, RowBytes(g.codec, r) + rest)
    ensures var q := p + |RowBytes(g.codec, r)|;
      At(s, q, rest)
      && ParseFrom(g, s, p, st) == ParseFrom(g, s, q, Progress(None, Some(r.values), st.rows + [r.values], st.cursorId))
  {
    hide MaskBytes, EncodeFrom, DecodeFrom, ArrivedVector, At, Exact, ParseFrom;
    var mask, body := MaskBytes(r.sent, r.delivery), EncodeFrom(g.codec, r.values, r.sent, 0);
    var p1 := p + |mask|;
    assert RowBytes(g.codec, r) + rest == mask + ([ROW_DATA] + (body + rest));
    AfterMask(g, r, s, p, st, [ROW_DATA] + (body + rest));
    FirstByte(s, p1, ROW_DATA, body + rest);
    TakeAt([ROW_DATA], s, p1, body + rest);
    AtSplit(s, p1 + 1, body, rest);
    ArrivedVectorMarks(r.sent, r.delivery);
    RowRoundTrip(g.codec, r.values, r.sent, 0, s, p1 + 1, ArrivedVector(r.sent, r.delivery), st.prev);
    assert r.values[0..] == r.values;
    RowDataStep(g, s, p1, st.(bv := ArrivedVector(r.sent, r.delivery)), r.values, p1 + 1 + |body|);
  }

  lemma {:induction false} AfterRows<V(!new)>(g: Setting<V>, rs: seq<SentRow<V>>, s: seq<byte>, p: nat, st: Progress<V>,
                                              rest: seq<byte>)
    requires Exact(g.codec) && g.columns < 0x1_0000 && GoodRows(rs, g.columns, st.prev) && st.bv.None?
    requires forall r | r in rs :: |r.sent| == |r.values| < 0x1_0000
    requires At(s, p, RowsBytes(g.codec, rs) + rest)
    ensures exists last ::
      ParseFrom(g, s, p, st)
        == ParseFrom(g, s, p + |RowsBytes(g.codec, rs)|, Progress(None, last, st.rows + Values(rs), st.cursorId))
    ensures At(s, p + |RowsBytes(g.codec, rs)|, rest)
  {
    hide RowBytes, At, Exact, GoodRow, ParseFrom;
    if rs == [] {
      assert [] + rest == rest && st.rows + [] == st.rows;
      assert st == Progress(None, st.prev, st.rows + Values(rs), st.cursorId);
    } else {
      var w, more := RowBytes(g.codec, rs[0]), RowsBytes(g.codec, rs[1..]);
      assert (w + more) + rest == w + (more + rest);
      AfterRow(g, rs[0], s, p, st, more + rest);
      var next := Progress(None, Some(rs[0].values), st.rows + [rs[0].values], st.cursorId);
      AfterRows(g, rs[1..], s, p + |w|, next, rest);
      assert (st.rows + [rs[0].values]) + Values(rs[1..]) == st.rows + Values(rs);
    }
  }

  lemma {:induction false} GoodRowsSizes<V>(rs: seq<SentRow<V>>, columns: nat, prev: Option<seq<V>>)
    requires GoodRows(rs, columns, prev) && columns < 0x1_0000
    ensures forall r | r in rs :: |r.sent| == |r.values| < 0x1_0000
  {
    if rs != [] {
      GoodRowsSizes(rs[1..], columns, Some(rs[0].values));
      assert rs == [rs[0]] + rs[1..];
    }
  }

  /** What the end of a response says: whether there are more rows and under which cursor, or
      that the fetch failed. Without an error message there may be more. */
  function Ending<V>(g: Setting<V>, end: seq<byte>, cursorId: u16): Result<(bool, u16), RowError> {
    if end == [] || end[0] != ERROR then Success((true, cursorId))
    else
      var r := FetchEnd(end, 1, g.modern);
      if !r.Ok() then Failure(BadMessage)
      else
        var e := r.Value();
        if e.code == 0 || e.code == 1403 then Success((e.moreRows, e.cursorId)) else Failure(OracleError(e.code, e.message))
  }

  /** Whatever columns the server leaves out because they repeat the row before, and however it
      sends the masks, the rows come back as they were, unless the end of the response reports a
      failure. */
  lemma RowsComeBack<V(!new)>(g: Setting<V>, rs: seq<SentRow<V>>, flags: seq<byte>, end: seq<byte>, cursorId: u16)
    requires Exact(g.codec) && g.columns < 0x1_0000 && GoodRows(rs, g.columns, None)
    requires |flags| == 2 && (rs != [] || end != [])
    requires end == [] || end[0] !in {ROW_HEADER, ROW_DATA, BIT_VECTOR}
    ensures forall r | r in rs :: |r.sent| == |r.values| < 0x1_0000
    ensures ParseFetch(g, flags + RowsBytes(g.codec, rs) + end, cursorId) == match Ending(g, end, cursorId)
      case Success((more, id)) => Success(Fetched(Values(rs), more, id))
      case Failure(e) => Failure(e)
  {
    hide RowsBytes, GoodRows, Exact, Ending, ParseFrom, At, Values;
    GoodRowsSizes(rs, g.columns, None);
    var w := flags + RowsBytes(g.codec, rs);
    var s, q := w + end, |w|;
    AtAfterFlags(flags, RowsBytes(g.codec, rs) + end, s);
    SomethingSent(g.codec, rs);
    AfterRows(g, rs, s, 2, Progress(None, None, [], cursorId), end);
    assert [] + Values(rs) == Values(rs);
    var last :| ParseFrom(g, s, 2, Progress(None, None, [], cursorId))
             == ParseFrom(g, s, q, Progress(None, last, Values(rs), cursorId));
    AtTheEnd(g, w, end, Progress(None, last, Values(rs), cursorId));
  }

  /** Behind the rows only the end of the response counts. */
  lemma AtTheEnd<V>(g: Setting<V>, w: seq<byte>, end: seq<byte>, st: Progress<V>)
    requires end == [] || end[0] !in {ROW_HEADER, ROW_DATA, BIT_VECTOR}
    ensures ParseFrom(g, w + end, |w|, st) == match Ending(g, end, st.cursorId)
      case Success((more, id)) => Success(Fetched(st.rows, more, id))
      case Failure(e) => Failure(e)
  {
    hide RowHeader, VectorMessage, DecodeFrom, FetchEnd;
    var s := w + end;
    if end != [] {
      assert s[|w|] == end[0] && s[|w|..] == end;
      FetchEndMoved(s, |w|, 1, g.modern);
    }
  }

  lemma SomethingSent<V>(c: Codec<V>, rs: seq<SentRow<V>>)
    requires forall r | r in rs :: |r.sent| == |r.values| < 0x1_0000
    ensures rs != [] ==> |RowsBytes(c, rs)| > 0
  {
  }

  lemma AtAfterFlags(flags: seq<byte>, w: seq<byte>, s: seq<byte>)
    requires s == flags + w
    ensures At(s, |flags|, w)
  {
  }
}

/** The two row decoders and the fetch parser as they are written. */
module RowDecoders {
  import opened Bytes
  import ErrorMessageCode
  import opened ErrorMessages
  import opened Messages
  import opened ReadBuffers
  import opened Reads
  import opened Rows
  import opened Wrappers

  /** One column through the codec; a codec that runs past the buffer has failed. */
  method ReadColumn<V>(buf: ReadBuffer, c: Codec<V>, col: nat) returns (r: Option<V>)
    requires buf.Valid()
    modifies buf
    ensures buf.Valid()
    ensures match c.decode(col, old(buf.RemainingBytes()))
      case Some((v, n)) =>
        if n <= old(buf.Remaining()) then r == Some(v) && buf.pos == old(buf.pos) + n else r == None
      case None => r == None
  {
    var read := c.decode(col, buf.RemainingBytes());
    if read.None? {
      return None;
    }
    var (v, n) := read.value;
    var moved := buf.SkipBytes(n);
    return if moved.Success? then Some(v) else None;
  }

  /** What a row decoder returns, and where it leaves the cursor when it succeeds. */
  ghost predicate Decoded<V>(r: Option<seq<V>>, pos: nat, data: seq<byte>, spec: Option<(seq<V>, nat)>) {
    match spec
    case Some((vs, q)) => if q <= |data| then r == Some(vs) && pos == q else r == None
    case None => r == None
  }

  lemma {:induction false} DecodeGrows<V>(c: Codec<V>, columns: nat, col: nat, s: seq<byte>, p: nat,
                                          bv: Option<seq<byte>>, prev: Option<seq<V>>)
    ensures var d := DecodeFrom(c, columns, col, s, p, bv, prev); d.Some? ==> d.value.1 >= p
    decreases columns - col
  {
    if col < columns {
      if IsDuplicate(bv, col) {
        DecodeGrows(c, columns, col + 1, s, p, bv, prev);
      } else if p <= |s| && c.decode(col, s[p..]).Some? {
        DecodeGrows(c, columns, col + 1, s, p + c.decode(col, s[p..]).value.1, bv, prev);
      }
    }
  }

  function Prepend<V>(vs: seq<V>, d: Option<(seq<V>, nat)>): Option<(seq<V>, nat)> {
    if d.Some? then Some((vs + d.value.0, d.value.1)) else None
  }

  /** The columns done so far in front of those still to come. */
  lemma DecodeStep<V>(c: Codec<V>, columns: nat, col: nat, s: seq<byte>, p: nat, bv: Option<seq<byte>>,
                      prev: Option<seq<V>>, done: seq<V>)
    requires col < columns && p <= |s|
    ensures IsDuplicate(bv, col) ==>
      Prepend(done, DecodeFrom(c, columns, col, s, p, bv, prev))
        == Prepend(done + [Previous(prev, col, c.absent)], DecodeFrom(c, columns, col + 1, s, p, bv, prev))
    ensures !IsDuplicate(bv, col) && c.decode(col, s[p..]).Some? ==>
      var (v, n) := c.decode(col, s[p..]).value;
      Prepend(done, DecodeFrom(c, columns, col, s, p, bv, prev))
        == Prepend(done + [v], DecodeFrom(c, columns, col + 1, s, p + n, bv, prev))
    ensures !IsDuplicate(bv, col) && c.decode(col, s[p..]).None? ==>
      DecodeFrom(c, columns, col, s, p, bv, prev) == None
  {
    if IsDuplicate(bv, col) {
      PrependAssoc(done, Previous(prev, col, c.absent), DecodeFrom(c, columns, col + 1, s, p, bv, prev));
    } else if c.decode(col, s[p..]).Some? {
      var (v, n) := c.decode(col, s[p..]).value;
      PrependAssoc(done, v, DecodeFrom(c, columns, col + 1, s, p + n, bv, prev));
    }
  }

  lemma PrependAssoc<V>(done: seq<V>, v: V, d: Option<(seq<V>, nat)>)
    ensures Prepend(done, Prepend([v], d)) == Prepend(done + [v], d)
  {
    if d.Some? {
      assert done + ([v] + d.value.0) == done + [v] + d.value.0;
    }
  }

  /** The connection's decoder: each column is tested in place. */
  method ParseRowData<V>(buf: ReadBuffer, c: Codec<V>, columns: nat, bv: Option<seq<byte>>, prev: Option<seq<V>>)
    returns (r: Option<seq<V>>)
    requires buf.Valid()
    modifies buf
    ensures buf.Valid()
    ensures Decoded(r, buf.pos, buf.data, DecodeFrom(c, columns, 0, buf.data, old(buf.pos), bv, prev))
  {
    hide DecodeFrom;
    var values: seq<V> := [];
    ghost var spec := DecodeFrom(c, columns, 0, buf.data, buf.pos, bv, prev);
    PrependNothing(spec);
    for col := 0 to columns
      invariant buf.Valid()
      invariant spec == Prepend(values, DecodeFrom(c, columns, col, buf.data, buf.pos, bv, prev))
    {
      DecodeStep(c, columns, col, buf.data, buf.pos, bv, prev, values);
      var duplicate := false;
      if bv.Some? {
        var byteNum, bitNum := col / 8, col % 8;
        if byteNum < |bv.value| {
          duplicate := !Bit(bv.value[byteNum], bitNum);
        }
      }
      if duplicate {
        if prev.Some? {
          if col < |prev.value| {
            values := values + [prev.value[col]];
          } else {
            values := values + [c.absent];
          }
        } else {
          values := values + [c.absent];
        }
      } else {
        ghost var before := buf.pos;
        var value := ReadColumn(buf, c, col);
        if value.None? {
          if c.decode(col, buf.data[before..]).Some? {
            var n := c.decode(col, buf.data[before..]).value.1;
            DecodeGrows(c, columns, col + 1, buf.data, before + n, bv, prev);
          }
          return None;
        }
        values := values + [value.value];
      }
    }
    DecodeDone(c, columns, buf.data, buf.pos, bv, prev, values);
    return Some(values);
  }

  lemma PrependNothing<V>(d: Option<(seq<V>, nat)>)
    ensures Prepend([], d) == d
  {
    if d.Some? {
      assert [] + d.value.0 == d.value.0;
    }
  }

  lemma DecodeDone<V>(c: Codec<V>, columns: nat, s: seq<byte>, p: nat, bv: Option<seq<byte>>, prev: Option<seq<V>>,
                      values: seq<V>)
    ensures Prepend(values, DecodeFrom(c, columns, columns, s, p, bv, prev)) == Some((values, p))
  {
    assert values + [] == values;
  }

  /** The row decoder of the row module: the test is a method of its own and the row before
      supplies the value if it has one. */
  method DecodeRow<V>(buf: ReadBuffer, c: Codec<V>, columns: nat, bv: Option<seq<byte>>, prev: Option<seq<V>>)
    returns (r: Option<seq<V>>)
    requires buf.Valid()
    modifies buf
    ensures buf.Valid()
    ensures Decoded(r, buf.pos, buf.data, DecodeFrom(c, columns, 0, buf.data, old(buf.pos), bv, prev))
  {
    hide DecodeFrom;
    var values: seq<V> := [];
    ghost var spec := DecodeFrom(c, columns, 0, buf.data, buf.pos, bv, prev);
    PrependNothing(spec);
    for index := 0 to columns
      invariant buf.Valid()
      invariant spec == Prepend(values, DecodeFrom(c, columns, index, buf.data, buf.pos, bv, prev))
    {
      DecodeStep(c, columns, index, buf.data, buf.pos, bv, prev, values);
      var value: V;
      if IsDuplicate(bv, index) {
        value := Previous(prev, index, c.absent);
      } else {
        ghost var before := buf.pos;
        var read := ReadColumn(buf, c, index);
        if read.None? {
          if c.decode(index, buf.data[before..]).Some? {
            var n := c.decode(index, buf.data[before..]).value.1;
            DecodeGrows(c, columns, index + 1, buf.data, before + n, bv, prev);
          }
          return None;
        }
        value := read.value;
      }
      values := values + [value];
    }
    DecodeDone(c, columns, buf.data, buf.pos, bv, prev, values);
    return Some(values);
  }

  /** The fields of a row header up to its bit vector, skipped one by one. */
  method ReadHeaderStart(buf: ReadBuffer) returns (r: Result<(), ReadError>)
    requires buf.Valid()
    modifies buf
    ensures buf.Valid() && Reading(r, buf.pos) == HeaderStart(buf.data, old(buf.pos))
  {
    hide SkipUb;
    r := buf.SkipBytes(1);
    if r.Success? {
      r := buf.SkipUbN();
      if r.Success? {
        r := buf.SkipUbN();
        if r.Success? {
          r := buf.SkipUbN();
          if r.Success? {
            r := buf.SkipUbN();
          }
        }
      }
    }
  }

  method ReadRowHeader(buf: ReadBuffer) returns (r: Result<Option<seq<byte>>, ReadError>)
    requires buf.Valid()
    modifies buf
    ensures buf.Valid() && Reading(r, buf.pos) == RowHeader(buf.data, old(buf.pos))
  {
    hide HeaderStart, Ub, Chunked;
    var _ :- ReadHeaderStart(buf);
    var bv: Option<seq<byte>> := None;
    var numBytes :- buf.ReadUb4();
    if numBytes > 0 {
      var _ :- buf.SkipBytes(1);
      var read :- buf.ReadBytesVec(numBytes);
      bv := Some(read);
    }
    var _ :- ErrorMessageCode.SkipChunked4(buf);
    return Success(bv);
  }

  method ReadVectorMessage(buf: ReadBuffer, columns: nat) returns (r: Result<Option<seq<byte>>, ReadError>)
    requires buf.Valid()
    modifies buf
    ensures buf.Valid() && Reading(r, buf.pos) == VectorMessage(buf.data, old(buf.pos), columns)
  {
    hide Ub;
    var _ :- buf.ReadUb2();
    var numBytes := (columns + 7) / 8;
    if numBytes > 0 {
      var read :- buf.ReadBytesVec(numBytes);
      return Success(Some(read));
    }
    return Success(None);
  }

  /** The message loop of a fetch response. */
  method ParseFetchResponse<V>(g: Setting<V>, payload: seq<byte>, cursorId: u16)
    returns (r: Result<Fetched<V>, RowError>)
    ensures r == ParseFetch(g, payload, cursorId)
  {
    hide RowHeader, VectorMessage, DecodeFrom, FetchEnd;
    if |payload| < 3 {
      return Failure(TooShort);
    }
    var buf := new ReadBuffer(payload);
    var flags := buf.SkipBytes(2);
    var rows: seq<seq<V>> := [];
    var bitVector: Option<seq<byte>> := None;
    var previous: Option<seq<V>> := None;
    while buf.Remaining() >= 1
      invariant buf.Valid() && fresh(buf) && buf.data == payload
      invariant ParseFrom(g, payload, buf.pos, Progress(bitVector, previous, rows, cursorId))
             == ParseFetch(g, payload, cursorId)
      decreases |payload| - buf.pos
    {
      ghost var start := buf.pos;
      var kind := buf.ReadU8();
      if kind.value == ROW_HEADER {
        var header := ReadRowHeader(buf);
        if header.Failure? {
          return Failure(BadMessage);
        }
        if header.value.Some? {
          bitVector := header.value;
        }
      } else if kind.value == ROW_DATA {
        DecodeGrows(g.codec, g.columns, 0, payload, buf.pos, bitVector, previous);
        var row := ParseRowData(buf, g.codec, g.columns, bitVector, previous);
        if row.None? {
          return Failure(BadColumn);
        }
        previous := Some(row.value);
        bitVector := None;
        rows := rows + [row.value];
      } else if kind.value == BIT_VECTOR {
        var vector := ReadVectorMessage(buf, g.columns);
        if vector.Failure? {
          return Failure(BadMessage);
        }
        if vector.value.Some? {
          bitVector := vector.value;
        }
      } else if kind.value == ERROR {
        var info := ErrorMessageCode.ParseFetchEnd(buf, g.modern);
        if info.Failure? {
          return Failure(BadMessage);
        }
        if info.value.code != 0 && info.value.code != 1403 {
          return Failure(OracleError(info.value.code, info.value.message));
        }
        return Success(Fetched(rows, info.value.moreRows, info.value.cursorId));
      } else {
        break;
      }
    }
    return Success(Fetched(rows, true, cursorId));
  }
}
