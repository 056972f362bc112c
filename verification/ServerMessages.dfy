/** What a server writes: the messages of a response as bytes, every field with a value of its own,
    and that they are read as what was written. */
module ServerMessages {
  import opened Bytes
  import opened ErrorMessages
  import opened ErrorTexts
  import opened Reads
  import Responses
  import Rows
  import WireFormat
  import opened Wrappers
  import opened Writes

  // ---- Parts ---------------------------------------------------------------------------

  /** From `p` on the bytes are `w`, and no more. */
  ghost predicate Left(s: seq<byte>, p: nat, w: seq<byte>) {
    p <= |s| && s[p..] == w
  }

  /** Bytes that are not looked at. */
  lemma Past(u: seq<byte>, s: seq<byte>, p: nat, rest: seq<byte>) returns (q: nat)
    requires Left(s, p, u + rest)
    ensures p <= q <= |s| && q == p + |u| && Left(s, q, rest) && At(s, p, u)
    ensures Take(s, p, |u|) == Reading(Success(u), q) && Skip(s, p, |u|) == Reading(Success(()), q)
    ensures SkipOnes(s, p, |u|) == Reading(Success(()), q)
  {
    q := p + |u|;
    assert |s[p..]| == |u| + |rest|;
    assert s[q..] == s[p..][|u|..] == rest;
    assert s[p..q] == s[p..][..|u|] == u;
    forall i | p <= i < q
      ensures s[i] == u[i - p]
    {
      assert s[p..][i - p] == u[i - p];
    }
  }

  /** One byte. */
  lemma ByteThen(b: byte, s: seq<byte>, p: nat, rest: seq<byte>) returns (q: nat)
    requires Left(s, p, [b] + rest)
    ensures p < q <= |s| && q == p + 1 && s[p] == b && Left(s, q, rest)
    ensures Skip(s, p, 1) == Reading(Success(()), q) && SkipOnes(s, p, 1) == Reading(Success(()), q)
  {
    q := Past([b], s, p, rest);
    assert s[p] == [b][0];
  }

  /** A number, read or passed over. */
  lemma UbThen(v: u64, max: byte, s: seq<byte>, p: nat, rest: seq<byte>) returns (q: nat)
    requires max in {2, 4, 8} && v < Pow256(max) && Left(s, p, UbBytes(v) + rest)
    ensures p < q <= |s| && Left(s, q, rest)
    ensures Ub(s, p, max) == Reading(Success(v as nat), q) && SkipUb(s, p) == Reading(Success(()), q)
  {
    hide UbBytes, Ub, SkipUb, Pow256;
    q := Past(UbBytes(v), s, p, rest);
    WireFormat.UbRoundTrip(v, max, s, p);
    WireFormat.SkipUbOfWritten(v, max, s, p);
  }

  lemma SkipThen(v: u64, s: seq<byte>, p: nat, rest: seq<byte>) returns (q: nat)
    requires Left(s, p, UbBytes(v) + rest)
    ensures p < q <= |s| && Left(s, q, rest) && SkipUb(s, p) == Reading(Success(()), q)
  {
    Pow256Values();
    q := UbThen(v, 8, s, p, rest);
  }

  function NumbersThen(ns: seq<u64>, rest: seq<byte>): seq<byte> {
    if ns == [] then rest else UbBytes(ns[0]) + NumbersThen(ns[1..], rest)
  }

  lemma {:induction false} SkipsThen(ns: seq<u64>, s: seq<byte>, p: nat, rest: seq<byte>) returns (q: nat)
    requires Left(s, p, NumbersThen(ns, rest))
    ensures p <= q <= |s| && Left(s, q, rest) && SkipUbs(s, p, |ns|) == Reading(Success(()), q)
    decreases |ns|
  {
    hide UbBytes, SkipUb, Left;
    q := p;
    assert Left(s, p, rest) || ns != [];
    if ns != [] {
      q := SkipThen(ns[0], s, p, NumbersThen(ns[1..], rest));
      q := SkipsThen(ns[1..], s, q, rest);
    } else {
      LeftBound(s, p, rest);
    }
  }

  lemma LeftBound(s: seq<byte>, p: nat, w: seq<byte>)
    requires Left(s, p, w)
    ensures p <= |s| && |s| - p == |w|
  {
  }

  /** A length-prefixed value. */
  lemma PrefixedThen(x: Option<seq<byte>>, s: seq<byte>, p: nat, rest: seq<byte>) returns (q: nat)
    requires Left(s, p, LengthPrefixed(x) + rest)
    ensures p < q <= |s| && Left(s, q, rest)
    ensures BytesWithLength(s, p) == Reading(Success(x), q)
    ensures (x.Some? ==> Utf8(x.value)) ==> TextWithLength(s, p) == Reading(Success(x), q)
    ensures x.Some? && !Utf8(x.value) ==> TextWithLength(s, p) == Reading(Failure(InvalidText), q)
    ensures x.Some? ==> RawBytesChunked(s, p) == Reading(Success(x.value), q)
    ensures x.Some? ==> SkipRawBytesChunked(s, p) == Reading(Success(()), q)
  {
    hide LengthPrefixed, BytesWithLength, RawBytesChunked, SkipRawBytesChunked, Utf8;
    q := Past(LengthPrefixed(x), s, p, rest);
    WireFormat.LengthPrefixedRoundTrip(x, s, p);
    WireFormat.SkipRawAgrees(s, p);
    if x.Some? {
      Rows.UnitReading(SkipRawBytesChunked(s, p));
    }
  }

  /** A size, and unless that is zero, bytes. */
  datatype Sized = Sized(size: u32, data: seq<byte>)

  function SizedThen(x: Sized, rest: seq<byte>): seq<byte> {
    UbBytes(x.size) + if x.size == 0 then rest else LengthPrefixed(Some(x.data)) + rest
  }

  lemma ChunkedThen(x: Sized, max: byte, s: seq<byte>, p: nat, rest: seq<byte>) returns (q: nat)
    requires max in {2, 4} && x.size < Pow256(max) && Left(s, p, SizedThen(x, rest))
    ensures p < q <= |s| && Left(s, q, rest) && Chunked(s, p, max) == Reading(Success(()), q)
  {
    hide UbBytes, Ub, SkipUb, LengthPrefixed, SkipRawBytesChunked, Left, Pow256;
    if x.size == 0 {
      q := UbThen(0, max, s, p, rest);
    } else {
      q := UbThen(x.size, max, s, p, LengthPrefixed(Some(x.data)) + rest);
      q := PrefixedThen(Some(x.data), s, q, rest);
    }
  }

  // ---- The error message ---------------------------------------------------------------

  /** What all error messages begin with, field by field. */
  datatype EndHead = EndHead(
    status: u32,
    numbers: seq<u64>,
    cursorId: u16,
    position: u16,
    flags: seq<byte>,
    row: seq<u64>,
    filler: byte,
    place: seq<u64>,
    calls: seq<byte>,
    counters: seq<u64>,
    diagnostic: Sized)
  {
    predicate Good() {
      |numbers| == 5 && |flags| == 6 && |row| == 2 && |place| == 3 && |calls| == 2 && |counters| == 2
    }
  }

  function HeadThen(h: EndHead, rest: seq<byte>): seq<byte> {
    UbBytes(h.status) + NumbersThen(h.numbers,
    UbBytes(h.cursorId) + (UbBytes(h.position)
    + (h.flags + NumbersThen(h.row, [h.filler]
    + NumbersThen(h.place, h.calls
    + NumbersThen(h.counters, SizedThen(h.diagnostic, rest)))))))
  }

  lemma HeadStartThen(h: EndHead, s: seq<byte>, p: nat, rest: seq<byte>) returns (q: nat)
    requires h.Good() && Left(s, p, UbBytes(h.status) + NumbersThen(h.numbers, rest))
    ensures p < q <= |s| && Left(s, q, rest) && HeadStart(s, p) == Reading(Success(()), q)
  {
    hide UbBytes, NumbersThen, Ub, SkipUb, SkipUbs, Left, Pow256;
    Pow256Values();
    q := UbThen(h.status, 4, s, p, NumbersThen(h.numbers, rest));
    q := SkipsThen(h.numbers, s, q, rest);
  }

  lemma HeadCursorThen(h: EndHead, s: seq<byte>, p: nat, rest: seq<byte>) returns (q: nat)
    requires Left(s, p, UbBytes(h.cursorId) + (UbBytes(h.position) + rest))
    ensures p < q <= |s| && Left(s, q, rest) && HeadCursor(s, p) == Reading(Success(h.cursorId), q)
  {
    hide UbBytes, Ub, SkipUb, Left, Pow256;
    Pow256Values();
    q := UbThen(h.cursorId, 2, s, p, UbBytes(h.position) + rest);
    q := UbThen(h.position, 2, s, q, rest);
  }

  lemma HeadFlagsThen(h: EndHead, s: seq<byte>, p: nat, rest: seq<byte>) returns (q: nat)
    requires h.Good() && Left(s, p, h.flags + NumbersThen(h.row, [h.filler] + rest))
    ensures p < q <= |s| && Left(s, q, rest) && HeadFlags(s, p) == Reading(Success(()), q)
  {
    hide NumbersThen, SkipUbs, SkipOnes, Left;
    q := Past(h.flags, s, p, NumbersThen(h.row, [h.filler] + rest));
    q := SkipsThen(h.row, s, q, [h.filler] + rest);
    q := ByteThen(h.filler, s, q, rest);
  }

  lemma HeadCountersThen(h: EndHead, s: seq<byte>, p: nat, rest: seq<byte>) returns (q: nat)
    requires h.Good() && Left(s, p, NumbersThen(h.place, h.calls + NumbersThen(h.counters, rest)))
    ensures p <= q <= |s| && Left(s, q, rest) && HeadCounters(s, p) == Reading(Success(()), q)
  {
    hide NumbersThen, SkipUbs, SkipOnes, Left;
    q := SkipsThen(h.place, s, p, h.calls + NumbersThen(h.counters, rest));
    q := Past(h.calls, s, q, NumbersThen(h.counters, rest));
    q := SkipsThen(h.counters, s, q, rest);
  }

  /** The head tells the cursor, whatever else it holds. */
  lemma HeadRead(h: EndHead, s: seq<byte>, p: nat, rest: seq<byte>) returns (q: nat)
    requires h.Good() && Left(s, p, HeadThen(h, rest))
    ensures p < q <= |s| && Left(s, q, rest) && Head(s, p) == Reading(Success(h.cursorId), q)
  {
    hide UbBytes, NumbersThen, SizedThen, HeadStart, HeadCursor, HeadFlags, HeadCounters, Chunked, Left, Pow256;
    Pow256Values();
    var w4 := SizedThen(h.diagnostic, rest);
    var w3 := NumbersThen(h.place, h.calls + NumbersThen(h.counters, w4));
    var w2 := h.flags + NumbersThen(h.row, [h.filler] + w3);
    q := HeadStartThen(h, s, p, UbBytes(h.cursorId) + (UbBytes(h.position) + w2));
    q := HeadCursorThen(h, s, q, w2);
    q := HeadFlagsThen(h, s, q, w3);
    q := HeadCountersThen(h, s, q, w4);
    q := ChunkedThen(h.diagnostic, 4, s, q, rest);
  }

  // ---- Lists of batch errors -----------------------------------------------------------

  /** A list behind its length and a byte; of an empty list only the length is sent. */
  function ListThen(ns: seq<u64>, packed: byte, rest: seq<byte>): seq<byte>
    requires |ns| < 0x1_0000_0000
  {
    UbBytes(|ns|) + if ns == [] then rest else [packed] + NumbersThen(ns, rest)
  }

  ghost predicate AllBelow(ns: seq<u64>, max: byte) {
    forall n | n in ns :: n < Pow256(max)
  }

  lemma {:induction false} NumbersRead(ns: seq<u64>, max: byte, acc: seq<nat>, s: seq<byte>, p: nat, rest: seq<byte>)
    returns (q: nat)
    requires max in {2, 4} && AllBelow(ns, max) && Left(s, p, NumbersThen(ns, rest))
    ensures p <= q <= |s| && Left(s, q, rest) && Numbers(s, p, |ns|, max, acc) == Reading(Success(acc + ns), q)
    decreases |ns|
  {
    hide UbBytes, Ub, SkipUb, Left, Pow256;
    if ns == [] {
      q := p;
      LeftBound(s, p, rest);
      assert acc + ns == acc;
    } else {
      assert ns[0] in ns && forall n | n in ns[1..] :: n in ns;
      q := UbThen(ns[0], max, s, p, NumbersThen(ns[1..], rest));
      q := NumbersRead(ns[1..], max, acc + [ns[0]], s, q, rest);
      assert (acc + [ns[0]]) + ns[1..] == acc + ns;
    }
  }

  lemma ListRead(ns: seq<u64>, packed: byte, max: byte, s: seq<byte>, p: nat, rest: seq<byte>) returns (q: nat)
    requires max in {2, 4} && AllBelow(ns, max) && |ns| < Pow256(max) && |ns| < 0x1_0000_0000
    requires Left(s, p, ListThen(ns, packed, rest))
    ensures p < q <= |s| && Left(s, q, rest) && NumberList(s, p, max) == Reading(Success(ns), q)
  {
    hide UbBytes, NumbersThen, Ub, SkipUb, Skip, Left, Pow256, Numbers;
    if ns == [] {
      q := UbThen(0, max, s, p, rest);
    } else {
      q := UbThen(|ns|, max, s, p, [packed] + NumbersThen(ns, rest));
      q := ByteThen(packed, s, q, NumbersThen(ns, rest));
      q := NumbersRead(ns, max, [], s, q, rest);
      assert [] + ns == ns;
    }
  }

  /** The text of a failed row, behind a number and in front of two bytes. */
  datatype RowText = RowText(chunk: u64, text: Option<Text>, mark: seq<byte>)
  {
    predicate Good() {
      |mark| == 2 && (text.Some? ==> Utf8(text.value))
    }
  }

  function TextsThen(xs: seq<RowText>, rest: seq<byte>): seq<byte> {
    if xs == [] then rest
    else UbBytes(xs[0].chunk) + (LengthPrefixed(xs[0].text) + (xs[0].mark + TextsThen(xs[1..], rest)))
  }

  function TextListThen(xs: seq<RowText>, packed: byte, rest: seq<byte>): seq<byte>
    requires |xs| < 0x1_0000
  {
    UbBytes(|xs|) + if xs == [] then rest else [packed] + TextsThen(xs, rest)
  }

  /** The texts without the blanks around them. */
  function TextsOf(t: TextRules, xs: seq<RowText>): (r: seq<Text>)
    ensures |r| == |xs| && forall i | 0 <= i < |xs| :: r[i] == t.trim(xs[i].text.GetOr([]))
  {
    seq(|xs|, i requires 0 <= i < |xs| => t.trim(xs[i].text.GetOr([])))
  }

  lemma TextRead(t: TextRules, x: RowText, s: seq<byte>, p: nat, rest: seq<byte>) returns (q: nat)
    requires x.Good() && Left(s, p, UbBytes(x.chunk) + (LengthPrefixed(x.text) + (x.mark + rest)))
    ensures p < q <= |s| && Left(s, q, rest)
    ensures BatchText(t, s, p) == Reading(Success(t.trim(x.text.GetOr([]))), q)
  {
    hide UbBytes, LengthPrefixed, SkipUb, TextWithLength, Skip, Left, Utf8;
    q := SkipThen(x.chunk, s, p, LengthPrefixed(x.text) + (x.mark + rest));
    q := PrefixedThen(x.text, s, q, x.mark + rest);
    q := Past(x.mark, s, q, rest);
  }

  lemma {:induction false} TextsRead(t: TextRules, xs: seq<RowText>, acc: seq<Text>, s: seq<byte>, p: nat,
                                     rest: seq<byte>) returns (q: nat)
    requires (forall x | x in xs :: x.Good()) && Left(s, p, TextsThen(xs, rest))
    ensures p <= q <= |s| && Left(s, q, rest)
    ensures BatchTexts(t, s, p, |xs|, acc) == Reading(Success(acc + TextsOf(t, xs)), q)
    decreases |xs|
  {
    hide UbBytes, LengthPrefixed, Left, BatchText;
    if xs == [] {
      q := p;
      LeftBound(s, p, rest);
      assert acc + TextsOf(t, xs) == acc;
    } else {
      assert xs[0] in xs;
      q := TextRead(t, xs[0], s, p, TextsThen(xs[1..], rest));
      var one := t.trim(xs[0].text.GetOr([]));
      q := TextsRead(t, xs[1..], acc + [one], s, q, rest);
      assert (acc + [one]) + TextsOf(t, xs[1..]) == acc + TextsOf(t, xs);
    }
  }

  lemma TextListRead(t: TextRules, xs: seq<RowText>, packed: byte, s: seq<byte>, p: nat, rest: seq<byte>) returns (q: nat)
    requires |xs| < 0x1_0000 && (forall x | x in xs :: x.Good()) && Left(s, p, TextListThen(xs, packed, rest))
    ensures p < q <= |s| && Left(s, q, rest) && TextList(t, s, p) == Reading(Success(TextsOf(t, xs)), q)
  {
    hide UbBytes, TextsThen, Ub, SkipUb, Skip, Left, Pow256, BatchTexts;
    Pow256Values();
    if xs == [] {
      q := UbThen(0, 2, s, p, rest);
    } else {
      q := UbThen(|xs|, 2, s, p, [packed] + TextsThen(xs, rest));
      q := ByteThen(packed, s, q, TextsThen(xs, rest));
      q := TextsRead(t, xs, [], s, q, rest);
      assert [] + TextsOf(t, xs) == TextsOf(t, xs);
    }
  }

  // ---- All of the error message --------------------------------------------------------

  /** An error message: the head, the codes, row numbers and texts of failed rows, each list with a
      byte in front, the code, the row count, two numbers that newer servers send, and the text. */
  datatype ServerEnd = ServerEnd(
    head: EndHead,
    codes: seq<u64>,
    rows: seq<u64>,
    texts: seq<RowText>,
    packed: (byte, byte, byte),
    code: u32,
    rowCount: u64,
    newer: seq<u64>,
    text: Option<Text>)
  {
    ghost predicate Good() {
      && head.Good() && |newer| == 2
      && |codes| < 0x1_0000 && AllBelow(codes, 2)
      && |rows| < 0x1_0000_0000 && AllBelow(rows, 4)
      && |texts| < 0x1_0000 && (forall x | x in texts :: x.Good())
      && (text.Some? ==> Utf8(text.value))
    }

    predicate NoLists() {
      codes == [] && rows == [] && texts == []
    }
  }

  function VerdictThen(e: ServerEnd, modern: bool, rest: seq<byte>): seq<byte> {
    UbBytes(e.code) + (UbBytes(e.rowCount)
    + NumbersThen(if modern then e.newer else [], if e.code == 0 then rest else LengthPrefixed(e.text) + rest))
  }

  /** The message behind its type byte, and what follows it. */
  function EndThen(e: ServerEnd, modern: bool, rest: seq<byte>): seq<byte>
    requires |e.codes| < 0x1_0000 && |e.rows| < 0x1_0000_0000 && |e.texts| < 0x1_0000
  {
    HeadThen(e.head, ListThen(e.codes, e.packed.0, ListThen(e.rows, e.packed.1, TextListThen(e.texts, e.packed.2,
    VerdictThen(e, modern, rest)))))
  }

  lemma VerdictRead(e: ServerEnd, modern: bool, s: seq<byte>, p: nat, rest: seq<byte>) returns (q: nat)
    requires e.Good() && Left(s, p, VerdictThen(e, modern, rest))
    ensures p < q <= |s| && Left(s, q, rest)
    ensures VerdictAt(s, p, modern)
         == Reading(Success(Verdict(e.code, e.rowCount, if e.code == 0 then None else e.text)), q)
  {
    hide UbBytes, LengthPrefixed, NumbersThen, Ub, SkipUb, SkipUbs, TextWithLength, Left, Pow256, Utf8;
    Pow256Values();
    var newer := if modern then e.newer else [];
    var w2 := if e.code == 0 then rest else LengthPrefixed(e.text) + rest;
    var w1 := NumbersThen(newer, w2);
    q := UbThen(e.code, 4, s, p, UbBytes(e.rowCount) + w1);
    q := UbThen(e.rowCount, 8, s, q, w1);
    var r := SkipsThen(newer, s, q, w2);
    NoneSkipped(s, q);
    q := r;
    if e.code > 0 {
      q := PrefixedThen(e.text, s, q, rest);
    }
  }

  lemma NoneSkipped(s: seq<byte>, p: nat)
    requires p <= |s|
    ensures SkipUbs(s, p, 0) == Reading(Success(()), p)
  {
  }

  /** Every field of an error message is read as it was written. */
  lemma EndRead(t: TextRules, e: ServerEnd, modern: bool, s: seq<byte>, p: nat, rest: seq<byte>) returns (q: nat)
    requires e.Good() && Left(s, p, EndThen(e, modern, rest))
    ensures p < q <= |s| && Left(s, q, rest)
    ensures FieldsAt(t, s, p, modern) == Reading(
      Success(Fields(e.head.cursorId, Lists(e.codes, e.rows, TextsOf(t, e.texts)),
                     Verdict(e.code, e.rowCount, if e.code == 0 then None else e.text))), q)
  {
    hide HeadThen, ListThen, TextListThen, VerdictThen, Head, NumberList, TextList, VerdictAt, Left, Pow256, TextsOf,
      AllBelow;
    Pow256Values();
    var w3 := VerdictThen(e, modern, rest);
    var w2 := TextListThen(e.texts, e.packed.2, w3);
    var w1 := ListThen(e.rows, e.packed.1, w2);
    q := HeadRead(e.head, s, p, ListThen(e.codes, e.packed.0, w1));
    q := ListRead(e.codes, e.packed.0, 2, s, q, w1);
    q := ListRead(e.rows, e.packed.1, 4, s, q, w2);
    q := TextListRead(t, e.texts, e.packed.2, s, q, w3);
    q := VerdictRead(e, modern, s, q, rest);
  }

  /** The reader of fetches, on an error message without batch errors. */
  lemma FetchEndRead(e: ServerEnd, modern: bool, s: seq<byte>, p: nat, rest: seq<byte>) returns (q: nat)
    requires e.Good() && e.NoLists() && Left(s, p, EndThen(e, modern, rest))
    ensures p < q <= |s| && Left(s, q, rest)
    ensures FetchEnd(s, p, modern) == Reading(
      Success(FetchInfo(e.code, if e.code == 0 then [] else e.text.GetOr([]), e.head.cursorId, e.code != 1403)), q)
  {
    hide HeadThen, VerdictThen, Head, Chunked, VerdictAt, Left, Pow256, UbBytes;
    Pow256Values();
    var w3 := VerdictThen(e, modern, rest);
    var none := Sized(0, []);
    q := HeadRead(e.head, s, p, SizedThen(none, SizedThen(none, SizedThen(none, w3))));
    q := ChunkedThen(none, 2, s, q, SizedThen(none, SizedThen(none, w3)));
    q := ChunkedThen(none, 4, s, q, SizedThen(none, w3));
    q := ChunkedThen(none, 2, s, q, w3);
    q := VerdictRead(e, modern, s, q, rest);
  }

  // ---- Return parameters ---------------------------------------------------------------

  /** A two-byte size and, unless it is zero, a value. */
  datatype Announced = Announced(size: u16, value: Option<seq<byte>>)

  function AnnouncedThen(x: Announced, rest: seq<byte>): seq<byte> {
    UbBytes(x.size) + if x.size == 0 then rest else LengthPrefixed(x.value) + rest
  }

  /** What the reader of such a value asks of it. */
  predicate Fits(x: Announced, what: Responses.Lengthy) {
    && !what.Raw?
    && (x.size > 0 && what.Textual? && x.value.Some? ==> Utf8(x.value.value))
    && (x.size > 0 && what.InChunks? ==> x.value.Some?)
  }

  lemma AnnouncedRead(x: Announced, what: Responses.Lengthy, s: seq<byte>, p: nat, rest: seq<byte>) returns (q: nat)
    requires Fits(x, what) && Left(s, p, AnnouncedThen(x, rest))
    ensures p < q <= |s| && Left(s, q, rest) && Responses.Lengthed(s, p, what) == Some(q)
  {
    hide UbBytes, LengthPrefixed, Ub, SkipUb, TextWithLength, BytesWithLength, RawBytesChunked, Left, Pow256, Utf8;
    Pow256Values();
    if x.size == 0 {
      q := UbThen(0, 2, s, p, rest);
    } else {
      q := UbThen(x.size, 2, s, p, LengthPrefixed(x.value) + rest);
      q := PrefixedThen(x.value, s, q, rest);
    }
  }

  /** A size and as many bytes. */
  function RawThen(w: seq<byte>, rest: seq<byte>): seq<byte>
    requires |w| < 0x1_0000
  {
    UbBytes(|w|) + (w + rest)
  }

  lemma RawRead(w: seq<byte>, s: seq<byte>, p: nat, rest: seq<byte>) returns (q: nat)
    requires |w| < 0x1_0000 && Left(s, p, RawThen(w, rest))
    ensures p < q <= |s| && Left(s, q, rest) && Responses.Lengthed(s, p, Responses.Raw) == Some(q)
  {
    hide UbBytes, Ub, SkipUb, Skip, Left, Pow256;
    Pow256Values();
    var r := UbThen(|w|, 2, s, p, w + rest);
    q := Past(w, s, r, rest);
  }

  datatype Pair = Pair(key: Announced, value: Announced, keyword: u64)

  function PairsThen(xs: seq<Pair>, rest: seq<byte>): seq<byte> {
    if xs == [] then rest
    else AnnouncedThen(xs[0].key, AnnouncedThen(xs[0].value, UbBytes(xs[0].keyword) + PairsThen(xs[1..], rest)))
  }

  ghost predicate PairsFit(xs: seq<Pair>, keys: Responses.Lengthy, values: Responses.Lengthy) {
    forall x | x in xs :: Fits(x.key, keys) && Fits(x.value, values)
  }

  lemma PairRead(x: Pair, keys: Responses.Lengthy, values: Responses.Lengthy, s: seq<byte>, p: nat, rest: seq<byte>)
    returns (q: nat)
    requires Fits(x.key, keys) && Fits(x.value, values)
    requires Left(s, p, AnnouncedThen(x.key, AnnouncedThen(x.value, UbBytes(x.keyword) + rest)))
    ensures p < q <= |s| && Left(s, q, rest) && Responses.PairEnd(s, p, keys, values) == Some(q)
  {
    hide AnnouncedThen, UbBytes, Responses.Lengthed, SkipUb, Left, Fits;
    q := AnnouncedRead(x.key, keys, s, p, AnnouncedThen(x.value, UbBytes(x.keyword) + rest));
    q := AnnouncedRead(x.value, values, s, q, UbBytes(x.keyword) + rest);
    q := SkipThen(x.keyword, s, q, rest);
  }

  lemma {:induction false} PairsRead(xs: seq<Pair>, keys: Responses.Lengthy, values: Responses.Lengthy,
                                     s: seq<byte>, p: nat, rest: seq<byte>) returns (q: nat)
    requires PairsFit(xs, keys, values) && Left(s, p, PairsThen(xs, rest))
    ensures p <= q <= |s| && Left(s, q, rest) && Responses.PairsEnd(s, p, |xs|, keys, values) == Some(q)
    decreases |xs|
  {
    hide AnnouncedThen, UbBytes, Responses.PairEnd, Left, Fits;
    if xs == [] {
      q := p;
      LeftBound(s, p, rest);
    } else {
      assert xs[0] in xs && forall x | x in xs[1..] :: x in xs;
      q := PairRead(xs[0], keys, values, s, p, PairsThen(xs[1..], rest));
      q := PairsRead(xs[1..], keys, values, s, q, rest);
    }
  }

  /** Return parameters: numbers, a transaction part, pairs of keys and values, a registration, and
      row counts if they were asked for. */
  datatype Parameters = Parameters(
    numbers: seq<u64>,
    transaction: seq<byte>,
    pairs: seq<Pair>,
    registration: seq<byte>,
    counts: Option<seq<u64>>)
  {
    ghost predicate Good() {
      && |numbers| < 0x1_0000 && |transaction| < 0x1_0000 && |registration| < 0x1_0000
      && |pairs| < 0x1_0000 && PairsFit(pairs, Responses.Textual, Responses.InChunks)
      && (counts.Some? ==> |counts.value| < 0x1_0000_0000)
    }
  }

  function CountsThen(counts: Option<seq<u64>>, rest: seq<byte>): seq<byte>
    requires counts.Some? ==> |counts.value| < 0x1_0000_0000
  {
    match counts
    case None => rest
    case Some(ns) => UbBytes(|ns|) + NumbersThen(ns, rest)
  }

  function ParametersThen(x: Parameters, rest: seq<byte>): seq<byte>
    requires |x.numbers| < 0x1_0000 && |x.transaction| < 0x1_0000 && |x.registration| < 0x1_0000 && |x.pairs| < 0x1_0000
    requires x.counts.Some? ==> |x.counts.value| < 0x1_0000_0000
  {
    UbBytes(|x.numbers|) + NumbersThen(x.numbers, RawThen(x.transaction,
    UbBytes(|x.pairs|) + PairsThen(x.pairs, RawThen(x.registration, CountsThen(x.counts, rest)))))
  }

  lemma {:induction false} CountsRead(ns: seq<u64>, acc: seq<nat>, s: seq<byte>, p: nat, rest: seq<byte>) returns (q: nat)
    requires Left(s, p, NumbersThen(ns, rest))
    ensures p <= q <= |s| && Left(s, q, rest) && Responses.Counts(s, p, |ns|, acc) == Some((acc + ns, q))
    decreases |ns|
  {
    hide UbBytes, Ub, SkipUb, Left, Pow256;
    Pow256Values();
    if ns == [] {
      q := p;
      LeftBound(s, p, rest);
      assert acc + ns == acc;
    } else {
      q := UbThen(ns[0], 8, s, p, NumbersThen(ns[1..], rest));
      q := CountsRead(ns[1..], acc + [ns[0]], s, q, rest);
      assert (acc + [ns[0]]) + ns[1..] == acc + ns;
    }
  }

  lemma RowCountsRead(counts: Option<seq<u64>>, s: seq<byte>, p: nat, rest: seq<byte>) returns (q: nat)
    requires counts.Some? ==> |counts.value| < 0x1_0000_0000 && |CountsThen(counts, rest)| >= 4
    requires Left(s, p, CountsThen(counts, rest))
    ensures p <= q <= |s| && Left(s, q, rest)
    ensures Responses.RowCounts(s, p, counts.Some?)
         == Some((if counts.Some? then Some(counts.value) else None, q))
  {
    hide UbBytes, NumbersThen, Ub, SkipUb, Left, Pow256, Responses.Counts;
    Pow256Values();
    LeftBound(s, p, CountsThen(counts, rest));
    if counts.None? {
      q := p;
    } else {
      q := UbThen(|counts.value|, 4, s, p, NumbersThen(counts.value, rest));
      q := CountsRead(counts.value, [], s, q, rest);
      assert [] + counts.value == counts.value;
    }
  }

  /** Row counts are read if they were asked for, and at least four bytes are left. */
  ghost predicate CountsLeft(x: Parameters, rest: seq<byte>) {
    x.counts.Some? ==> |x.counts.value| < 0x1_0000_0000 && |CountsThen(x.counts, rest)| >= 4
  }

  /** Return parameters are passed over as they were written, row counts aside, which are told. */
  lemma ParametersRead(t: TextRules, x: Parameters, s: seq<byte>, p: nat, rest: seq<byte>) returns (q: nat)
    requires x.Good() && CountsLeft(x, rest) && Left(s, p, ParametersThen(x, rest))
    ensures p < q <= |s| && Left(s, q, rest)
    ensures Responses.StandardParameters(s, p, x.counts.Some?)
         == Some((if x.counts.Some? then Some(x.counts.value) else None, q))
    ensures Responses.ReturnParameters(t, s, p, x.counts.Some?)
         == Some((if x.counts.Some? then Some(x.counts.value) else None, q))
  {
    hide UbBytes, NumbersThen, RawThen, PairsThen, CountsThen, Ub, SkipUb, SkipUbs, Left, Pow256, PairsFit,
      Responses.Lengthed, Responses.PairsEnd, Responses.RowCounts, Responses.Search;
    Pow256Values();
    var w3 := RawThen(x.registration, CountsThen(x.counts, rest));
    var w2 := UbBytes(|x.pairs|) + PairsThen(x.pairs, w3);
    var w1 := RawThen(x.transaction, w2);
    q := UbThen(|x.numbers|, 2, s, p, NumbersThen(x.numbers, w1));
    q := SkipsThen(x.numbers, s, q, w1);
    q := RawRead(x.transaction, s, q, w2);
    q := UbThen(|x.pairs|, 2, s, q, PairsThen(x.pairs, w3));
    q := PairsRead(x.pairs, Responses.Textual, Responses.InChunks, s, q, w3);
    q := RawRead(x.registration, s, q, CountsThen(x.counts, rest));
    q := RowCountsRead(x.counts, s, q, rest);
  }

  /** Row counts that were asked for but not sent are not made up, if fewer than four bytes follow. */
  lemma ParametersWithoutCounts(t: TextRules, x: Parameters, s: seq<byte>, p: nat, rest: seq<byte>) returns (q: nat)
    requires x.Good() && x.counts.None? && |rest| < 4 && Left(s, p, ParametersThen(x, rest))
    ensures p < q <= |s| && Left(s, q, rest) && Responses.ReturnParameters(t, s, p, true) == Some((None, q))
  {
    hide ParametersThen, Left, Responses.ReturnParameters, Responses.RowCounts;
    q := ParametersRead(t, x, s, p, rest);
    LeftBound(s, q, rest);
    CountsOrNone(t, s, p, q);
  }

  lemma CountsOrNone(t: TextRules, s: seq<byte>, p: nat, q: nat)
    requires p <= |s| && Responses.StandardParameters(s, p, false) == Some((None, q)) && |s| - q < 4
    ensures Responses.ReturnParameters(t, s, p, true) == Some((None, q))
  {
    hide Ub, SkipUbs, Responses.Lengthed, Responses.PairsEnd, Responses.Search;
  }

  // ---- Piggybacked messages ------------------------------------------------------------

  /** The number of data types and the byte behind it. */
  datatype Types = Types(count: u64, size: byte)

  function TypesThen(x: Types, rest: seq<byte>): seq<byte> {
    UbBytes(x.count) + ([x.size] + rest)
  }

  /** The flags of a session, its identifier and its serial number. */
  datatype Identity = Identity(flags: u32, session: u32, serial: u16)

  function IdentityThen(x: Identity, rest: seq<byte>): seq<byte> {
    UbBytes(x.flags) + (UbBytes(x.session) + (UbBytes(x.serial) + rest))
  }

  /** What a server says along with a response, by kind. */
  datatype Piggyback =
    | CacheInvalidation
    | ProcessId(mark: byte, ids: seq<byte>)
    | Trace
    | SessionState(types: Types, mark: byte, pairs: seq<Pair>, identity: Identity)
    | Sync(types: Types, mark: byte, pairs: seq<Pair>, flags: u64)
    | Transaction(size: u32, id: Option<seq<byte>>)
    | ReplayContext(types: Types, flags: u64, error: u64, queue: byte, context: Sized)
    | ExtendedSync(types: Types)
    | Signature(types: Types, flags: u64, client: u64, server: u64)
  {
    ghost predicate Good() {
      match this
      case ProcessId(_, ids) => |ids| < 0x1_0000
      case SessionState(_, _, pairs, _) => |pairs| < 0x1_0000 && PairsFit(pairs, Responses.InChunks, Responses.InChunks)
      case Sync(_, _, pairs, _) =>
        |pairs| < 0x1_0000_0000 && PairsFit(pairs, Responses.Textual, Responses.Prefixed)
      case _ => true
    }
  }

  /** A piggybacked message behind its type byte, the byte of its kind in front. */
  ghost function PiggybackThen(x: Piggyback, rest: seq<byte>): seq<byte>
    requires x.Good()
  {
    match x
    case CacheInvalidation => [1] + rest
    case ProcessId(mark, ids) => [2] + (UbBytes(|ids|) + ([mark] + (ids + rest)))
    case Trace => [3] + rest
    case SessionState(types, mark, pairs, identity) =>
      [4] + TypesThen(types, UbBytes(|pairs|)
      + if pairs == [] then IdentityThen(identity, rest) else [mark] + PairsThen(pairs, IdentityThen(identity, rest)))
    case Sync(types, mark, pairs, flags) =>
      [5] + TypesThen(types, UbBytes(|pairs|) + ([mark] + PairsThen(pairs, UbBytes(flags) + rest)))
    case Transaction(size, id) => [7] + (UbBytes(size) + if size == 0 then rest else LengthPrefixed(id) + rest)
    case ReplayContext(types, flags, error, queue, context) =>
      [8] + TypesThen(types, NumbersThen([flags, error], [queue] + SizedThen(context, rest)))
    case ExtendedSync(types) => [9] + TypesThen(types, rest)
    case Signature(types, flags, client, server) => [10] + TypesThen(types, NumbersThen([flags, client, server], rest))
  }

  lemma TypesRead(x: Types, s: seq<byte>, p: nat, rest: seq<byte>) returns (q: nat)
    requires Left(s, p, TypesThen(x, rest))
    ensures p < q <= |s| && Left(s, q, rest) && Responses.TypesEnd(s, p) == Reading(Success(()), q)
  {
    hide UbBytes, SkipUb, Skip, Left;
    q := SkipThen(x.count, s, p, [x.size] + rest);
    q := ByteThen(x.size, s, q, rest);
  }

  lemma IdentityRead(x: Identity, s: seq<byte>, p: nat, rest: seq<byte>) returns (q: nat)
    requires Left(s, p, IdentityThen(x, rest))
    ensures p < q <= |s| && Left(s, q, rest) && Responses.IdentityEnd(s, p) == Some(q)
  {
    hide UbBytes, Ub, SkipUb, Left, Pow256;
    Pow256Values();
    q := UbThen(x.flags, 4, s, p, UbBytes(x.session) + (UbBytes(x.serial) + rest));
    q := UbThen(x.session, 4, s, q, UbBytes(x.serial) + rest);
    q := UbThen(x.serial, 2, s, q, rest);
  }

  lemma ProcessRead(mark: byte, types: seq<byte>, s: seq<byte>, p: nat, rest: seq<byte>) returns (q: nat)
    requires |types| < 0x1_0000 && Left(s, p, UbBytes(|types|) + ([mark] + (types + rest)))
    ensures p < q <= |s| && Left(s, q, rest) && Responses.ProcessEnd(s, p) == Some(q)
  {
    hide UbBytes, Ub, SkipUb, Skip, Left, Pow256;
    Pow256Values();
    q := UbThen(|types|, 2, s, p, [mark] + (types + rest));
    q := ByteThen(mark, s, q, types + rest);
    q := Past(types, s, q, rest);
  }

  lemma SessionRead(x: Piggyback, s: seq<byte>, p: nat, rest: seq<byte>) returns (q: nat)
    requires x.SessionState? && x.Good()
    requires var w := IdentityThen(x.identity, rest);
      Left(s, p, TypesThen(x.types, UbBytes(|x.pairs|) + if x.pairs == [] then w else [x.mark] + PairsThen(x.pairs, w)))
    ensures p < q <= |s| && Left(s, q, rest) && Responses.SessionEnd(s, p) == Some(q)
  {
    hide UbBytes, TypesThen, PairsThen, IdentityThen, Ub, SkipUb, Skip, Left, Pow256, PairsFit, Responses.TypesEnd,
      Responses.PairsEnd, Responses.IdentityEnd;
    Pow256Values();
    var w2 := IdentityThen(x.identity, rest);
    var w1 := if x.pairs == [] then w2 else [x.mark] + PairsThen(x.pairs, w2);
    q := TypesRead(x.types, s, p, UbBytes(|x.pairs|) + w1);
    q := UbThen(|x.pairs|, 2, s, q, w1);
    if x.pairs != [] {
      q := ByteThen(x.mark, s, q, PairsThen(x.pairs, w2));
      q := PairsRead(x.pairs, Responses.InChunks, Responses.InChunks, s, q, w2);
    }
    q := IdentityRead(x.identity, s, q, rest);
  }

  lemma SyncRead(x: Piggyback, s: seq<byte>, p: nat, rest: seq<byte>) returns (q: nat)
    requires x.Sync? && x.Good()
    requires Left(s, p, TypesThen(x.types, UbBytes(|x.pairs|) + ([x.mark] + PairsThen(x.pairs, UbBytes(x.flags) + rest))))
    ensures p < q <= |s| && Left(s, q, rest) && Responses.SyncEnd(s, p) == Some(q)
  {
    hide UbBytes, TypesThen, PairsThen, Ub, SkipUb, Skip, Left, Pow256, PairsFit, Responses.TypesEnd, Responses.PairsEnd;
    Pow256Values();
    var w2 := UbBytes(x.flags) + rest;
    var w1 := [x.mark] + PairsThen(x.pairs, w2);
    q := TypesRead(x.types, s, p, UbBytes(|x.pairs|) + w1);
    q := UbThen(|x.pairs|, 4, s, q, w1);
    q := ByteThen(x.mark, s, q, PairsThen(x.pairs, w2));
    q := PairsRead(x.pairs, Responses.Textual, Responses.Prefixed, s, q, w2);
    q := SkipThen(x.flags, s, q, rest);
  }

  lemma TransactionRead(size: u32, id: Option<seq<byte>>, s: seq<byte>, p: nat, rest: seq<byte>) returns (q: nat)
    requires Left(s, p, UbBytes(size) + if size == 0 then rest else LengthPrefixed(id) + rest)
    ensures p < q <= |s| && Left(s, q, rest) && Responses.TransactionEnd(s, p) == Some(q)
  {
    hide UbBytes, LengthPrefixed, Ub, SkipUb, BytesWithLength, Left, Pow256, Utf8;
    Pow256Values();
    q := UbThen(size, 4, s, p, if size == 0 then rest else LengthPrefixed(id) + rest);
    if size > 0 {
      q := PrefixedThen(id, s, q, rest);
    }
  }

  lemma ReplayRead(x: Piggyback, s: seq<byte>, p: nat, rest: seq<byte>) returns (q: nat)
    requires x.ReplayContext?
    requires Left(s, p, TypesThen(x.types, NumbersThen([x.flags, x.error], [x.queue] + SizedThen(x.context, rest))))
    ensures p < q <= |s| && Left(s, q, rest) && Responses.ReplayEnd(s, p) == Some(q)
  {
    hide TypesThen, NumbersThen, SizedThen, SkipUbs, Skip, Left, Pow256, Responses.TypesEnd, Chunked;
    Pow256Values();
    var w := [x.queue] + SizedThen(x.context, rest);
    q := TypesRead(x.types, s, p, NumbersThen([x.flags, x.error], w));
    q := SkipsThen([x.flags, x.error], s, q, w);
    q := ByteThen(x.queue, s, q, SizedThen(x.context, rest));
    q := ChunkedThen(x.context, 4, s, q, rest);
  }

  lemma SignatureRead(x: Piggyback, s: seq<byte>, p: nat, rest: seq<byte>) returns (q: nat)
    requires x.Signature?
    requires Left(s, p, TypesThen(x.types, NumbersThen([x.flags, x.client, x.server], rest)))
    ensures p < q <= |s| && Left(s, q, rest) && Responses.SignatureEnd(s, p) == Some(q)
  {
    hide TypesThen, NumbersThen, SkipUbs, Left, Responses.TypesEnd;
    q := TypesRead(x.types, s, p, NumbersThen([x.flags, x.client, x.server], rest));
    q := SkipsThen([x.flags, x.client, x.server], s, q, rest);
  }

  /** Every kind of piggybacked message is passed over to its end. */
  lemma PiggybackRead(x: Piggyback, s: seq<byte>, p: nat, rest: seq<byte>) returns (q: nat)
    requires x.Good() && Left(s, p, PiggybackThen(x, rest))
    ensures p < q <= |s| && Left(s, q, rest) && Responses.PiggybackEnd(s, p) == Some(q)
  {
    hide TypesThen, NumbersThen, SizedThen, IdentityThen, PairsThen, UbBytes, LengthPrefixed, Left, PairsFit,
      Responses.TransactionEnd, Responses.ProcessEnd, Responses.SyncEnd, Responses.TypesEnd, Responses.ReplayEnd,
      Responses.SessionEnd, Responses.SignatureEnd;
    var w := PiggybackThen(x, rest)[1..];
    var kind := PiggybackThen(x, rest)[0];
    assert PiggybackThen(x, rest) == [kind] + w;
    q := ByteThen(kind, s, p, w);
    match x {
      case CacheInvalidation => assert w == rest;
      case Trace => assert w == rest;
      case ProcessId(mark, ids) => q := ProcessRead(mark, ids, s, q, rest);
      case SessionState(_, _, _, _) => q := SessionRead(x, s, q, rest);
      case Sync(_, _, _, _) => q := SyncRead(x, s, q, rest);
      case Transaction(size, id) => q := TransactionRead(size, id, s, q, rest);
      case ReplayContext(_, _, _, _, _) => q := ReplayRead(x, s, q, rest);
      case ExtendedSync(types) => q := TypesRead(types, s, q, rest);
      case Signature(_, _, _, _) => q := SignatureRead(x, s, q, rest);
    }
  }

  // ---- Messages that do not end a response ---------------------------------------------

  /** A message other than rows, descriptions and errors. */
  datatype Quiet =
    | ReturnedParameters(parameters: Parameters)
    | Piggybacked(piggyback: Piggyback)
    | StatusReport(status: u32, sequence: u16)
    | VectorReport(count: u16, bits: byte)
    | HeaderReport(fields: Rows.HeaderFields, vector: seq<byte>)
    | Stray(kind: byte)
  {
    ghost predicate Good() {
      match this
      case ReturnedParameters(x) => x.Good()
      case Piggybacked(x) => x.Good()
      case HeaderReport(fields, vector) =>
        |vector| < 0x1_0000 && (fields.rowid.Some? ==> fields.rowid.value.announced > 0)
      case _ => true
    }
  }

  /** Its bytes: the type byte and what is behind it. */
  ghost function QuietThen(n: Quiet, rest: seq<byte>): seq<byte>
    requires n.Good()
  {
    match n
    case ReturnedParameters(x) => [8] + ParametersThen(x, rest)
    case Piggybacked(x) => [23] + PiggybackThen(x, rest)
    case StatusReport(status, sequence) => [9] + (UbBytes(status) + (UbBytes(sequence) + rest))
    case VectorReport(count, bits) => [21] + (UbBytes(count) + ([bits] + rest))
    case HeaderReport(fields, vector) => [6] + (Rows.HeaderBytes(fields, vector) + rest)
    case Stray(kind) => [kind] + rest
  }

  /** The loops for DML statements and batches take these; `want` is whether row counts were asked
      for. */
  ghost predicate InDml(n: Quiet, want: bool, rest: seq<byte>) {
    && n.Good()
    && match n
       case ReturnedParameters(x) => (x.counts.Some? <==> want) && CountsLeft(x, rest)
       case HeaderReport(_, _) => false
       case Stray(kind) => kind !in {4, 8, 9, 21, 23, 29}
       case _ => true
  }

  /** The loop for queries takes these. */
  ghost predicate InQuery(n: Quiet) {
    && n.Good()
    && match n
       case ReturnedParameters(x) => x.counts.None?
       case VectorReport(_, _) => false
       case Stray(_) => false
       case _ => true
  }

  function CountsTold(n: Quiet): Option<seq<nat>> {
    if n.ReturnedParameters? && n.parameters.counts.Some? then Some(n.parameters.counts.value) else None
  }

  lemma StatusRead(status: u32, sequence: u16, s: seq<byte>, p: nat, rest: seq<byte>) returns (q: nat)
    requires Left(s, p, UbBytes(status) + (UbBytes(sequence) + rest))
    ensures p < q <= |s| && Left(s, q, rest)
    ensures var r := Ub(s, p, 4); r.Ok() && Ub(s, r.pos, 2) == Reading(Success(sequence as nat), q)
  {
    hide UbBytes, Ub, SkipUb, Left, Pow256;
    Pow256Values();
    q := UbThen(status, 4, s, p, UbBytes(sequence) + rest);
    q := UbThen(sequence, 2, s, q, rest);
  }

  lemma HeaderRead(fields: Rows.HeaderFields, vector: seq<byte>, s: seq<byte>, p: nat, rest: seq<byte>) returns (q: nat)
    requires |vector| < 0x1_0000 && (fields.rowid.Some? ==> fields.rowid.value.announced > 0)
    requires Left(s, p, Rows.HeaderBytes(fields, vector) + rest)
    ensures p < q <= |s| && Left(s, q, rest) && Rows.RowHeader(s, p).Ok() && Rows.RowHeader(s, p).pos == q
  {
    hide Rows.HeaderBytes, Rows.RowHeader;
    var w := Rows.HeaderBytes(fields, vector);
    q := Past(w, s, p, rest);
    Rows.HeaderIsNotEmpty(fields, vector);
    LeftIsAt(s, p, w + rest);
    Rows.RowHeaderAt(fields, vector, s, p, rest);
  }

  lemma LeftIsAt(s: seq<byte>, p: nat, w: seq<byte>)
    requires Left(s, p, w)
    ensures At(s, p, w)
  {
    forall i | p <= i < p + |w|
      ensures s[i] == w[i - p]
    {
      assert s[p..][i - p] == w[i - p];
    }
  }

  lemma ParametersMessage(t: TextRules, x: Parameters, want: bool, s: seq<byte>, p: nat, rest: seq<byte>) returns (q: nat)
    requires InDml(ReturnedParameters(x), want, rest) && Left(s, p, [8] + ParametersThen(x, rest))
    ensures p < q <= |s| && Left(s, q, rest)
    ensures Responses.Message(t, s, p, want)
         == Some((if x.counts.Some? then Responses.CountsSeen(x.counts.value) else Responses.Nothing, q))
  {
    hide ParametersThen, Left, ErrorMessage, CountsLeft, Responses.ReturnParameters, Responses.PiggybackEnd;
    q := ByteThen(8, s, p, ParametersThen(x, rest));
    q := ParametersRead(t, x, s, q, rest);
  }

  lemma PiggybackMessage(t: TextRules, x: Piggyback, want: bool, s: seq<byte>, p: nat, rest: seq<byte>) returns (q: nat)
    requires x.Good() && Left(s, p, [23] + PiggybackThen(x, rest))
    ensures p < q <= |s| && Left(s, q, rest) && Responses.Message(t, s, p, want) == Some((Responses.Nothing, q))
  {
    hide PiggybackThen, Left, ErrorMessage, Responses.ReturnParameters, Responses.PiggybackEnd;
    q := ByteThen(23, s, p, PiggybackThen(x, rest));
    q := PiggybackRead(x, s, q, rest);
  }

  lemma StatusMessage(t: TextRules, status: u32, sequence: u16, want: bool, s: seq<byte>, p: nat, rest: seq<byte>)
    returns (q: nat)
    requires Left(s, p, [9] + (UbBytes(status) + (UbBytes(sequence) + rest)))
    ensures p < q <= |s| && Left(s, q, rest) && Responses.Message(t, s, p, want) == Some((Responses.Nothing, q))
  {
    hide UbBytes, Ub, Left, ErrorMessage, Responses.ReturnParameters, Responses.PiggybackEnd;
    q := ByteThen(9, s, p, UbBytes(status) + (UbBytes(sequence) + rest));
    q := StatusRead(status, sequence, s, q, rest);
  }

  lemma VectorMessageRead(t: TextRules, count: u16, bits: byte, want: bool, s: seq<byte>, p: nat, rest: seq<byte>)
    returns (q: nat)
    requires Left(s, p, [21] + (UbBytes(count) + ([bits] + rest)))
    ensures p < q <= |s| && Left(s, q, rest) && Responses.Message(t, s, p, want) == Some((Responses.Nothing, q))
  {
    hide UbBytes, Ub, SkipUb, Left, Pow256, ErrorMessage, Responses.ReturnParameters, Responses.PiggybackEnd;
    Pow256Values();
    q := ByteThen(21, s, p, UbBytes(count) + ([bits] + rest));
    q := UbThen(count, 2, s, q, [bits] + rest);
    q := ByteThen(bits, s, q, rest);
  }

  lemma StrayMessage(t: TextRules, kind: byte, want: bool, s: seq<byte>, p: nat, rest: seq<byte>) returns (q: nat)
    requires kind !in {4, 8, 9, 21, 23, 29} && Left(s, p, [kind] + rest)
    ensures p < q <= |s| && Left(s, q, rest) && Responses.Message(t, s, p, want) == Some((Responses.Nothing, q))
  {
    hide Left, ErrorMessage, Responses.ReturnParameters, Responses.PiggybackEnd;
    q := ByteThen(kind, s, p, rest);
  }

  /** In a DML or batch response such a message tells nothing but row counts. */
  lemma QuietMessage(t: TextRules, n: Quiet, want: bool, s: seq<byte>, p: nat, rest: seq<byte>) returns (q: nat)
    requires InDml(n, want, rest) && Left(s, p, QuietThen(n, rest))
    ensures p < q <= |s| && Left(s, q, rest)
    ensures Responses.Message(t, s, p, want)
         == Some((if CountsTold(n).Some? then Responses.CountsSeen(CountsTold(n).value) else Responses.Nothing, q))
  {
    hide ParametersThen, PiggybackThen, UbBytes, Left, CountsLeft, Responses.Message;
    match n {
      case ReturnedParameters(x) => q := ParametersMessage(t, x, want, s, p, rest);
      case Piggybacked(x) => q := PiggybackMessage(t, x, want, s, p, rest);
      case StatusReport(status, sequence) => q := StatusMessage(t, status, sequence, want, s, p, rest);
      case VectorReport(count, bits) => q := VectorMessageRead(t, count, bits, want, s, p, rest);
      case HeaderReport(_, _) => assert false;
      case Stray(kind) => q := StrayMessage(t, kind, want, s, p, rest);
    }
  }

  // ---- What an error message says ------------------------------------------------------

  /** The text it brings, without the blanks around it. A success brings none. */
  function OwnText(t: TextRules, e: ServerEnd): Option<Text> {
    if e.code == 0 || e.text.None? then None else Some(t.trim(e.text.value))
  }

  /** In the response `s` the message comes to this code and this text. */
  ghost predicate Says(t: TextRules, s: seq<byte>, e: ServerEnd, code: nat, text: Option<Text>) {
    Tells(t, s, e.code, OwnText(t, e), code, text)
  }

  /** It reports a success, or that there are no more rows. */
  ghost predicate Mild(t: TextRules, s: seq<byte>, e: ServerEnd) {
    forall code, text | Says(t, s, e, code, text) :: code == 0 || code == 1403
  }

  /** A message that brings a text with the name of an error, or a code of zero, or that stands in a
      response in which no error is named, says what it brings. */
  lemma SaysItsOwn(t: TextRules, s: seq<byte>, e: ServerEnd)
    requires e.code == 0 || (OwnText(t, e).Some? && NamesError(OwnText(t, e).value)) || !NamesError(s)
    ensures Says(t, s, e, e.code, OwnText(t, e))
    ensures Mild(t, s, e) <==> e.code == 0 || e.code == 1403
  {
    hide NamesError, Named, Tells;
    if e.code != 0 && !NamesError(s) {
      NothingNamed(t, s, e.code, OwnText(t, e));
    } else {
      OwnTells(t, s, e.code, OwnText(t, e));
    }
    forall code, text | Says(t, s, e, code, text)
      ensures code == e.code
    {
      NamedExactly(t, s, e.code, OwnText(t, e), code, text);
      NamedExactly(t, s, e.code, OwnText(t, e), e.code, OwnText(t, e));
    }
  }

  /** An error message says one thing. */
  lemma SaysOnce(t: TextRules, s: seq<byte>, e: ServerEnd) returns (code: nat, text: Option<Text>)
    ensures Says(t, s, e, code, text) && forall c, x | Says(t, s, e, c, x) :: c == code && x == text
  {
    hide Tells, Named;
    var own := OwnText(t, e);
    code, text := Named(t, s, e.code, own).0, Named(t, s, e.code, own).1;
    NamedExactly(t, s, e.code, own, code, text);
    forall c, x | Says(t, s, e, c, x)
      ensures c == code && x == text
    {
      NamedExactly(t, s, e.code, own, c, x);
    }
  }

  lemma OwnTells(t: TextRules, s: seq<byte>, code: nat, text: Option<Text>)
    requires code == 0 || (text.Some? && NamesError(text.value))
    ensures Tells(t, s, code, text, code, text)
  {
    hide NamesError, NamedAt;
  }

  /** The lists of failed rows as the reader of error messages has them. */
  function ListsOf(t: TextRules, e: ServerEnd): Lists {
    Lists(e.codes, e.rows, TextsOf(t, e.texts))
  }

  /** An error message is read as what it says. */
  lemma ErrorRead(t: TextRules, e: ServerEnd, modern: bool, s: seq<byte>, p: nat, rest: seq<byte>)
    returns (q: nat, code: nat, text: Option<Text>)
    requires e.Good() && Left(s, p, EndThen(e, modern, rest))
    ensures p < q <= |s| && Left(s, q, rest) && Says(t, s, e, code, text)
    ensures forall c, x | Says(t, s, e, c, x) :: c == code && x == text
    ensures ErrorMessage(t, s, p, modern) == Reading(
      Success(ErrorInfo(code, text, e.head.cursorId, e.rowCount, RowErrors(ListsOf(t, e), code, text))), q)
  {
    hide EndThen, FieldsAt, Left, RowErrors, Tells, Named, TextsOf;
    q := EndRead(t, e, modern, s, p, rest);
    code, text := SaysOnce(t, s, e);
    NamedExactly(t, s, e.code, OwnText(t, e), code, text);
    assert Trimmed(t, if e.code == 0 then None else e.text) == OwnText(t, e);
  }
}
