/** The bytes with which a response is complete, as a grammar: LOB data, and then a message that
    ends it. The grammar knows nothing of the scanner that looks for these bytes. */
module ResponseEnd {
  import opened Bytes
  import opened Framing
  import opened Reads
  import opened Reassembly
  import WireFormat
  import opened Wrappers
  import opened Writes

  // ---- LOB data on the wire ------------------------------------------------------------

  /** A number of at most four digits stands in front. The low seven bits of its first byte tell how
      many digits follow. */
  predicate Numbered(w: seq<byte>) {
    w != [] && w[0] % 0x80 <= 4 && w[0] % 0x80 < |w|
  }

  /** Where that number ends. */
  function NumberEnd(w: seq<byte>): (k: nat)
    requires Numbered(w)
    ensures 0 < k <= |w|
  {
    w[0] % 0x80 + 1
  }

  function Number(w: seq<byte>): nat
    requires Numbered(w)
  {
    BeAt(w, 1, w[0] % 0x80)
  }

  /** The bytes of chunked data: numbered chunks, then a zero. */
  predicate ChunksOf(w: seq<byte>, d: seq<byte>) {
    && Numbered(w)
    && var k, n := NumberEnd(w), Number(w);
       if n == 0 then |w| == k && d == []
       else n <= |d| && k + n <= |w| && w[k..k + n] == d[..n] && ChunksOf(w[k + n..], d[n..])
  }

  /** The bytes of LOB data: a length and as many bytes, or the byte 254 and chunks. */
  predicate LobOf(w: seq<byte>, d: seq<byte>) {
    w != [] && if w[0] != 254 then w[0] == |w| - 1 && d == w[1..] else ChunksOf(w[1..], d)
  }

  ghost predicate LobBytes(w: seq<byte>) {
    exists d :: LobOf(w, d)
  }

  /** LOB-data messages, type byte 14, one after the other. */
  function LobRun(ws: seq<seq<byte>>): seq<byte> {
    if ws == [] then [] else ([14] + ws[0]) + LobRun(ws[1..])
  }

  ghost predicate LobRunOf(ws: seq<seq<byte>>) {
    forall w | w in ws :: LobBytes(w)
  }

  /** What comes first decides at once if it is an error (4), a status (9) or an end message (29);
      behind a parameter message (8) the first 4 or 29 does, wherever it stands. */
  predicate DecidedAt(tail: seq<byte>, e: nat) {
    && e < |tail|
    && if e == 0 then tail[0] in {4, 9, 29}
       else tail[0] == 8 && tail[e] in {4, 29} && forall i | 0 < i < e :: tail[i] !in {4, 29}
  }

  /** A complete response, its flag bytes aside. */
  ghost predicate Complete(s: seq<byte>) {
    exists ws, tail, e :: LobRunOf(ws) && s == LobRun(ws) + tail && DecidedAt(tail, e)
  }

  // ---- The reader and the grammar ------------------------------------------------------

  lemma FirstNumber(w: seq<byte>, s: seq<byte>, p: nat)
    requires At(s, p, w) && Numbered(w)
    ensures Ub(s, p, 4) == Reading(Success(Number(w)), p + NumberEnd(w))
  {
    var k := w[0] % 0x80;
    assert s[p] == w[0];
    assert Same(w, 1, 1 + k, s, p);
    BeAtSame(w, 1, k, s, p);
  }

  lemma ChunksOfStep(w: seq<byte>, d: seq<byte>)
    ensures ChunksOf(w, d) <==>
      && Numbered(w)
      && var k, n := NumberEnd(w), Number(w);
         if n == 0 then |w| == k && d == []
         else n <= |d| && k + n <= |w| && w[k..k + n] == d[..n] && ChunksOf(w[k + n..], d[n..])
  {
    hide Numbered, NumberEnd, Number;
  }

  lemma {:induction false} ChunksAt(w: seq<byte>, d: seq<byte>, s: seq<byte>, p: nat, acc: seq<byte>)
    requires At(s, p, w) && ChunksOf(w, d)
    ensures Chunks(s, p, acc) == Reading(Success(acc + d), p + |w|)
    decreases |w|
  {
    hide ChunksOf, Chunks, Ub, Numbered, NumberEnd, Number, At;
    ChunksOfStep(w, d);
    FirstNumber(w, s, p);
    WireFormat.ChunksStep(s, p, acc);
    var k, n := NumberEnd(w), Number(w);
    if n == 0 {
      assert acc + d == acc;
    } else {
      assert w == w[..k] + (d[..n] + w[k + n..]);
      AtSplit(s, p, w[..k], d[..n] + w[k + n..]);
      AtSplit(s, p + k, d[..n], w[k + n..]);
      AtSlice(s, p + k, d[..n]);
      ChunksAt(w[k + n..], d[n..], s, p + k + n, acc + d[..n]);
      assert (acc + d[..n]) + d[n..] == acc + d;
    }
  }

  /** LOB data is read as what it holds, up to its end. */
  lemma LobAt(w: seq<byte>, d: seq<byte>, s: seq<byte>, p: nat)
    requires At(s, p, w) && LobOf(w, d)
    ensures RawBytesChunked(s, p) == Reading(Success(d), p + |w|)
  {
    hide Chunks, ChunksOf;
    assert w == [w[0]] + w[1..];
    AtSplit(s, p, [w[0]], w[1..]);
    assert s[p] == w[0];
    if w[0] != 254 {
      AtSlice(s, p + 1, w[1..]);
    } else {
      ChunksAt(w[1..], d, s, p + 1, []);
      assert [] + d == d;
    }
  }

  lemma {:induction false} ChunksRead(s: seq<byte>, p: nat, acc: seq<byte>) returns (d: seq<byte>)
    requires p <= |s| && Chunks(s, p, acc).Ok()
    ensures ChunksOf(s[p..Chunks(s, p, acc).pos], d) && Chunks(s, p, acc).Value() == acc + d
    decreases |s| - p
  {
    hide ChunksOf, Chunks, Ub, Numbered, NumberEnd, Number;
    var q := Chunks(s, p, acc).pos;
    var w := s[p..q];
    WireFormat.ChunksHead(s, p, acc);
    WireFormat.ChunksStep(s, p, acc);
    NumberRead(s, p, w);
    var k, n := NumberEnd(w), Number(w);
    if n == 0 {
      d := [];
      assert acc + d == acc;
    } else {
      var chunk := s[p + k..p + k + n];
      var rest := ChunksRead(s, p + k + n, acc + chunk);
      d := chunk + rest;
      assert w[k..k + n] == d[..n] && w[k + n..] == s[p + k + n..q] && d[n..] == rest;
      assert (acc + chunk) + rest == acc + d;
    }
    ChunksOfStep(w, d);
  }

  lemma NumberRead(s: seq<byte>, p: nat, w: seq<byte>)
    requires p <= |s| && Ub(s, p, 4).Ok() && At(s, p, w) && Ub(s, p, 4).pos <= p + |w|
    ensures Numbered(w) && Ub(s, p, 4) == Reading(Success(Number(w)), p + NumberEnd(w))
  {
    assert s[p] == w[0];
    FirstNumber(w, s, p);
  }

  /** Whatever is read as LOB data is LOB data. */
  lemma LobRead(s: seq<byte>, p: nat)
    requires p <= |s| && RawBytesChunked(s, p).Ok()
    ensures LobOf(s[p..RawBytesChunked(s, p).pos], RawBytesChunked(s, p).Value())
  {
    hide Chunks, ChunksOf;
    var r := RawBytesChunked(s, p);
    var w := s[p..r.pos];
    assert w[0] == s[p] && w[1..] == s[p + 1..r.pos];
    if s[p] == 254 {
      var d := ChunksRead(s, p + 1, []);
      assert [] + d == d;
    }
  }

  /** Any data as the writer of length-prefixed data writes it is LOB data. */
  lemma WrittenIsLob(d: seq<byte>)
    ensures LobOf(LengthPrefixed(Some(d)), d)
  {
    hide LobOf, LengthPrefixed, RawBytesChunked;
    var w := LengthPrefixed(Some(d));
    WireFormat.LengthPrefixedRoundTrip(Some(d), w, 0);
    LobRead(w, 0);
    assert w[0..|w|] == w;
  }

  // ---- The scanner and the grammar -----------------------------------------------------

  lemma LobRunFirst(w: seq<byte>, ws: seq<seq<byte>>)
    ensures LobRun([w] + ws) == ([14] + w) + LobRun(ws)
  {
    assert ([w] + ws)[1..] == ws;
  }

  lemma StartsWith(s: seq<byte>, p: nat, b: byte)
    requires At(s, p, [b])
    ensures p < |s| && s[p] == b
  {
    assert s[p] == [b][0];
  }

  lemma RunParts(ws: seq<seq<byte>>, tail: seq<byte>, s: seq<byte>, p: nat)
    requires ws != [] && At(s, p, LobRun(ws) + tail)
    ensures p < |s| && s[p] == 14 && At(s, p + 1, ws[0]) && At(s, p + 1 + |ws[0]|, LobRun(ws[1..]) + tail)
  {
    hide LobRun, At;
    LobRunFirst(ws[0], ws[1..]);
    assert [ws[0]] + ws[1..] == ws;
    assert LobRun(ws) + tail == [14] + (ws[0] + (LobRun(ws[1..]) + tail));
    AtSplit(s, p, [14], ws[0] + (LobRun(ws[1..]) + tail));
    StartsWith(s, p, 14);
    AtSplit(s, p + 1, ws[0], LobRun(ws[1..]) + tail);
  }

  lemma DecidedScan(tail: seq<byte>, e: nat, s: seq<byte>, p: nat)
    requires At(s, p, tail) && DecidedAt(tail, e)
    ensures Terminal(s, p)
  {
    assert s[p] == tail[0] && s[p + e] == tail[e];
    if e > 0 {
      assert s[p + 1..][e - 1] == tail[e];
    }
  }

  lemma {:induction false} CompleteScan(ws: seq<seq<byte>>, tail: seq<byte>, e: nat, s: seq<byte>, p: nat)
    requires LobRunOf(ws) && DecidedAt(tail, e) && At(s, p, LobRun(ws) + tail)
    ensures Terminal(s, p)
    decreases |ws|
  {
    hide Terminal, LobOf, RawBytesChunked, DecidedAt, LobRun;
    if ws == [] {
      assert LobRun(ws) == [] by { LobRunEmpty(); }
      assert [] + tail == tail;
      DecidedScan(tail, e, s, p);
    } else {
      RunParts(ws, tail, s, p);
      assert LobBytes(ws[0]);
      var d :| LobOf(ws[0], d);
      LobAt(ws[0], d, s, p + 1);
      TerminalLob(s, p);
      CompleteScan(ws[1..], tail, e, s, p + 1 + |ws[0]|);
    }
  }

  lemma LobRunEmpty()
    ensures LobRun([]) == []
  {
  }

  lemma {:induction false} ScanComplete(s: seq<byte>, p: nat) returns (ws: seq<seq<byte>>, tail: seq<byte>, e: nat)
    requires p <= |s| && Terminal(s, p)
    ensures LobRunOf(ws) && s[p..] == LobRun(ws) + tail && DecidedAt(tail, e)
    decreases |s| - p
  {
    hide RawBytesChunked, LobOf, LobRun;
    if s[p] == 14 {
      LobRead(s, p + 1);
      var q := RawBytesChunked(s, p + 1).pos;
      var w := s[p + 1..q];
      ws, tail, e := ScanComplete(s, q);
      LobRunFirst(w, ws);
      assert s[p..] == ([14] + w) + s[q..];
      assert ([14] + w) + (LobRun(ws) + tail) == (([14] + w) + LobRun(ws)) + tail;
      ws := [w] + ws;
    } else {
      LobRunEmpty();
      ws, tail := [], s[p..];
      assert [] + tail == tail;
      e := 0;
      if s[p] == 8 {
        e := FirstMark(tail);
      }
    }
  }

  lemma {:induction false} FirstMark(tail: seq<byte>) returns (e: nat)
    requires tail != [] && exists i | 0 < i < |tail| :: tail[i] in {4, 29}
    ensures 0 < e < |tail| && tail[e] in {4, 29} && forall i | 0 < i < e :: tail[i] !in {4, 29}
  {
    var i :| 0 < i < |tail| && tail[i] in {4, 29};
    e := 1;
    while tail[e] !in {4, 29}
      invariant 0 < e <= i && forall j | 0 < j < e :: tail[j] !in {4, 29}
      decreases i - e
    {
      e := e + 1;
    }
  }

  /** The scanner says yes to the complete responses of the grammar and to nothing else. */
  lemma ScannerIsGrammar(s: seq<byte>)
    ensures Terminal(s, 0) <==> Complete(s)
  {
    hide Terminal, LobRun, LobRunOf, DecidedAt;
    if Terminal(s, 0) {
      var ws, tail, e := ScanComplete(s, 0);
      assert s[0..] == s;
    }
    if Complete(s) {
      var ws, tail, e :| LobRunOf(ws) && s == LobRun(ws) + tail && DecidedAt(tail, e);
      CompleteScan(ws, tail, e, s, 0);
    }
  }

  // ---- The packet that completes a response --------------------------------------------

  /** Bit 0x2000 or 0x0040 of the two flag bytes, or a body that is a single end message. */
  predicate EndMarked(p: seq<byte>)
    requires |p| >= 10
  {
    p[8] / 0x20 % 2 == 1 || p[9] / 0x40 % 2 == 1 || (|p| == 11 && p[10] == 29)
  }

  lemma MarksAreSignals(p: seq<byte>)
    requires |p| >= 10
    ensures SignalsEnd(p) <==> EndMarked(p)
  {
    var a: int, b: int := p[8], p[9];
    assert BeAt(p, 8, 0) == 0 && BeAt(p, 8, 1) == a && BeAt(p, 8, 2) == 256 * a + b;
    HighBit(a, b);
    LowBit(a, b);
  }

  lemma HighBit(a: int, b: int)
    requires 0 <= a < 256 && 0 <= b < 256
    ensures (256 * a + b) / 0x2000 == a / 0x20
  {
  }

  lemma LowBit(a: int, b: int)
    requires 0 <= a < 256 && 0 <= b < 256
    ensures (256 * a + b) / 0x40 % 2 == b / 0x40 % 2
  {
    assert (256 * a + b) / 0x40 == 4 * a + b / 0x40;
  }

  /** The packets up to `ps[k]` make a complete response, and no fewer do. */
  ghost predicate EndsWith(ps: seq<seq<byte>>, k: nat)
    requires AllData(ps)
  {
    && k < |ps|
    && (EndMarked(ps[k]) || Complete(Bodies(ps[..k + 1])))
    && forall j | 0 <= j < k :: !EndMarked(ps[j]) && !Complete(Bodies(ps[..j + 1]))
  }

  /** Packets of which the last, and none before it, completes the response. */
  ghost predicate InPackets(ps: seq<seq<byte>>, large: bool) {
    ps != [] && AllData(ps) && AllFramed(ps, large) && EndsWith(ps, |ps| - 1)
  }

  /** The payload of the response: the flags of the first packet and all the bodies. */
  function PayloadOf(ps: seq<seq<byte>>): seq<byte>
    requires AllData(ps) && ps != []
  {
    ps[0][8..10] + Bodies(ps)
  }

  lemma CompleteByGrammar(ps: seq<seq<byte>>, k: nat)
    requires AllData(ps) && k < |ps|
    ensures CompleteAt(ps, k) <==> EndMarked(ps[k]) || Complete(Bodies(ps[..k + 1]))
  {
    hide Joined, Bodies, SignalsEnd, EndMarked, FlagBytes, Complete;
    var q := ps[..k + 1];
    MarksAreSignals(ps[k]);
    JoinedIsFlagsAndBodies(q);
    ScannerIsGrammar(Bodies(q));
    var acc := Joined(q);
    assert acc[2..] == Bodies(q);
  }

  /** On DATA packets the loop returns the flags of the first and the bodies up to the packet that
      completes the response, and leaves the rest unread. */
  lemma GatheredByGrammar(ps: seq<seq<byte>>, k: nat, rest: seq<byte>, large: bool)
    requires AllData(ps) && AllFramed(ps, large) && EndsWith(ps, k)
    ensures Gather(Flat(ps) + rest, [], large)
         == Whole(ps[0][8..10] + Bodies(ps[..k + 1]), Flat(ps[k + 1..]) + rest)
  {
    hide CompleteAt, Gather, Flat, Bodies, Complete, EndMarked;
    forall j | 0 <= j <= k
      ensures CompleteAt(ps, j) <==> EndMarked(ps[j]) || Complete(Bodies(ps[..j + 1]))
    {
      CompleteByGrammar(ps, j);
    }
    ShortestCompletePrefix(ps, k, rest, large);
  }

  /** Short of the byte that decides, no part of a response is complete. */
  lemma {:induction false} CutIsIncomplete(ws: seq<seq<byte>>, tail: seq<byte>, e: nat, s: seq<byte>, p: nat, n: nat)
    requires LobRunOf(ws) && DecidedAt(tail, e) && At(s, p, LobRun(ws) + tail)
    requires p <= n <= |s| && n <= p + |LobRun(ws)| + e
    ensures !Terminal(s[..n], p)
    decreases |ws|
  {
    hide LobOf, RawBytesChunked, LobRun;
    var t := s[..n];
    if n > p {
      if ws == [] {
        LobRunEmpty();
        assert LobRun(ws) + tail == tail;
        assert s[p] == tail[0];
        forall i | p < i < n
          ensures t[i] !in {4, 29}
        {
          assert s[i] == tail[i - p];
        }
      } else {
        CutInRun(ws, tail, e, s, p, n);
      }
    }
  }

  lemma {:induction false} CutInRun(ws: seq<seq<byte>>, tail: seq<byte>, e: nat, s: seq<byte>, p: nat, n: nat)
    requires LobRunOf(ws) && DecidedAt(tail, e) && At(s, p, LobRun(ws) + tail)
    requires p < n <= |s| && n <= p + |LobRun(ws)| + e && ws != []
    ensures !Terminal(s[..n], p)
    decreases |ws|, 0
  {
    hide LobOf, RawBytesChunked, LobRun, Terminal, DecidedAt;
    var t := s[..n];
    RunParts(ws, tail, s, p);
    assert LobBytes(ws[0]);
    var d :| LobOf(ws[0], d);
    LobAt(ws[0], d, s, p + 1);
    TerminalLob(t, p);
    if RawBytesChunked(t, p + 1).Ok() {
      WireFormat.ReadsSurviveExtension(t, s[n..], p + 1, 4);
      assert t + s[n..] == s;
      LobRunFirst(ws[0], ws[1..]);
      assert [ws[0]] + ws[1..] == ws;
      CutIsIncomplete(ws[1..], tail, e, s, p + 1 + |ws[0]|, n);
    }
  }

  lemma {:induction false} BodiesOfPart(ps: seq<seq<byte>>, j: nat)
    requires AllData(ps) && j <= |ps|
    ensures |Bodies(ps[..j])| <= |Bodies(ps)| && Bodies(ps[..j]) == Bodies(ps)[..|Bodies(ps[..j])|]
  {
    hide Bodies;
    BodiesAppend(ps[..j], ps[j..]);
    assert ps[..j] + ps[j..] == ps;
  }

  lemma {:induction false} BodiesGrow(ps: seq<seq<byte>>, i: nat, j: nat)
    requires AllData(ps) && i <= j <= |ps|
    ensures |Bodies(ps[..i])| <= |Bodies(ps[..j])|
  {
    hide Bodies;
    BodiesOfPart(ps[..j], i);
    assert ps[..j][..i] == ps[..i];
  }

  lemma IncompletePart(ps: seq<seq<byte>>, ws: seq<seq<byte>>, tail: seq<byte>, e: nat, j: nat)
    requires AllData(ps) && LobRunOf(ws) && DecidedAt(tail, e) && Bodies(ps) == LobRun(ws) + tail
    requires j <= |ps| && |Bodies(ps[..j])| <= |LobRun(ws)| + e
    ensures !Complete(Bodies(ps[..j]))
  {
    hide Bodies, Complete, LobRun, DecidedAt, LobRunOf;
    var s, n := Bodies(ps), |Bodies(ps[..j])|;
    BodiesOfPart(ps, j);
    CutIsIncomplete(ws, tail, e, s, 0, n);
    ScannerIsGrammar(s[..n]);
  }

  lemma CompletePart(ps: seq<seq<byte>>, ws: seq<seq<byte>>, tail: seq<byte>, e: nat, j: nat)
    requires AllData(ps) && LobRunOf(ws) && DecidedAt(tail, e) && Bodies(ps) == LobRun(ws) + tail
    requires j <= |ps| && |LobRun(ws)| + e < |Bodies(ps[..j])|
    ensures Complete(Bodies(ps[..j]))
  {
    hide Bodies, LobRun, LobRunOf;
    var n, f := |Bodies(ps[..j])|, |LobRun(ws)|;
    BodiesOfPart(ps, j);
    assert Bodies(ps[..j]) == LobRun(ws) + tail[..n - f];
    assert DecidedAt(tail[..n - f], e);
  }

  /** A response that no packet marks as ended, of LOB data and a message that ends it, cut anyhow:
      it is whole with the packet that brings the byte that decides, and with none before. */
  lemma EndIsFound(ps: seq<seq<byte>>, ws: seq<seq<byte>>, tail: seq<byte>, e: nat, k: nat, rest: seq<byte>, large: bool)
    requires AllData(ps) && AllFramed(ps, large) && LobRunOf(ws) && DecidedAt(tail, e)
    requires Bodies(ps) == LobRun(ws) + tail && forall p | p in ps :: !EndMarked(p)
    requires k < |ps| && |Bodies(ps[..k])| <= |LobRun(ws)| + e < |Bodies(ps[..k + 1])|
    ensures Gather(Flat(ps) + rest, [], large)
         == Whole(ps[0][8..10] + Bodies(ps[..k + 1]), Flat(ps[k + 1..]) + rest)
  {
    hide Gather, Flat, Bodies, Complete, EndMarked, LobRun, LobRunOf, DecidedAt;
    forall i | 0 < i <= k
      ensures !Complete(Bodies(ps[..i]))
    {
      BodiesGrow(ps, i, k);
      IncompletePart(ps, ws, tail, e, i);
    }
    CompletePart(ps, ws, tail, e, k + 1);
    GatheredByGrammar(ps, k, rest, large);
  }

  /** The shortest answer there is: one packet without flags that brings the type byte of an error
      message. */
  lemma ErrorByteEnds(rest: seq<byte>)
    ensures Gather([0, 11, 0, 0, 6, 0, 0, 0, 0, 0, 4] + rest, [], false) == Whole([0, 0, 4], rest)
  {
    hide Gather, Complete, LobOf;
    var p: seq<byte> := [0, 11, 0, 0, 6, 0, 0, 0, 0, 0, 4];
    var ps := [p];
    assert BeAt(p, 0, 1) == 0 && BeAt(p, 0, 2) == 11;
    assert ps[1..] == [] && ps[..0 + 1] == ps && BodyOf(p) == [4] && [4] + Bodies([]) == [4];
    assert p + Flat([]) == p && [] + rest == rest;
    LobRunEmpty();
    assert LobRunOf([]) && [4] == LobRun([]) + [4] && DecidedAt([4], 0);
    assert Complete(Bodies(ps[..0 + 1])) by { CompleteOf([], [4], 0); }
    GatheredByGrammar(ps, 0, rest, false);
    assert p[8..10] == [0, 0] && [0, 0] + [4] == [0, 0, 4];
  }

  lemma CompleteOf(ws: seq<seq<byte>>, tail: seq<byte>, e: nat)
    requires LobRunOf(ws) && DecidedAt(tail, e)
    ensures Complete(LobRun(ws) + tail)
  {
  }
}
