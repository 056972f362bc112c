/** Reading undoes writing, skipping agrees with reading, and a successful read depends on
    nothing but the bytes it consumed. */
module WireFormat {
  import opened Bytes
  import opened Reads
  import opened Wrappers
  import opened Writes

  // ---- Successful reads are local ------------------------------------------------------

  lemma TakeLocal(s: seq<byte>, p: nat, n: nat, s': seq<byte>, d: int)
    requires Same(s, p, p + n, s', d)
    ensures s[p..p + n] == s'[p + d..p + d + n]
  {
    var x, y := s[p..p + n], s'[p + d..p + d + n];
    forall k | 0 <= k < n
      ensures x[k] == y[k]
    {
      assert x[k] == s[p + k];
    }
  }

  lemma UbLocal(s: seq<byte>, p: nat, max: byte, s': seq<byte>, d: int)
    requires p <= |s| && Ub(s, p, max).Ok()
    requires Same(s, p, Ub(s, p, max).pos, s', d)
    ensures Ub(s', p + d, max) == Reading(Ub(s, p, max).result, Ub(s, p, max).pos + d)
  {
    assert s[p] == s'[p + d];
    var len := s[p] % 0x80;
    if len > 0 {
      BeAtSame(s, p + 1, len, s', d);
    }
  }

  /** One chunk of the loop, and its end. */
  lemma ChunksStep(s: seq<byte>, p: nat, acc: seq<byte>)
    requires p <= |s| && Ub(s, p, 4).Ok()
    ensures var Reading(n, q) := Ub(s, p, 4);
      Chunks(s, p, acc) ==
        if n.value == 0 then Reading(Success(acc), q)
        else if q + n.value > |s| then Reading(Failure(BufferUnderflow(n.value, |s| - q)), q)
        else Chunks(s, q + n.value, acc + s[q..q + n.value])
  {
  }

  /** What a successful chunk loop found first. */
  lemma ChunksHead(s: seq<byte>, p: nat, acc: seq<byte>)
    requires p <= |s| && Chunks(s, p, acc).Ok()
    ensures Ub(s, p, 4).Ok() && p < Ub(s, p, 4).pos <= Chunks(s, p, acc).pos <= |s|
    ensures Ub(s, p, 4).pos + Ub(s, p, 4).Value() <= Chunks(s, p, acc).pos
  {
  }

  lemma {:induction false} ChunksLocal(s: seq<byte>, p: nat, acc: seq<byte>, v: seq<byte>, q: nat,
                                       s': seq<byte>, d: int)
    requires p <= q <= |s| && Chunks(s, p, acc) == Reading(Success(v), q)
    requires Same(s, p, q, s', d)
    ensures Chunks(s', p + d, acc) == Reading(Success(v), q + d)
    decreases |s| - p
  {
    hide Chunks, Ub;
    ChunksHead(s, p, acc);
    var n, r := Ub(s, p, 4).Value(), Ub(s, p, 4).pos;
    UbLocal(s, p, 4, s', d);
    ChunksStep(s, p, acc);
    ChunksStep(s', p + d, acc);
    if n != 0 {
      TakeLocal(s, r, n, s', d);
      ChunksLocal(s, r + n, acc + s[r..r + n], v, q, s', d);
    }
  }

  lemma RawBytesChunkedLocal(s: seq<byte>, p: nat, s': seq<byte>, d: int)
    requires p <= |s| && RawBytesChunked(s, p).Ok()
    requires Same(s, p, RawBytesChunked(s, p).pos, s', d)
    ensures RawBytesChunked(s', p + d) == Reading(RawBytesChunked(s, p).result, RawBytesChunked(s, p).pos + d)
  {
    hide Chunks;
    var q := RawBytesChunked(s, p).pos;
    assert s[p] == s'[p + d];
    if s[p] != LONG_INDICATOR {
      TakeLocal(s, p + 1, s[p], s', d);
    } else {
      ChunksLocal(s, p + 1, [], RawBytesChunked(s, p).Value(), q, s', d);
    }
  }

  /** `read_bytes_with_length` is the chunked read but for its two special length bytes. */
  lemma BytesWithLengthByTag(s: seq<byte>, p: nat)
    requires p < |s|
    ensures s[p] !in {ESCAPE_CHAR, NULL_INDICATOR} ==> BytesWithLength(s, p) == Some'(RawBytesChunked(s, p))
    ensures s[p] == NULL_INDICATOR ==> BytesWithLength(s, p) == Reading(Success(None), p + 1)
  {
  }

  lemma BytesWithLengthLocal(s: seq<byte>, p: nat, s': seq<byte>, d: int)
    requires p <= |s| && BytesWithLength(s, p).Ok()
    requires Same(s, p, BytesWithLength(s, p).pos, s', d)
    ensures BytesWithLength(s', p + d) == Reading(BytesWithLength(s, p).result, BytesWithLength(s, p).pos + d)
  {
    assert s[p] == s'[p + d];
    if s[p] == ESCAPE_CHAR {
      assert s[p + 1] == s'[p + d + 1];
      TakeLocal(s, p + 2, s[p + 1], s', d);
    } else {
      BytesWithLengthByTag(s, p);
      BytesWithLengthByTag(s', p + d);
      if s[p] != NULL_INDICATOR {
        RawBytesChunkedLocal(s, p, s', d);
      }
    }
  }

  /** Bytes that arrive later change neither the value nor the position of a read that
      already succeeded. */
  lemma ReadsSurviveExtension(s: seq<byte>, t: seq<byte>, p: nat, max: byte)
    requires p <= |s|
    ensures Ub(s, p, max).Ok() ==> Ub(s + t, p, max) == Ub(s, p, max)
    ensures RawBytesChunked(s, p).Ok() ==> RawBytesChunked(s + t, p) == RawBytesChunked(s, p)
    ensures BytesWithLength(s, p).Ok() ==> BytesWithLength(s + t, p) == BytesWithLength(s, p)
  {
    hide Ub, RawBytesChunked, BytesWithLength;
    if Ub(s, p, max).Ok() {
      UbLocal(s, p, max, s + t, 0);
    }
    if RawBytesChunked(s, p).Ok() {
      RawBytesChunkedLocal(s, p, s + t, 0);
    }
    if BytesWithLength(s, p).Ok() {
      BytesWithLengthLocal(s, p, s + t, 0);
    }
  }

  /** When a number is refused, and what the refusal says: the length byte, or how many bytes were
      needed and how many there were. */
  lemma NumbersRefused(s: seq<byte>, p: nat, max: byte)
    requires p <= |s| && max < 0x80
    ensures var r := Ub(s, p, max);
      && (p == |s| ==> r == Reading(Failure(BufferUnderflow(1, 0)), p))
      && (p < |s| && s[p] % 0x80 > max ==> r == Reading(Failure(InvalidLengthIndicator(s[p] % 0x80)), p + 1))
      && (p < |s| && s[p] % 0x80 <= max && p + 1 + s[p] % 0x80 > |s| ==>
            r == Reading(Failure(BufferUnderflow(s[p] % 0x80, |s| - (p + 1))), p + 1))
      && (r.Ok() <==> p < |s| && s[p] % 0x80 <= max && p + 1 + s[p] % 0x80 <= |s|)
  {
  }

  // ---- Variable-length integers --------------------------------------------------------

  lemma TagThenDigits(s: seq<byte>, p: nat, tag: byte, v: nat, n: nat)
    requires At(s, p, [tag] + BeBytes(v, n)) && v < Pow256(n)
    ensures p + 1 + n <= |s| && s[p] == tag && BeAt(s, p + 1, n) == v
  {
    hide BeBytes, BeAt, Pow256;
    AtSplit(s, p, [tag], BeBytes(v, n));
    BeAtOfBytes(v, n, s, p + 1);
    assert s[p] == [tag][0];
  }

  lemma UbOfDigits(s: seq<byte>, p: nat, v: nat, n: byte, max: byte)
    requires At(s, p, [n] + BeBytes(v, n)) && 0 < n <= max < 0x80 && v < Pow256(n)
    ensures Ub(s, p, max) == Reading(Success(v), p + 1 + n)
  {
    hide BeBytes, BeAt, Pow256, At;
    TagThenDigits(s, p, n, v, n);
  }

  /** `read_ub2`, `read_ub4` and `read_ub8` undo the writer of the same width, whatever
      surrounds the written bytes. */
  lemma UbRoundTrip(v: u64, max: byte, s: seq<byte>, p: nat)
    requires max in {2, 4, 8} && v < Pow256(max)
    requires At(s, p, UbBytes(v))
    ensures Ub(s, p, max) == Reading(Success(v as nat), p + |UbBytes(v)|)
  {
    Pow256Values();
    if v == 0 {
      assert s[p] == 0;
    } else {
      var n := |UbBytes(v)| - 1;
      if v < 0x100 {
        BeBytesOne(v);
      }
      assert UbBytes(v) == [n] + BeBytes(v, n);
      UbOfDigits(s, p, v, n, max);
    }
  }

  /** Skipping a written integer consumes exactly the bytes reading it would. */
  lemma SkipUbOfWritten(v: u64, max: byte, s: seq<byte>, p: nat)
    requires max in {2, 4, 8} && v < Pow256(max)
    requires At(s, p, UbBytes(v))
    ensures SkipUb(s, p) == Reading(Success(()), Ub(s, p, max).pos)
  {
    UbRoundTrip(v, max, s, p);
  }

  /** On arbitrary bytes the skip and the read part ways exactly when the length byte is out
      of range for the read and the skip finds enough bytes to pass over. */
  lemma SkipUbAgreement(s: seq<byte>, p: nat, max: byte)
    requires p <= |s|
    ensures (SkipUb(s, p).Ok() == Ub(s, p, max).Ok() && SkipUb(s, p).pos == Ub(s, p, max).pos)
       <==> (p == |s| || s[p] % 0x80 <= max || p + 1 + s[p] % 0x80 > |s|)
  {
  }

  // ---- Oracle integers -----------------------------------------------------------------

  lemma DigitsOfWritten(v: u64, tag: byte, s: seq<byte>, p: nat)
    requires v > 0 && At(s, p, [tag] + BeBytes(v, ByteLength(v)))
    ensures p < |s| && s[p] == tag
    ensures Digits(s, p + 1, ByteLength(v)) == Reading(Success(v as nat), p + 1 + ByteLength(v))
  {
    hide BeBytes, BeAt, Pow256, At;
    ByteLengthBounds(v);
    TagThenDigits(s, p, tag, v, ByteLength(v));
  }

  lemma OracleUintRoundTrip(v: u64, s: seq<byte>, p: nat)
    requires At(s, p, OracleUintBytes(v))
    ensures OracleUint(s, p) == Reading(Success(v as nat), p + |OracleUintBytes(v)|)
  {
    if v == 0 {
    } else {
      ByteLengthOfU64(v);
      DigitsOfWritten(v, ByteLength(v), s, p);
    }
  }

  lemma OracleIntOfDigits(s: seq<byte>, p: nat, m: nat, q: nat)
    requires p < |s| && s[p] % 0x80 <= 8
    requires Digits(s, p + 1, s[p] % 0x80) == Reading(Success(m), q)
    ensures OracleInt(s, p) == Reading(Success(if s[p] >= 0x80 then AsI64(-AsI64(m)) else AsI64(m)), q)
  {
  }

  lemma TagLength(n: nat, negative: bool)
    requires n <= 8
    ensures var tag := n + if negative then 0x80 else 0; tag % 0x80 == n && (tag >= 0x80 <==> negative)
  {
  }

  lemma SignedBack(v: i64)
    ensures v >= 0 ==> AsI64(v) == v
    ensures v < 0 ==> AsI64(-AsI64(Magnitude(v))) == v
  {
  }

  /** Reading a signed integer back, for every 64-bit value. */
  lemma OracleIntRoundTrip(v: i64, s: seq<byte>, p: nat)
    requires At(s, p, OracleIntBytes(v))
    ensures OracleInt(s, p) == Reading(Success(v as int), p + |OracleIntBytes(v)|)
  {
    if v == 0 {
    } else {
      var m := Magnitude(v);
      ByteLengthOfU64(m);
      var n := ByteLength(m);
      var tag := n + if v < 0 then 0x80 else 0;
      TagLength(n, v < 0);
      DigitsOfWritten(m, tag, s, p);
      OracleIntOfDigits(s, p, m, p + 1 + n);
      SignedBack(v);
    }
  }

  /** Neither negation in the signed codec leaves the 64-bit range except for the minimum, the
      one value a build with overflow checks cannot write. */
  lemma NegationOverflows(v: i64)
    requires v < 0
    ensures AsI64(-(v as int)) == -(v as int) <==> v != -0x8000_0000_0000_0000
  {
  }

  /** No shorter byte string reads back as the same value. */
  lemma OracleUintShortest(v: u64, w: seq<byte>)
    requires OracleUint(w, 0) == Reading(Success(v as nat), |w|)
    ensures |OracleUintBytes(v)| <= |w|
  {
    if v > 0 {
      ByteLengthOfU64(v);
      ByteLengthLeast(w, 1, w[0]);
    }
  }

  lemma OracleIntShortest(v: i64, w: seq<byte>)
    requires OracleInt(w, 0) == Reading(Success(v as int), |w|)
    ensures |OracleIntBytes(v)| <= |w|
  {
    if v != 0 {
      var n := w[0] % 0x80;
      var d := BeAt(w, 1, n);
      Pow256Values();
      BeAtBound(w, 1, n);
      Pow256Mono(n, 8);
      // Either the digits denote the magnitude, or they denote the two's complement of the
      // value and all eight of them are used.
      assert AsI64(d) == v || AsI64(-AsI64(d)) == v;
      MagnitudeOf(v, d);
      ByteLengthOfU64(Magnitude(v));
      if d == Magnitude(v) {
        ByteLengthLeast(w, 1, n);
      } else {
        LargeNeedsEight(w, 1, n);
      }
    }
  }

  lemma MagnitudeOf(v: i64, d: u64)
    requires AsI64(d) == v || AsI64(-AsI64(d)) == v
    ensures d == Magnitude(v) || d >= 0x8000_0000_0000_0000
  {
  }

  lemma LargeNeedsEight(s: seq<byte>, p: nat, n: nat)
    requires p + n <= |s| && BeAt(s, p, n) >= 0x8000_0000_0000_0000
    ensures n >= 8
  {
    Pow256Values();
    assert Pow256(8) == 256 * Pow256(7);
    BeAtBound(s, p, n);
    if n < 8 {
      Pow256Mono(n, 7);
    }
  }

  // ---- Length-prefixed byte strings ----------------------------------------------------

  lemma LongBodyParts(d: seq<byte>)
    requires d != []
    ensures var n := Min(|d|, CHUNK_SIZE); LongBody(d) == UbBytes(n) + d[..n] + LongBody(d[n..])
  {
    var n := Min(|d|, CHUNK_SIZE);
    assert d[0..] == d && d[..n] == d[0..n];
    LongBodyStep(d, 0, n);
  }

  lemma {:induction false} ChunksRoundTrip(d: seq<byte>, s: seq<byte>, p: nat, acc: seq<byte>)
    requires At(s, p, LongBody(d))
    ensures Chunks(s, p, acc) == Reading(Success(acc + d), p + |LongBody(d)|)
    decreases |d|
  {
    hide LongBody, Chunks, Ub, UbBytes, At, Pow256;
    Pow256Values();
    if d == [] {
      LongBodyEmpty();
      UbRoundTrip(0, 4, s, p);
      ChunksStep(s, p, acc);
      assert acc + d == acc;
    } else {
      var n := Min(|d|, CHUNK_SIZE);
      var head, rest := UbBytes(n), LongBody(d[n..]);
      LongBodyParts(d);
      AtSplit(s, p, head + d[..n], rest);
      AtSplit(s, p, head, d[..n]);
      AtSlice(s, p + |head|, d[..n]);
      UbRoundTrip(n, 4, s, p);
      ChunksStep(s, p, acc);
      ChunksRoundTrip(d[n..], s, p + |head| + n, acc + d[..n]);
      assert acc + d[..n] + d[n..] == acc + d;
    }
  }

  lemma LongRoundTrip(d: seq<byte>, s: seq<byte>, p: nat)
    requires At(s, p, [LONG_INDICATOR] + LongBody(d))
    ensures RawBytesChunked(s, p) == Reading(Success(d), p + 1 + |LongBody(d)|) && s[p] == LONG_INDICATOR
  {
    AtSplit(s, p, [LONG_INDICATOR], LongBody(d));
    assert s[p] == [LONG_INDICATOR][0];
    ChunksRoundTrip(d, s, p + 1, []);
    assert [] + d == d;
  }

  lemma ShortRoundTrip(d: seq<byte>, s: seq<byte>, p: nat)
    requires |d| <= MAX_SHORT && At(s, p, [|d|] + d)
    ensures RawBytesChunked(s, p) == Reading(Success(d), p + 1 + |d|) && s[p] == |d|
  {
    AtSplit(s, p, [|d|], d);
    AtSlice(s, p + 1, d);
    assert s[p] == [|d|][0];
  }

  /** Any byte string, of any length, survives the length prefix; the reader stops exactly at
      the end of what was written. */
  lemma LengthPrefixedRoundTrip(x: Option<seq<byte>>, s: seq<byte>, p: nat)
    requires At(s, p, LengthPrefixed(x))
    ensures BytesWithLength(s, p) == Reading(Success(x), p + |LengthPrefixed(x)|)
    ensures x.Some? ==> RawBytesChunked(s, p) == Reading(Success(x.value), p + |LengthPrefixed(x)|)
  {
    hide Chunks, RawBytesChunked;
    if x.None? {
    } else if |x.value| > MAX_SHORT {
      LongRoundTrip(x.value, s, p);
    } else {
      assert LengthPrefixed(x) == [|x.value|] + x.value;
      ShortRoundTrip(x.value, s, p);
    }
    BytesWithLengthByTag(s, p);
  }

  /** Numbers byte by byte: a length of 0, 1, 2, 4 or 8 and as many digits, the highest first. */
  lemma WrittenNumbers(v: u64)
    ensures v == 0 ==> UbBytes(v) == [0]
    ensures 0 < v < 0x100 ==> UbBytes(v) == [1, v]
    ensures 0x100 <= v < 0x1_0000 ==> UbBytes(v) == [2, v / 0x100, v % 0x100]
    ensures 0x1_0000 <= v < 0x1_0000_0000 ==>
      UbBytes(v) == [4, v / 0x100_0000, v / 0x1_0000 % 0x100, v / 0x100 % 0x100, v % 0x100]
    ensures 0x1_0000_0000 <= v ==> |UbBytes(v)| == 9 && UbBytes(v)[0] == 8
  {
    if 0x100 <= v < 0x1_0000 {
      assert BeBytes(v / 256, 1) == BeBytes(v / 256 / 256, 0) + [v / 256 % 256];
    } else if 0x1_0000 <= v < 0x1_0000_0000 {
      var a, b, c := v / 256, v / 256 / 256, v / 256 / 256 / 256;
      assert BeBytes(c, 1) == BeBytes(c / 256, 0) + [c % 256];
      assert BeBytes(b, 2) == BeBytes(c, 1) + [b % 256];
      assert BeBytes(a, 3) == BeBytes(b, 2) + [a % 256];
      assert b == v / 0x1_0000 && c == v / 0x100_0000;
    }
  }

  /** Byte strings: 255 for none, a length of up to 252 in front, or 254 and chunks of 32767 bytes, the
      last one shorter, and a zero. */
  lemma WrittenStrings(d: seq<byte>)
    ensures LengthPrefixed(None) == [255]
    ensures |d| <= 252 ==> LengthPrefixed(Some(d)) == [|d|] + d
    ensures |d| > 252 ==> LengthPrefixed(Some(d)) == [254] + LongBody(d)
    ensures 0 < |d| <= 32767 ==> LongBody(d) == UbBytes(|d|) + d + [0]
    ensures |d| > 32767 ==> LongBody(d) == [2, 127, 255] + d[..32767] + LongBody(d[32767..])
  {
    hide UbBytes;
    LongBodyEmpty();
    WrittenNumbers(0);
    WrittenNumbers(32767);
    if d != [] {
      LongBodyParts(d);
      assert d[..|d|] == d && d[|d|..] == [];
    }
  }

  lemma SkipChunksStep(s: seq<byte>, p: nat)
    requires p <= |s| && Ub(s, p, 4).Ok()
    ensures var Reading(n, q) := Ub(s, p, 4);
      SkipChunks(s, p) ==
        if n.value == 0 then Reading(Success(()), q)
        else if q + n.value > |s| then Reading(Failure(BufferUnderflow(n.value, |s| - q)), q)
        else SkipChunks(s, q + n.value)
  {
  }

  /** A skip and a read that end alike: same outcome, same error, same position. */
  ghost predicate SameEnd<T>(skip: Reading<()>, read: Reading<T>) {
    && skip.pos == read.pos
    && (skip.Ok() <==> read.Ok())
    && (!skip.Ok() ==> skip.result.error == read.result.error)
  }

  lemma {:induction false} SkipChunksAgrees(s: seq<byte>, p: nat, acc: seq<byte>)
    requires p <= |s|
    ensures SameEnd(SkipChunks(s, p), Chunks(s, p, acc))
    decreases |s| - p, 1
  {
    if Ub(s, p, 4).Ok() {
      SkipChunksAgreesStep(s, p, acc);
    }
  }

  lemma {:induction false} SkipChunksAgreesStep(s: seq<byte>, p: nat, acc: seq<byte>)
    requires p <= |s| && Ub(s, p, 4).Ok()
    ensures SameEnd(SkipChunks(s, p), Chunks(s, p, acc))
    decreases |s| - p, 0
  {
    hide Chunks, SkipChunks, Ub;
    var Reading(n, q) := Ub(s, p, 4);
    ChunksStep(s, p, acc);
    SkipChunksStep(s, p);
    if n.value != 0 && q + n.value <= |s| {
      SkipChunksAgrees(s, q + n.value, acc + s[q..q + n.value]);
    }
  }

  /** On every buffer whatsoever, skipping a chunked value succeeds or fails as reading it
      does, with the same error, and leaves the cursor at the same place. */
  lemma SkipRawAgrees(s: seq<byte>, p: nat)
    requires p <= |s|
    ensures SameEnd(SkipRawBytesChunked(s, p), RawBytesChunked(s, p))
  {
    hide Chunks, SkipChunks;
    if p < |s| {
      SkipChunksAgrees(s, p + 1, []);
    }
  }
}
