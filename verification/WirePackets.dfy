/** The packets that the client sends and waits for, byte by byte. */
module WirePackets {
  import opened Bytes
  import opened Framing
  import HandshakeCode
  import opened Reassembly
  import opened Recovery
  import opened ResponseEnd
  import opened Wrappers

  lemma BytesOfFour(n: u32)
    ensures BeBytes(n, 4) == [n / 0x100_0000, n / 0x1_0000 % 256, n / 256 % 256, n % 256]
  {
    var a, b, c := n / 256, n / 256 / 256, n / 256 / 256 / 256;
    assert BeBytes(c, 1) == BeBytes(c / 256, 0) + [c % 256];
    assert BeBytes(b, 2) == BeBytes(c, 1) + [b % 256];
    assert BeBytes(a, 3) == BeBytes(b, 2) + [a % 256];
    assert b == n / 0x1_0000 && c == n / 0x100_0000;
  }

  /** A header: the length in two bytes and two zeros, or in four bytes; the type; three zeros. */
  function HeaderBytes(n: nat, kind: byte, large: bool): seq<byte>
    requires n < if large then 0x1_0000_0000 else 0x1_0000
  {
    if large then [n / 0x100_0000, n / 0x1_0000 % 256, n / 256 % 256, n % 256, kind, 0, 0, 0]
    else [n / 256, n % 256, 0, 0, kind, 0, 0, 0]
  }

  lemma HeaderIs(n: nat, kind: byte, large: bool)
    requires n < if large then 0x1_0000_0000 else 0x1_0000
    ensures Header(n, kind, large) == HeaderBytes(n, kind, large)
  {
    if large {
      BytesOfFour(n);
    } else {
      BeBytesTwo(n);
    }
  }

  /** A DATA packet, type 6: header, two bytes of flags, body. */
  lemma DataBytes(flags: u16, body: seq<byte>, large: bool)
    requires 10 + |body| < if large then 0x1_0000_0000 else 0x1_0000
    ensures DataPacket(flags, body, large)
         == HeaderBytes(10 + |body|, 6, large) + [flags / 256, flags % 256] + body
  {
    hide Header, HeaderBytes;
    HeaderIs(10 + |body|, 6, large);
    BeBytesTwo(flags);
  }

  /** A marker, type 12: three bytes, of which the last is its kind; RESET is 2. */
  lemma MarkerBytes(kind: byte)
    ensures MarkerPacket(kind, false) == [0, 11, 0, 0, 12, 0, 0, 0, 1, 0, kind]
    ensures MarkerPacket(kind, true) == [0, 0, 0, 11, 12, 0, 0, 0, 1, 0, kind]
    ensures MarkerPacket(RESET, false) == [0, 11, 0, 0, 12, 0, 0, 0, 1, 0, 2]
  {
    hide Header;
    HeaderIs(11, 12, false);
    HeaderIs(11, 12, true);
  }

  /** The request that logs off: a DATA packet that carries the last-packet flag 0x0800, function 9 and
      the sequence number, and from field version 18 on a zero. */
  lemma LogoffBytes(number: byte, version: byte)
    ensures HandshakeCode.LogoffPacket(number, version, false) ==
      if version < 18 then [0, 13, 0, 0, 6, 0, 0, 0, 8, 0, 3, 9, number]
      else [0, 14, 0, 0, 6, 0, 0, 0, 8, 0, 3, 9, number, 0]
  {
    hide DataPacket;
    DataBytes(0x0800, [3, 9, number], false);
    DataBytes(0x0800, [3, 9, number, 0], false);
    assert [3, 9, number] + [] == [3, 9, number] && [3, 9, number] + [0] == [3, 9, number, 0];
  }

  // ---- Requests ------------------------------------------------------------------------

  /** How much of the payload packet `i` of `count` holds: all but the last are full. */
  function Share(size: nat, max: nat, count: nat, i: nat): int {
    if i + 1 < count then max else size - max * (count - 1)
  }

  /** A packet with a piece of a request. */
  predicate Carries(p: seq<byte>, payload: seq<byte>, from: nat, n: int, last: bool, max: nat, large: bool)
    requires max + 10 < 0x1_0000
  {
    && 0 < n <= max && from + n <= |payload|
    && p == HeaderBytes(10 + n, 6, large) + (if last then [8, 0] else [0, 0]) + payload[from..from + n]
  }

  lemma CarriesFurther(p: seq<byte>, payload: seq<byte>, k: nat, from: nat, n: int, last: bool, max: nat, large: bool)
    requires max + 10 < 0x1_0000 && k <= |payload| && Carries(p, payload[k..], from, n, last, max, large)
    ensures Carries(p, payload, k + from, n, last, max, large)
  {
    hide HeaderBytes;
    assert payload[k..][from..from + n] == payload[k + from..k + from + n];
  }

  lemma ShareOfRest(size: nat, max: nat, count: nat, i: nat)
    requires i > 0 && i < count && size >= max
    ensures Share(size - max, max, count - 1, i - 1) == Share(size, max, count, i)
    ensures max + max * (i - 1) == max * i
  {
    Times(max, i);
    if count >= 2 {
      Times(max, count - 1);
    }
  }

  /** The packets of a request: all but the last are full and without flags, the last has the flag
      0x0800; each is a DATA packet with the next piece of the payload. */
  lemma {:induction false} RequestPackets(payload: seq<byte>, sdu: u16, large: bool, i: nat)
    requires sdu > 10 && i < |Fragments(payload, sdu - 10, 0, large)|
    ensures var ps, max := Fragments(payload, sdu - 10, 0, large), sdu - 10;
      Carries(ps[i], payload, max * i, Share(|payload|, max, |ps|, i), i + 1 == |ps|, max, large)
    decreases |payload|
  {
    hide DataPacket, HeaderBytes, Carries, Share;
    var max := sdu - 10;
    var ps := Fragments(payload, max, 0, large);
    var n := Min(|payload|, max);
    var rest := Fragments(payload[n..], max, 0, large);
    assert ps[1..] == rest && ps[0] == DataPacket(if n == |payload| then END_OF_REQUEST else 0, payload[..n], large);
    if n == |payload| {
      NoFragments(max, large);
      assert rest == [] && |ps| == 1;
      FirstCarries(payload, n, true, max, large);
    } else {
      SomeFragments(payload[n..], max, large);
      if i == 0 {
        FirstCarries(payload, n, false, max, large);
      } else {
        RequestPackets(payload[n..], sdu, large, i - 1);
        CarriesFurther(rest[i - 1], payload, n, max * (i - 1), Share(|payload[n..]|, max, |rest|, i - 1), i == |rest|, max,
                       large);
        ShareOfRest(|payload|, max, |ps|, i);
      }
    }
    ShareOfFirst(|payload|, max, |ps|);
  }

  lemma ShareOfFirst(size: nat, max: nat, count: nat)
    requires count >= 1
    ensures Share(size, max, count, 0) == if count == 1 then size else max
    ensures max * 0 == 0
  {
  }

  lemma FirstCarries(payload: seq<byte>, n: nat, last: bool, max: nat, large: bool)
    requires 0 < n <= max && n <= |payload| && max + 10 < 0x1_0000
    ensures Carries(DataPacket(if last then END_OF_REQUEST else 0, payload[..n], large), payload, 0, n, last, max, large)
  {
    hide DataPacket, HeaderBytes;
    DataBytes(if last then END_OF_REQUEST else 0, payload[..n], large);
    assert payload[0..0 + n] == payload[..n];
  }

  lemma NoFragments(max: nat, large: bool)
    requires max > 0
    ensures Fragments([], max, 0, large) == []
  {
  }

  lemma SomeFragments(payload: seq<byte>, max: nat, large: bool)
    requires max > 0 && payload != []
    ensures Fragments(payload, max, 0, large) != []
  {
  }

  lemma Times(max: nat, i: nat)
    requires i > 0
    ensures max * (i - 1) + max == max * i
  {
  }

  // ---- Recovery ------------------------------------------------------------------------

  /** While the client waits in the recovery only markers come, and then nothing: the connection is
      lost, and the error says whether the server's RESET (kind 2) had come. */
  lemma {:induction false} BrokenRecovery(ms: seq<seq<byte>>, tail: seq<byte>, partial: seq<byte>, large: bool)
    requires AllFramed(ms, large) && (forall m | m in ms :: |m| >= 8 && m[4] == 12) && |tail| < 8
    ensures AwaitReset(Flat(ms) + tail, partial, large)
         == Answer(Failure(if exists m :: m in ms && |m| >= 11 && m[10] == 2 then ClosedDuringRecovery else Io), [])
    decreases |ms|
  {
    hide Flat, Next, Feed, Framed, SkipMarkers;
    if ms == [] {
      FlatNothing(tail);
      ShortIsBroken(tail, large);
    } else {
      FlatHead(ms, tail, large);
      assert ms[0] in ms && forall m | m in ms[1..] :: m in ms;
      assert ms == [ms[0]] + ms[1..];
      if |ms[0]| >= 11 && ms[0][10] == 2 {
        BrokenAfterReset(ms[1..], tail, partial, large);
      } else {
        BrokenRecovery(ms[1..], tail, partial, large);
      }
    }
  }

  lemma {:induction false} BrokenAfterReset(ms: seq<seq<byte>>, tail: seq<byte>, partial: seq<byte>, large: bool)
    requires AllFramed(ms, large) && (forall m | m in ms :: |m| >= 8 && m[4] == 12) && |tail| < 8
    ensures SkipMarkers(Flat(ms) + tail, partial, large) == Answer(Failure(ClosedDuringRecovery), [])
    decreases |ms|
  {
    hide Flat, Next, Feed, Framed;
    if ms == [] {
      FlatNothing(tail);
      ShortIsBroken(tail, large);
    } else {
      FlatHead(ms, tail, large);
      BrokenAfterReset(ms[1..], tail, partial, large);
    }
  }

  lemma ShortIsBroken(tail: seq<byte>, large: bool)
    requires |tail| < 8
    ensures Next(tail, large) == Broken
  {
  }

  const BREAK_BYTES: seq<byte> := [0, 11, 0, 0, 12, 0, 0, 0, 1, 0, 1]
  const RESET_BYTES: seq<byte> := [0, 11, 0, 0, 12, 0, 0, 0, 1, 0, 2]
  const ERROR_BYTES: seq<byte> := [0, 11, 0, 0, 6, 0, 0, 0, 0, 0, 4]

  lemma ElevenBytes(p: seq<byte>)
    requires |p| == 11 && p[0] == 0 && p[1] == 11
    ensures Framed(p, false)
  {
    assert BeAt(p, 0, 1) == 0 && BeAt(p, 0, 2) == 11;
  }

  /** A recovery in full: the server breaks off, resets, and answers with the type byte of an error
      message, which is what the caller gets. */
  lemma RecoveryInFull(rest: seq<byte>)
    ensures var a := Exchange(BREAK_BYTES + (RESET_BYTES + (ERROR_BYTES + rest)), false);
      a.result.Success? && a.rest == rest && Body(a.result.value) == [0, 0, 4]
  {
    hide Next, Framed, Gather, Rebuilt, Body, Extend, Completes, Feed, AwaitReset, SkipMarkers;
    var w := ERROR_BYTES + rest;
    ElevenBytes(BREAK_BYTES);
    ElevenBytes(RESET_BYTES);
    ElevenBytes(ERROR_BYTES);
    ErrorByteEnds(rest);
    NextOfFramed(ERROR_BYTES, rest, false);
    GatherOther(BREAK_BYTES, RESET_BYTES + w, [], false);
    var ms := [RESET_BYTES];
    assert Flat(ms) == RESET_BYTES by { assert RESET_BYTES + [] == RESET_BYTES; }
    AwaitResetSkips(ms, w, [], false);
    BodyOfRebuilt([0, 0, 4], false);
  }
}
