/** Putting a response together from its packets, also across a MARKER/RESET interruption. */
module Reassembly {
  import opened Bytes
  import opened Messages
  import opened Framing
  import opened Reads
  import WireFormat

  // ---- The terminal-message scanner ----------------------------------------------------

  /** `scan_for_terminal_message` from position `p`. */
  predicate Terminal(s: seq<byte>, p: nat)
    requires p <= |s|
    decreases |s| - p
  {
    if p == |s| then false
    else if s[p] in {END_OF_RESPONSE_MESSAGE, ERROR, STATUS} then true
    else if s[p] == LOB_DATA then
      var lob := RawBytesChunked(s, p + 1);
      lob.Ok() && Terminal(s, lob.pos)
    else if s[p] == PARAMETER then ERROR in s[p + 1..] || END_OF_RESPONSE_MESSAGE in s[p + 1..]
    else false
  }

  lemma TerminalLob(s: seq<byte>, p: nat)
    requires p < |s| && s[p] == LOB_DATA
    ensures Terminal(s, p) <==> RawBytesChunked(s, p + 1).Ok() && Terminal(s, RawBytesChunked(s, p + 1).pos)
  {
    hide RawBytesChunked;
  }

  /** The scanner never takes back a yes when more bytes arrive. */
  lemma {:induction false} TerminalMonotone(s: seq<byte>, t: seq<byte>, p: nat)
    requires p <= |s| && Terminal(s, p)
    ensures Terminal(s + t, p)
    decreases |s| - p
  {
    hide RawBytesChunked;
    if s[p] == LOB_DATA {
      TerminalLob(s, p);
      TerminalLob(s + t, p);
      WireFormat.ReadsSurviveExtension(s, t, p + 1, 4);
      TerminalMonotone(s, t, RawBytesChunked(s, p + 1).pos);
    } else if s[p] == PARAMETER {
      var w := if ERROR in s[p + 1..] then ERROR else END_OF_RESPONSE_MESSAGE;
      var i :| p + 1 <= i < |s| && s[i] == w;
      assert (s + t)[i] == w;
      assert (s + t)[p + 1..][i - p - 1] == w;
    }
  }

  // ---- One reassembly loop -------------------------------------------------------------

  /** The payload so far after one more DATA packet: the first keeps its two flag bytes. */
  function Extend(acc: seq<byte>, p: seq<byte>): (r: seq<byte>)
    requires |p| >= HEADER_SIZE + 2
    ensures |r| >= |acc|
  {
    if acc == [] then p[HEADER_SIZE..] else acc + BodyOf(p)
  }

  /** The packet itself says that it is the last. */
  predicate SignalsEnd(p: seq<byte>)
    requires |p| >= HEADER_SIZE + 2
  {
    || HasFlag(FlagsOf(p), END_OF_RESPONSE)
    || HasFlag(FlagsOf(p), EOF)
    || (|p| == HEADER_SIZE + 3 && p[HEADER_SIZE + 2] == END_OF_RESPONSE_MESSAGE)
  }

  /** The scanner finds the end in the payload so far, flag bytes aside. */
  predicate Scanned(acc: seq<byte>) {
    |acc| > 2 && Terminal(acc[2..], 0)
  }

  /** The response is complete with packet `p`, the payload now being `acc`. */
  predicate Completes(acc: seq<byte>, p: seq<byte>)
    requires |p| >= HEADER_SIZE + 2
  {
    SignalsEnd(p) || Scanned(acc)
  }

  datatype Gathered =
    | Whole(payload: seq<byte>, rest: seq<byte>)
    | Other(packet: seq<byte>, partial: seq<byte>, rest: seq<byte>)
    | TooSmall(rest: seq<byte>)
    | Lost

  /** Feed one packet to the loop, then let it run on. */
  function Feed(p: seq<byte>, rest: seq<byte>, acc: seq<byte>, large: bool): (r: Gathered)
    requires |p| >= HEADER_SIZE
    ensures r.Whole? ==> r.payload != []
    decreases |rest|, 1
  {
    if p[4] != DATA then Other(p, acc, rest)
    else if |p| < HEADER_SIZE + 2 then TooSmall(rest)
    else
      var more := Extend(acc, p);
      if Completes(more, p) then Whole(more, rest) else Gather(rest, more, large)
  }

  function Gather(stream: seq<byte>, acc: seq<byte>, large: bool): (r: Gathered)
    ensures r.Whole? ==> r.payload != []
    decreases |stream|, 0
  {
    match Next(stream, large)
    case Broken => Lost
    case Packet(p, rest) => Feed(p, rest, acc, large)
  }

  // ---- What the loop computes on a list of packets -------------------------------------

  /** The first packet's flags and all the bodies. */
  function Joined(ps: seq<seq<byte>>): seq<byte>
    requires AllData(ps)
  {
    if ps == [] then [] else Extend(Joined(ps[..|ps| - 1]), ps[|ps| - 1])
  }

  lemma JoinedAppend(ps: seq<seq<byte>>, p: seq<byte>)
    requires AllData(ps) && AllData([p])
    ensures AllData(ps + [p]) && Joined(ps + [p]) == Extend(Joined(ps), p)
  {
    assert (ps + [p])[..|ps|] == ps;
  }

  lemma BodiesFirst(p: seq<byte>, ps: seq<seq<byte>>)
    requires AllData([p]) && AllData(ps)
    ensures AllData([p] + ps) && Bodies([p] + ps) == BodyOf(p) + Bodies(ps)
  {
    assert ([p] + ps)[1..] == ps;
  }

  lemma {:induction false} BodiesAppend(ps: seq<seq<byte>>, qs: seq<seq<byte>>)
    requires AllData(ps) && AllData(qs)
    ensures AllData(ps + qs) && Bodies(ps + qs) == Bodies(ps) + Bodies(qs)
  {
    hide Bodies, BodyOf;
    if ps == [] {
      assert ps + qs == qs;
      BodiesEmpty();
      assert [] + Bodies(qs) == Bodies(qs);
    } else {
      BodiesAppend(ps[1..], qs);
      BodiesFirst(ps[0], ps[1..] + qs);
      BodiesFirst(ps[0], ps[1..]);
      assert [ps[0]] + (ps[1..] + qs) == ps + qs && [ps[0]] + ps[1..] == ps;
      assert (BodyOf(ps[0]) + Bodies(ps[1..])) + Bodies(qs) == BodyOf(ps[0]) + (Bodies(ps[1..]) + Bodies(qs));
    }
  }

  lemma BodiesEmpty()
    ensures Bodies([]) == [] && Joined([]) == [] && Flat([]) == []
  {
  }

  /** The two flag bytes of a packet. */
  function FlagBytes(p: seq<byte>): (f: seq<byte>)
    requires |p| >= HEADER_SIZE + 2
    ensures |f| == 2
  {
    p[HEADER_SIZE..HEADER_SIZE + 2]
  }

  lemma ExtendByCase(acc: seq<byte>, p: seq<byte>)
    requires |p| >= HEADER_SIZE + 2
    ensures Extend(acc, p) == if acc == [] then FlagBytes(p) + BodyOf(p) else acc + BodyOf(p)
  {
  }

  lemma {:induction false} JoinedIsFlagsAndBodies(ps: seq<seq<byte>>)
    requires AllData(ps) && ps != []
    ensures Joined(ps) == FlagBytes(ps[0]) + Bodies(ps)
  {
    hide Joined, Bodies, BodyOf, Extend, FlagBytes;
    var k := |ps| - 1;
    var q, p := ps[..k], ps[k];
    assert q + [p] == ps;
    JoinedAppend(q, p);
    BodiesAppend(q, [p]);
    BodiesFirst(p, []);
    BodiesEmpty();
    ExtendByCase(Joined(q), p);
    assert [p] + [] == [p] && BodyOf(p) + [] == BodyOf(p);
    if q == [] {
      assert [] + BodyOf(p) == BodyOf(p);
    } else {
      JoinedIsFlagsAndBodies(q);
      assert (FlagBytes(ps[0]) + Bodies(q)) + BodyOf(p) == FlagBytes(ps[0]) + (Bodies(q) + BodyOf(p));
    }
  }

  predicate CompleteAt(ps: seq<seq<byte>>, k: nat)
    requires AllData(ps) && k < |ps|
  {
    Completes(Joined(ps[..k + 1]), ps[k])
  }

  /** `k` is the first packet with which the response is complete. */
  ghost predicate FirstComplete(ps: seq<seq<byte>>, k: nat)
    requires AllData(ps)
  {
    k < |ps| && CompleteAt(ps, k) && forall j | 0 <= j < k :: !CompleteAt(ps, j)
  }

  lemma GatherStep(ps: seq<seq<byte>>, i: nat, tail: seq<byte>, large: bool)
    requires AllData(ps) && AllFramed(ps, large) && i < |ps|
    ensures Gather(Flat(ps[i..]) + tail, Joined(ps[..i]), large) ==
      if CompleteAt(ps, i) then Whole(Joined(ps[..i + 1]), Flat(ps[i + 1..]) + tail)
      else Gather(Flat(ps[i + 1..]) + tail, Joined(ps[..i + 1]), large)
  {
    hide Completes, Next, Framed, Extend;
    NextOfFlat(ps[i..], tail, large);
    assert ps[i..][1..] == ps[i + 1..];
    assert ps[..i + 1][..i] == ps[..i];
  }

  /** The loop resumed after `i` packets, none of which completed the response, returns the
      shortest complete prefix of all the packets. */
  lemma {:induction false} GatherFrom(ps: seq<seq<byte>>, i: nat, k: nat, tail: seq<byte>, large: bool)
    requires AllData(ps) && AllFramed(ps, large) && i <= k && FirstComplete(ps, k)
    ensures Gather(Flat(ps[i..]) + tail, Joined(ps[..i]), large)
         == Whole(Joined(ps[..k + 1]), Flat(ps[k + 1..]) + tail)
    decreases k - i
  {
    hide Gather, Joined, Flat, CompleteAt, Framed;
    GatherStep(ps, i, tail, large);
    if i < k {
      GatherFrom(ps, i + 1, k, tail, large);
    }
  }

  /** The loop run over packets that do not complete the response keeps them all. */
  lemma {:induction false} GatherIncomplete(ps: seq<seq<byte>>, i: nat, tail: seq<byte>, large: bool)
    requires AllData(ps) && AllFramed(ps, large) && i <= |ps|
    requires forall j | 0 <= j < |ps| :: !CompleteAt(ps, j)
    ensures Gather(Flat(ps[i..]) + tail, Joined(ps[..i]), large) == Gather(tail, Joined(ps), large)
    decreases |ps| - i
  {
    hide Gather, Joined, Flat, CompleteAt, Framed;
    if i < |ps| {
      GatherStep(ps, i, tail, large);
      GatherIncomplete(ps, i + 1, tail, large);
    } else {
      BodiesEmpty();
      assert ps[i..] == [] && ps[..i] == ps && [] + tail == tail;
    }
  }

  /** On DATA packets the loop returns the flags of the first packet and the bodies of the
      shortest prefix that is complete. */
  lemma ShortestCompletePrefix(ps: seq<seq<byte>>, k: nat, tail: seq<byte>, large: bool)
    requires AllData(ps) && AllFramed(ps, large) && FirstComplete(ps, k)
    ensures Gather(Flat(ps) + tail, [], large)
         == Whole(FlagBytes(ps[0]) + Bodies(ps[..k + 1]), Flat(ps[k + 1..]) + tail)
  {
    hide Gather, Joined, Flat, CompleteAt, Framed, Bodies;
    BodiesEmpty();
    assert ps[0..] == ps && ps[..0] == [];
    GatherFrom(ps, 0, k, tail, large);
    JoinedIsFlagsAndBodies(ps[..k + 1]);
    assert ps[..k + 1][0] == ps[0];
  }

  // ---- How a response may be cut -------------------------------------------------------

  lemma {:induction false} JoinedPrefix(ps: seq<seq<byte>>, j: nat)
    requires AllData(ps) && 0 < j <= |ps|
    ensures Joined(ps[..j]) <= Joined(ps)
    decreases |ps|
  {
    hide Joined, Bodies;
    JoinedIsFlagsAndBodies(ps[..j]);
    JoinedIsFlagsAndBodies(ps);
    BodiesAppend(ps[..j], ps[j..]);
    assert ps[..j] + ps[j..] == ps;
    assert (FlagBytes(ps[0]) + Bodies(ps[..j])) + Bodies(ps[j..])
        == FlagBytes(ps[0]) + (Bodies(ps[..j]) + Bodies(ps[j..]));
  }

  lemma ScannedMonotone(acc: seq<byte>, more: seq<byte>)
    requires acc <= more && Scanned(acc)
    ensures Scanned(more)
  {
    var t := more[|acc|..];
    TerminalMonotone(acc[2..], t, 0);
    assert acc[2..] + t == more[2..];
  }

  /** Packets that do not say they are the last, and what the scanner says of all of them but
      the last: with a no, none of them completes the response. */
  lemma NoneCompletes(ps: seq<seq<byte>>, k: nat)
    requires AllData(ps) && k <= |ps| && !Scanned(Joined(ps[..k]))
    requires forall j | 0 <= j < k :: !SignalsEnd(ps[j])
    ensures forall j | 0 <= j < k :: !CompleteAt(ps, j)
  {
    hide Joined, Scanned, SignalsEnd;
    forall j | 0 <= j < k
      ensures !CompleteAt(ps, j)
    {
      if Scanned(Joined(ps[..j + 1])) {
        JoinedPrefix(ps[..k], j + 1);
        assert ps[..k][..j + 1] == ps[..j + 1];
        ScannedMonotone(Joined(ps[..j + 1]), Joined(ps[..k]));
      }
    }
  }

  lemma ScannedCompletes(ps: seq<seq<byte>>, k: nat)
    requires AllData(ps) && 0 < k <= |ps| && Scanned(Joined(ps[..k]))
    ensures CompleteAt(ps, k - 1)
  {
    hide Joined, Scanned, SignalsEnd;
  }

  lemma NothingScanned(ps: seq<seq<byte>>)
    requires AllData(ps) && Scanned(Joined(ps))
    ensures ps != []
  {
  }

  /** A response that was cut into packets of which only the last may say that it is the last
      comes back whole exactly when the scanner does not already stop on all but that packet:
      because a yes is never taken back, no shorter prefix needs to be looked at. */
  lemma CutComesBackWhole(ps: seq<seq<byte>>, tail: seq<byte>, large: bool)
    requires AllData(ps) && AllFramed(ps, large) && ps != []
    requires forall j | 0 <= j < |ps| - 1 :: !SignalsEnd(ps[j])
    requires CompleteAt(ps, |ps| - 1)
    ensures Gather(Flat(ps) + tail, [], large) == Whole(Joined(ps), tail)
       <==> !Scanned(Joined(ps[..|ps| - 1]))
  {
    hide Gather, Flat, Framed, CompleteAt, Joined, Bodies, Scanned, SignalsEnd;
    var k := |ps| - 1;
    BodiesEmpty();
    if Scanned(Joined(ps[..k])) {
      NothingScanned(ps[..k]);
      ScannedCompletes(ps, k);
      var j := FirstCompleteBelow(ps, k - 1);
      ShortestCompletePrefix(ps, j, tail, large);
      RestIsLonger(ps, j, tail);
    } else {
      NoneCompletes(ps, k);
      ShortestCompletePrefix(ps, k, tail, large);
      assert ps[..k + 1] == ps && ps[k + 1..] == [] && [] + tail == tail;
      JoinedIsFlagsAndBodies(ps);
    }
  }

  lemma {:induction false} FirstCompleteBelow(ps: seq<seq<byte>>, k: nat) returns (j: nat)
    requires AllData(ps) && k < |ps| && CompleteAt(ps, k)
    ensures j <= k && FirstComplete(ps, j)
  {
    hide CompleteAt;
    j := 0;
    while !CompleteAt(ps, j)
      invariant j <= k && forall i | 0 <= i < j :: !CompleteAt(ps, i)
      decreases k - j
    {
      j := j + 1;
    }
  }

  lemma RestIsLonger(ps: seq<seq<byte>>, j: nat, tail: seq<byte>)
    requires AllData(ps) && j + 1 < |ps|
    ensures Flat(ps[j + 1..]) + tail != tail
  {
    assert ps[j + 1..][0] == ps[j + 1];
    assert |Flat(ps[j + 1..])| >= |ps[j + 1]|;
  }

  /** Two such cuts of the same response yield the same payload. */
  lemma CutsAgree(ps: seq<seq<byte>>, qs: seq<seq<byte>>, tail: seq<byte>, large: bool)
    requires AllData(ps) && AllFramed(ps, large) && ps != []
    requires AllData(qs) && AllFramed(qs, large) && qs != []
    requires forall j | 0 <= j < |ps| - 1 :: !SignalsEnd(ps[j])
    requires forall j | 0 <= j < |qs| - 1 :: !SignalsEnd(qs[j])
    requires CompleteAt(ps, |ps| - 1) && CompleteAt(qs, |qs| - 1) && Joined(ps) == Joined(qs)
    requires !Scanned(Joined(ps[..|ps| - 1])) && !Scanned(Joined(qs[..|qs| - 1]))
    ensures Gather(Flat(ps) + tail, [], large) == Gather(Flat(qs) + tail, [], large)
  {
    hide *;
    CutComesBackWhole(ps, tail, large);
    CutComesBackWhole(qs, tail, large);
  }
}
