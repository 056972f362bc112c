/** A whole handshake with a server that follows the protocol, from the bytes it sends. */
module HonestServer {
  import opened Bytes
  import Framing
  import opened Handshake
  import opened Logon
  import Reassembly
  import Recovery
  import opened ResponseEnd
  import opened ServerAnswers
  import opened ServerMessages
  import opened Texts
  import opened Transport
  import WireFormat
  import opened Wrappers
  import opened Writes

  /** The session while the terms of the connection are `t`. */
  function Under(t: Terms, state: ConnectionState, stage: Stage, auth: Auth, requests: seq<Request>): Session {
    Session(state, stage, auth, requests, t.version >= 315, if t.sdu < 65535 then t.sdu else 65535, t.fastAuth)
  }

  // ---- Steps ---------------------------------------------------------------------------

  lemma DriveOn(e: Environment, s: Session, stream: seq<byte>)
    requires !Over(s)
    ensures var (x, rest) := NextAnswer(s, stream); Drive(e, s, stream) == Drive(e, Handle(e, s, x), rest)
  {
    hide Handle, NextAnswer;
  }

  lemma DriveOver(e: Environment, s: Session, stream: seq<byte>)
    requires Over(s)
    ensures Drive(e, s, stream) == (s, stream)
  {
  }

  lemma FramedLong(p: seq<byte>, large: bool)
    requires Framing.Framed(p, large)
    ensures |p| >= 8
  {
  }

  /** One packet answers. */
  lemma PacketTaken(e: Environment, s: Session, p: seq<byte>, stream: seq<byte>)
    requires !Over(s) && s.stage != AwaitFast && s.stage != AwaitLogonTwo && Framing.Framed(p, s.large)
    ensures |p| >= 8 && Drive(e, s, p + stream) == Drive(e, Handle(e, s, Success(p)), stream)
  {
    hide Handle, Drive, Framing.Framed, Framing.Next;
    DriveOn(e, s, p + stream);
    FramedLong(p, s.large);
    Framing.NextOfFramed(p, stream, s.large);
  }

  lemma ResponseTaken(e: Environment, s: Session, ps: seq<seq<byte>>, stream: seq<byte>)
    requires (s.stage == AwaitFast || s.stage == AwaitLogonTwo) && InPackets(ps, s.large)
    ensures Drive(e, s, Framing.Flat(ps) + stream)
         == Drive(e, Handle(e, s, Success(Recovery.Rebuilt(PayloadOf(ps), s.large))), stream)
  {
    hide Handle, Drive, EndsWith, Reassembly.Gather, Recovery.Rebuilt, Framing.Bodies, Framing.Flat;
    DriveOn(e, s, Framing.Flat(ps) + stream);
    GatheredByGrammar(ps, |ps| - 1, stream, s.large);
    assert ps[..|ps| - 1 + 1] == ps && ps[|ps| - 1 + 1..] == [];
    assert Framing.Flat([]) + stream == stream by { Reassembly.BodiesEmpty(); }
  }

  lemma RebuiltParts(payload: seq<byte>, large: bool)
    requires |payload| >= 3
    ensures var p := Recovery.Rebuilt(payload, large);
      |p| == 8 + |payload| && p[8..] == payload && p[4] == 6 && p[10] == payload[2]
  {
    var p := Recovery.Rebuilt(payload, large);
    assert p[8..] == payload;
    assert p[8..][2] == p[10];
  }

  // ---- The end of the handshake --------------------------------------------------------

  /** The payload of an answer: flag bytes, the type byte 8, the entries, and anything. */
  ghost predicate AnswerIn(payload: seq<byte>, xs: seq<ServerEntry>, tail: seq<byte>) {
    AllEntriesGood(xs) && Left(payload, 2, AnswerThen(8, xs, tail))
  }

  lemma AnswerStarts(payload: seq<byte>, xs: seq<ServerEntry>, tail: seq<byte>)
    requires AnswerIn(payload, xs, tail)
    ensures |payload| >= 3 && payload[2] == 8
  {
    var w := AnswerThen(8, xs, tail);
    assert payload[2] == payload[2..][0] == w[0];
  }

  /** The ciphers do what the client asks of them on the way to the second request. */
  ghost predicate CiphersWork(c: Crypto, k: Server, twelve: bool) {
    var combo := ComboOf(c, k, twelve, c.random(|k.part|));
    && Invertible(c)
    && c.encrypt(twelve, HashOf(c, k, twelve), c.random(|k.part|)).Some?
    && c.encrypt(twelve, combo, c.saltedPassword).Some?
    && (twelve ==> c.encrypt(true, combo, c.speedyData(k.vfr, k.vgen)).Some?)
  }

  ghost predicate Offers(c: Crypto, k: Server, twelve: bool, xs: seq<ServerEntry>) {
    if twelve then Offers12(c, k, xs) else Offers11(c, k, xs)
  }

  /** The second answer, to a logon on which the two sides agree, makes the session ready. */
  lemma LastAnswer(e: Environment, k: Server, twelve: bool, s: Session, ps: seq<seq<byte>>, xs: seq<ServerEntry>,
                   tail: seq<byte>, stream: seq<byte>) returns (end: Session)
    requires Invertible(e.crypto) && s.stage == AwaitLogonTwo && Agreed(e.crypto, k, twelve, s.auth)
    requires InPackets(ps, s.large) && AnswerIn(PayloadOf(ps), xs, tail)
    requires Confirms(e.crypto, twelve, s.auth.comboKey.value, xs)
    ensures Drive(e, s, Framing.Flat(ps) + stream) == (end, stream)
    ensures end == Session(Ready, Done, end.auth, s.requests, s.large, s.sdu, s.fast)
    ensures end.auth.phase == Complete && end.auth.comboKey == s.auth.comboKey
  {
    hide Drive, EndsWith, Framing.Framed, PayloadOf, Framing.Flat, Recovery.Rebuilt, Confirms, Left, AnswerThen,
      Invertible, Accepted, Agreed;
    var payload := PayloadOf(ps);
    ResponseTaken(e, s, ps, stream);
    AnswerStarts(payload, xs, tail);
    RebuiltParts(payload, s.large);
    var b := SecondAnswerCompletes(e.crypto, k, twelve, s.auth, 8, xs, payload, tail);
    end := s.(auth := b, state := Ready, stage := Done);
    assert Handle(e, s, Success(Recovery.Rebuilt(payload, s.large))) == end;
    DriveOver(e, end, stream);
  }

  /** After an honest first answer the second request is sent, and proves what it should. */
  lemma SecondRequest(e: Environment, k: Server, twelve: bool, s: Session, a: Auth) returns (proof: Proof)
    requires CiphersWork(e.crypto, k, twelve) && Agreed(e.crypto, k, twelve, a)
    ensures StartPhaseTwo(e, s.(auth := a))
         == Session(s.state, AwaitLogonTwo, a, s.requests + [LogonTwo(proof)], s.large, s.sdu, s.fast)
    ensures a.comboKey.Some? && a.comboKey.value == ComboOf(e.crypto, k, twelve, e.crypto.random(|k.part|))
    ensures Proves(e.crypto, k, twelve, a.comboKey.value, proof)
  {
    hide ClientProof, Proves, LookupHex, LookupNumber;
    proof := SecondRequestProves(e.crypto, k, twelve, a);
  }

  /** What the two sides are left with. */
  ghost predicate Settles(e: Environment, k: Server, twelve: bool, before: Session, sent: seq<Request>, end: Session) {
    && end.state == Ready && end.stage == Done && end.auth.phase == Complete
    && end.large == before.large && end.sdu == before.sdu
    && sent != [] && end.requests == before.requests + sent && sent[|sent| - 1].LogonTwo?
    && end.auth.comboKey.Some?
    && Proves(e.crypto, k, twelve, end.auth.comboKey.value, sent[|sent| - 1].proof)
  }

  lemma WorkingInverts(c: Crypto, k: Server, twelve: bool)
    requires CiphersWork(c, k, twelve)
    ensures Invertible(c)
  {
  }

  /** The second phase of the logon. */
  lemma PhaseTwo(e: Environment, k: Server, twelve: bool, s: Session, a: Auth, ps: seq<seq<byte>>, xs: seq<ServerEntry>,
                 tail: seq<byte>, stream: seq<byte>) returns (end: Session, proof: Proof)
    requires CiphersWork(e.crypto, k, twelve) && Agreed(e.crypto, k, twelve, a)
    requires InPackets(ps, s.large) && AnswerIn(PayloadOf(ps), xs, tail)
    requires Confirms(e.crypto, twelve, ComboOf(e.crypto, k, twelve, e.crypto.random(|k.part|)), xs)
    ensures Drive(e, StartPhaseTwo(e, s.(auth := a)), Framing.Flat(ps) + stream) == (end, stream)
    ensures Settles(e, k, twelve, s, [LogonTwo(proof)], end)
  {
    hide Drive, StartPhaseTwo, EndsWith, Framing.Framed, PayloadOf, Framing.Flat, AnswerIn, Confirms, Agreed, Proves,
      ComboOf, CiphersWork;
    proof := SecondRequest(e, k, twelve, s, a);
    WorkingInverts(e.crypto, k, twelve);
    end := LastAnswer(e, k, twelve, StartPhaseTwo(e, s.(auth := a)), ps, xs, tail, stream);
    assert [LogonTwo(proof)][0].proof == proof;
  }

  /** A server's logon: the packet of its first answer and the packets of its second. */
  datatype Exchange = Exchange(
    first: seq<byte>,
    offer: seq<ServerEntry>,
    offerTail: seq<byte>,
    second: seq<seq<byte>>,
    confirmation: seq<ServerEntry>,
    confirmationTail: seq<byte>)

  /** The second answer is one of an honest server. */
  ghost predicate HonestEnd(c: Crypto, k: Server, twelve: bool, x: Exchange, large: bool) {
    && CiphersWork(c, k, twelve)
    && InPackets(x.second, large) && AnswerIn(PayloadOf(x.second), x.confirmation, x.confirmationTail)
    && Confirms(c, twelve, ComboOf(c, k, twelve, c.random(|k.part|)), x.confirmation)
  }

  /** Both answers are. */
  ghost predicate Honest(c: Crypto, k: Server, twelve: bool, x: Exchange, large: bool) {
    && HonestEnd(c, k, twelve, x, large)
    && Framing.Framed(x.first, large) && Offers(c, k, twelve, x.offer)
    && AnswerIn(x.first[8..], x.offer, x.offerTail)
  }

  /** The bytes of a logon in two phases. */
  function LogonBytes(x: Exchange, stream: seq<byte>): seq<byte> {
    x.first + (Framing.Flat(x.second) + stream)
  }

  lemma BothPhases(e: Environment, k: Server, twelve: bool, s: Session, x: Exchange, stream: seq<byte>)
    returns (end: Session, proof: Proof)
    requires s.stage == AwaitLogonOne && s.auth == NEW && Honest(e.crypto, k, twelve, x, s.large)
    ensures Drive(e, s, LogonBytes(x, stream)) == (end, stream)
    ensures Settles(e, k, twelve, s, [LogonTwo(proof)], end)
  {
    hide Drive, EndsWith, Framing.Framed, PayloadOf, Framing.Flat, Confirms, Agreed, Offers12, Offers11, Settles,
      Left, AnswerThen, StartPhaseTwo, Invertible, Accepted, ComboOf;
    PacketTaken(e, s, x.first, Framing.Flat(x.second) + stream);
    var payload := x.first[8..];
    AnswerStarts(payload, x.offer, x.offerTail);
    assert payload[2] == x.first[10];
    var a := FirstAnswerAgrees(e.crypto, k, twelve, 8, x.offer, payload, x.offerTail);
    AgreedPhase(e.crypto, k, twelve, a);
    assert Handle(e, s, Success(x.first)) == StartPhaseTwo(e, s.(auth := a));
    end, proof := PhaseTwo(e, k, twelve, s, a, x.second, x.confirmation, x.confirmationTail, stream);
  }

  lemma AgreedPhase(c: Crypto, k: Server, twelve: bool, a: Auth)
    requires Agreed(c, k, twelve, a)
    ensures a.phase == Two
  {
  }

  /** From the answer about the data types on. */
  lemma FromTypes(e: Environment, k: Server, twelve: bool, s: Session, types: seq<byte>, x: Exchange, stream: seq<byte>)
    returns (end: Session, proof: Proof)
    requires s.stage == AwaitTypes && Framing.Framed(types, s.large) && types[4] == 6
    requires Honest(e.crypto, k, twelve, x, s.large)
    ensures Drive(e, s, types + LogonBytes(x, stream)) == (end, stream)
    ensures Settles(e, k, twelve, s, [LogonOne, LogonTwo(proof)], end)
  {
    hide Drive, Framing.Framed, Honest, LogonBytes, Proves;
    PacketTaken(e, s, types, LogonBytes(x, stream));
    var next := Session(DataTypesNegotiated, AwaitLogonOne, NEW, s.requests + [LogonOne], s.large, s.sdu, s.fast);
    assert Handle(e, s, Success(types)) == next;
    end, proof := BothPhases(e, k, twelve, next, x, stream);
    assert (s.requests + [LogonOne]) + [LogonTwo(proof)] == s.requests + [LogonOne, LogonTwo(proof)];
  }

  // ---- The beginning -------------------------------------------------------------------

  /** How a server takes up the connection: up to three requests to resend, its terms, and its answer
      to the out-of-band check if there is one. */
  datatype Greeting = Greeting(resends: seq<seq<byte>>, accept: seq<byte>, terms: Terms, checked: seq<byte>)
  {
    predicate Checks() {
      terms.version >= 318 && terms.oob
    }
  }

  ghost predicate Greets(e: Environment, g: Greeting) {
    && |g.resends| <= 3
    && (forall p | p in g.resends :: Framing.Framed(p, false) && p[4] == 11)
    && Framing.Framed(g.accept, false) && g.accept[4] == 2 && e.terms(g.accept) == Some(g.terms)
    && (g.Checks() ==> Framing.Framed(g.checked, g.terms.version >= 315))
  }

  function GreetingBytes(g: Greeting, stream: seq<byte>): seq<byte> {
    Framing.Flat(g.resends) + (g.accept + if g.Checks() then g.checked + stream else stream)
  }

  /** What has been sent when the negotiation starts. */
  function Opened(g: Greeting): seq<Request> {
    Connects(|g.resends| + 1) + if g.Checks() then [OobCheck] else []
  }

  /** And what is waited for then. */
  function AfterGreeting(g: Greeting): Session {
    if g.terms.fastAuth then Under(g.terms, Connected, AwaitFast, NEW, Opened(g) + [FastLogon])
    else Under(g.terms, Connected, AwaitProtocol, NEW, Opened(g) + [NegotiateProtocol])
  }

  function Waiting(n: nat): Session {
    Session(Connected, AwaitAccept(n), NEW, Connects(n + 1), false, 8192, false)
  }

  lemma ResendTaken(e: Environment, n: nat, p: seq<byte>, stream: seq<byte>)
    requires n < 3 && Framing.Framed(p, false) && p[4] == 11
    ensures Drive(e, Waiting(n), p + stream) == Drive(e, Waiting(n + 1), stream)
  {
    hide Drive, Framing.Framed;
    PacketTaken(e, Waiting(n), p, stream);
    assert Connects(n + 1) + [Connect] == Connects(n + 2);
  }

  lemma {:induction false} ResendsTaken(e: Environment, n: nat, ps: seq<seq<byte>>, stream: seq<byte>)
    requires n + |ps| <= 3 && forall p | p in ps :: Framing.Framed(p, false) && p[4] == 11
    ensures Drive(e, Waiting(n), Framing.Flat(ps) + stream) == Drive(e, Waiting(n + |ps|), stream)
    decreases |ps|
  {
    hide Drive, Framing.Framed, Waiting;
    if ps == [] {
      assert [] + stream == stream;
    } else {
      assert ps[0] in ps && forall p | p in ps[1..] :: p in ps;
      assert (ps[0] + Framing.Flat(ps[1..])) + stream == ps[0] + (Framing.Flat(ps[1..]) + stream);
      ResendTaken(e, n, ps[0], Framing.Flat(ps[1..]) + stream);
      ResendsTaken(e, n + 1, ps[1..], stream);
    }
  }

  lemma TermsTaken(e: Environment, g: Greeting, stream: seq<byte>)
    requires Greets(e, g)
    ensures Drive(e, Waiting(|g.resends|), g.accept + if g.Checks() then g.checked + stream else stream)
         == Drive(e, AfterGreeting(g), stream)
  {
    hide Drive, Framing.Framed;
    var n, t := |g.resends|, g.terms;
    PacketTaken(e, Waiting(n), g.accept, if g.Checks() then g.checked + stream else stream);
    if g.Checks() {
      var s := Under(t, Connected, AwaitOob, NEW, Opened(g));
      assert Handle(e, Waiting(n), Success(g.accept)) == s;
      PacketTaken(e, s, g.checked, stream);
      assert Handle(e, s, Success(g.checked)) == AfterGreeting(g);
    } else {
      assert Connects(n + 1) + [] == Connects(n + 1);
      assert Handle(e, Waiting(n), Success(g.accept)) == AfterGreeting(g);
    }
  }

  /** Large packets from version 315 on, the out-of-band check from version 318 on if both sides can,
      the fast logon if the server offers it; the packet size is cut off at 65535. */
  lemma Greeted(e: Environment, g: Greeting, stream: seq<byte>)
    requires Greets(e, g)
    ensures Drive(e, START, GreetingBytes(g, stream)) == Drive(e, AfterGreeting(g), stream)
  {
    hide Drive, Framing.Framed, AfterGreeting, Framing.Flat;
    assert START == Waiting(0) by { assert Connects(1) == [Connect]; }
    ResendsTaken(e, 0, g.resends, g.accept + if g.Checks() then g.checked + stream else stream);
    TermsTaken(e, g, stream);
  }

  // ---- Whole handshakes ----------------------------------------------------------------

  /** An answer about the protocol. */
  ghost predicate Agrees(e: Environment, protocol: seq<byte>, large: bool) {
    Framing.Framed(protocol, large) && |protocol| >= 10 && protocol[4] == 6 && e.protocolLength(protocol[10..]).Some?
  }

  /** How a handshake has ended well: the session is ready under the terms the server gave, the
      requests were sent in this order, and both sides hold one combo key. */
  ghost predicate EndsReady(e: Environment, k: Server, twelve: bool, g: Greeting, sent: seq<Request>, end: Session) {
    && end.state == Ready && end.stage == Done && end.auth.phase == Complete
    && end.large == (g.terms.version >= 315) && end.sdu == (if g.terms.sdu < 65535 then g.terms.sdu else 65535)
    && sent != [] && end.requests == Opened(g) + sent && sent[|sent| - 1].LogonTwo?
    && end.auth.comboKey.Some?
    && Proves(e.crypto, k, twelve, end.auth.comboKey.value, sent[|sent| - 1].proof)
  }

  lemma SettledReady(e: Environment, k: Server, twelve: bool, g: Greeting, before: Session, early: seq<Request>,
                     late: seq<Request>, end: Session)
    requires Settles(e, k, twelve, before, late, end) && before.requests == Opened(g) + early
    requires before.large == (g.terms.version >= 315) && before.sdu == if g.terms.sdu < 65535 then g.terms.sdu else 65535
    ensures EndsReady(e, k, twelve, g, early + late, end)
  {
    hide Proves, Opened;
    assert (Opened(g) + early) + late == Opened(g) + (early + late);
    assert (early + late)[|early + late| - 1] == late[|late| - 1];
  }

  /** The handshake step by step, with a server that does not offer the fast logon. */
  lemma SlowHandshake(e: Environment, k: Server, twelve: bool, g: Greeting, protocol: seq<byte>, types: seq<byte>,
                      x: Exchange, stream: seq<byte>) returns (end: Session, proof: Proof)
    requires Greets(e, g) && !g.terms.fastAuth && Honest(e.crypto, k, twelve, x, g.terms.version >= 315)
    requires Agrees(e, protocol, g.terms.version >= 315)
    requires Framing.Framed(types, g.terms.version >= 315) && types[4] == 6
    ensures Drive(e, START, GreetingBytes(g, protocol + (types + LogonBytes(x, stream)))) == (end, stream)
    ensures EndsReady(e, k, twelve, g, [NegotiateProtocol, NegotiateTypes, LogonOne, LogonTwo(proof)], end)
  {
    hide Drive, Framing.Framed, Honest, LogonBytes, Settles, EndsReady, GreetingBytes, Greets, Opened;
    var s := AfterGreeting(g);
    var rest := types + LogonBytes(x, stream);
    Greeted(e, g, protocol + rest);
    PacketTaken(e, s, protocol, rest);
    var payload := protocol[8..];
    assert payload[2..] == protocol[10..];
    var next := Under(g.terms, ProtocolNegotiated, AwaitTypes, NEW, s.requests + [NegotiateTypes]);
    assert Handle(e, s, Success(protocol)) == next;
    end, proof := FromTypes(e, k, twelve, next, types, x, stream);
    var early := [NegotiateProtocol, NegotiateTypes];
    assert next.requests == Opened(g) + early;
    SettledReady(e, k, twelve, g, next, early, [LogonOne, LogonTwo(proof)], end);
    assert early + [LogonOne, LogonTwo(proof)] == [NegotiateProtocol, NegotiateTypes, LogonOne, LogonTwo(proof)];
  }

  /** Messages about the protocol (type byte 1) and the data types (2), whose ends can be told. */
  ghost predicate Informs(e: Environment, w: seq<byte>) {
    && w != []
    && ((w[0] == 1 && forall more: seq<byte> :: e.protocolLength(w + more) == Some(|w|))
        || (w[0] == 2 && forall more: seq<byte> :: e.typesLength(w + more) == Some(|w|)))
  }

  function Joined(ws: seq<seq<byte>>, rest: seq<byte>): seq<byte> {
    if ws == [] then rest else ws[0] + Joined(ws[1..], rest)
  }

  lemma {:induction false} FastThrough(e: Environment, ws: seq<seq<byte>>, s: seq<byte>, p: nat, state: ConnectionState,
                                       rest: seq<byte>) returns (q: nat, next: ConnectionState)
    requires |s| >= 2 && Left(s, p, Joined(ws, rest)) && forall w | w in ws :: Informs(e, w)
    ensures p <= q <= |s| && Left(s, q, rest)
    ensures FastMessages(e, s, p, state) == FastMessages(e, s, q, next)
    decreases |ws|
  {
    hide Accepted;
    if ws == [] {
      q, next := p, state;
      LeftBound(s, p, rest);
    } else {
      var w, tail := ws[0], Joined(ws[1..], rest);
      assert w in ws && forall v | v in ws[1..] :: v in ws;
      var r := Past(w, s, p, tail);
      assert s[p..] == w + tail && s[p] == s[p..][0] == w[0];
      q, next := FastThrough(e, ws[1..], s, r, if w[0] == 1 then ProtocolNegotiated else DataTypesNegotiated, rest);
    }
  }

  /** What a fast answer leads to, its messages about protocol and data types passed over: a first
      answer of the logon. */
  lemma FastAnswered(e: Environment, k: Server, twelve: bool, s: Session, ps: seq<seq<byte>>, ws: seq<seq<byte>>,
                     xs: seq<ServerEntry>, tail: seq<byte>, stream: seq<byte>) returns (state: ConnectionState, a: Auth)
    requires s.stage == AwaitFast && InPackets(ps, s.large) && (forall w | w in ws :: Informs(e, w))
    requires AllEntriesGood(xs) && Left(PayloadOf(ps), 2, Joined(ws, AnswerThen(8, xs, tail)))
    requires CiphersWork(e.crypto, k, twelve) && Offers(e.crypto, k, twelve, xs)
    ensures Agreed(e.crypto, k, twelve, a)
    ensures Drive(e, s, Framing.Flat(ps) + stream) == Drive(e, StartPhaseTwo(e, s.(state := state, auth := a)), stream)
  {
    hide Drive, EndsWith, Framing.Framed, PayloadOf, Framing.Flat, Recovery.Rebuilt, Joined, AnswerThen, EntriesThen,
      Offers12, Offers11, Informs, Agreed, StartPhaseTwo, FastMessages, Accepted, Invertible, ComboOf, Left;
    var payload := PayloadOf(ps);
    ResponseTaken(e, s, ps, stream);
    PayloadIsLong(ps);
    var q;
    q, state := FastThrough(e, ws, payload, 2, s.state, AnswerThen(8, xs, tail));
    var inner := payload[..2] + payload[q..];
    InnerAnswer(payload, q, xs, tail);
    a := FirstAnswerAgrees(e.crypto, k, twelve, 8, xs, inner, tail);
    AgreedPhase(e.crypto, k, twelve, a);
    FastTakes(e, payload, q, state, a);
    RebuiltParts(payload, s.large);
  }

  lemma PayloadIsLong(ps: seq<seq<byte>>)
    requires Framing.AllData(ps) && ps != []
    ensures |PayloadOf(ps)| >= 2
  {
    hide Framing.Bodies;
  }

  lemma InnerAnswer(payload: seq<byte>, q: nat, xs: seq<ServerEntry>, tail: seq<byte>)
    requires |payload| >= 2 && 2 <= q <= |payload| && |xs| < 0x1_0000 && Left(payload, q, AnswerThen(8, xs, tail))
    ensures q < |payload| && payload[q] == 8 && |payload| >= 3
    ensures Left(payload[..2] + payload[q..], 2, AnswerThen(8, xs, tail))
  {
    var w := AnswerThen(8, xs, tail);
    assert payload[q] == payload[q..][0] == w[0];
    assert (payload[..2] + payload[q..])[2..] == payload[q..];
  }

  lemma FastTakes(e: Environment, s: seq<byte>, q: nat, state: ConnectionState, a: Auth)
    requires 2 <= q < |s| && s[q] == 8 && Accepted(e.crypto, NEW, s[..2] + s[q..]) == Some(a)
    ensures FastMessages(e, s, q, state) == Answered(state, a)
  {
    hide Accepted;
  }

  /** The handshake in one round trip and a proof. */
  lemma FastHandshake(e: Environment, k: Server, twelve: bool, g: Greeting, ps: seq<seq<byte>>, ws: seq<seq<byte>>,
                      x: Exchange, stream: seq<byte>) returns (end: Session, proof: Proof)
    requires Greets(e, g) && g.terms.fastAuth && HonestEnd(e.crypto, k, twelve, x, g.terms.version >= 315)
    requires InPackets(ps, g.terms.version >= 315) && forall w | w in ws :: Informs(e, w)
    requires AllEntriesGood(x.offer) && Left(PayloadOf(ps), 2, Joined(ws, AnswerThen(8, x.offer, x.offerTail)))
    requires Offers(e.crypto, k, twelve, x.offer)
    ensures Drive(e, START, GreetingBytes(g, Framing.Flat(ps) + (Framing.Flat(x.second) + stream))) == (end, stream)
    ensures EndsReady(e, k, twelve, g, [FastLogon, LogonTwo(proof)], end)
  {
    hide Drive, EndsWith, Framing.Framed, PayloadOf, Framing.Flat, Joined, AnswerThen, Offers, Settles, EndsReady,
      GreetingBytes, Greets, Opened, Informs, Agreed, StartPhaseTwo, CiphersWork, Confirms, ComboOf, AnswerIn,
      Left, AllEntriesGood;
    var s := AfterGreeting(g);
    Greeted(e, g, Framing.Flat(ps) + (Framing.Flat(x.second) + stream));
    var state, a := FastAnswered(e, k, twelve, s, ps, ws, x.offer, x.offerTail, Framing.Flat(x.second) + stream);
    var next := s.(state := state);
    assert s.(state := state, auth := a) == next.(auth := a);
    end, proof := PhaseTwo(e, k, twelve, next, a, x.second, x.confirmation, x.confirmationTail, stream);
    SettledReady(e, k, twelve, g, next, [FastLogon], [LogonTwo(proof)], end);
    assert [FastLogon] + [LogonTwo(proof)] == [FastLogon, LogonTwo(proof)];
  }

  lemma FastRenegotiates(e: Environment, s: seq<byte>, q: nat, state: ConnectionState)
    requires 2 <= q < |s| && s[q] == 28
    ensures FastMessages(e, s, q, state) == Renegotiates(state)
  {
    hide Accepted;
  }

  /** A server may answer the fast logon with the wish to negotiate again (type byte 28): then the
      data types are negotiated and the logon is made step by step. */
  lemma RenegotiatedHandshake(e: Environment, k: Server, twelve: bool, g: Greeting, ps: seq<seq<byte>>,
                              ws: seq<seq<byte>>, more: seq<byte>, types: seq<byte>, x: Exchange, stream: seq<byte>)
    returns (end: Session, proof: Proof)
    requires Greets(e, g) && g.terms.fastAuth && Honest(e.crypto, k, twelve, x, g.terms.version >= 315)
    requires InPackets(ps, g.terms.version >= 315) && (forall w | w in ws :: Informs(e, w))
    requires Left(PayloadOf(ps), 2, Joined(ws, [28] + more))
    requires Framing.Framed(types, g.terms.version >= 315) && types[4] == 6
    ensures Drive(e, START, GreetingBytes(g, Framing.Flat(ps) + (types + LogonBytes(x, stream)))) == (end, stream)
    ensures EndsReady(e, k, twelve, g, [FastLogon, NegotiateTypes, LogonOne, LogonTwo(proof)], end)
  {
    hide Drive, EndsWith, PayloadOf, Framing.Flat, Joined, Settles, EndsReady, GreetingBytes, Greets, Opened, Honest,
      Informs, LogonBytes, Framing.Framed, FastMessages, Recovery.Rebuilt, Left;
    var s := AfterGreeting(g);
    var rest := types + LogonBytes(x, stream);
    Greeted(e, g, Framing.Flat(ps) + rest);
    ResponseTaken(e, s, ps, rest);
    var payload := PayloadOf(ps);
    PayloadIsLong(ps);
    var q, state := FastThrough(e, ws, payload, 2, s.state, [28] + more);
    var r := ByteThen(28, payload, q, more);
    FastRenegotiates(e, payload, q, state);
    RebuiltParts(payload, s.large);
    var next := Under(g.terms, state, AwaitTypes, NEW, s.requests + [NegotiateTypes]);
    assert Handle(e, s, Success(Recovery.Rebuilt(payload, s.large))) == next;
    end, proof := FromTypes(e, k, twelve, next, types, x, stream);
    var early := [FastLogon, NegotiateTypes];
    assert next.requests == Opened(g) + early;
    SettledReady(e, k, twelve, g, next, early, [LogonOne, LogonTwo(proof)], end);
    assert early + [LogonOne, LogonTwo(proof)] == [FastLogon, NegotiateTypes, LogonOne, LogonTwo(proof)];
  }

  // ---- What the handshake does not go on with ------------------------------------------

  /** Which packets the handshake goes on with, by what is waited for: the terms or one of three
      resends; an answer about the protocol that can be read; an answer about the data types. */
  lemma GoesOnExactly(e: Environment, s: Session, p: seq<byte>)
    requires |p| >= 8
    ensures s.stage.AwaitAccept? ==>
      (Handle(e, s, Success(p)).stage != Failed <==>
        (p[4] == 2 && e.terms(p).Some?) || (p[4] == 11 && s.stage.resends < 3))
    ensures s.stage == AwaitProtocol ==>
      (Handle(e, s, Success(p)).stage != Failed <==> p[4] == 6 && |p| >= 10 && e.protocolLength(p[10..]).Some?)
    ensures s.stage == AwaitTypes ==> (Handle(e, s, Success(p)).stage != Failed <==> p[4] == 6)
  {
    if |p| >= 10 {
      assert p[8..][2..] == p[10..];
    }
  }

  /** An error message in the place of an answer to the logon ends the handshake, and so does a marker
      in the second phase, or a packet without anything in it. */
  lemma RefusedLogon(e: Environment, s: Session, p: seq<byte>)
    requires s.stage == AwaitLogonOne || s.stage == AwaitLogonTwo
    requires |p| <= 8 || (|p| > 10 && p[10] == 4) || (s.stage == AwaitLogonTwo && p[4] == 12)
    ensures Handle(e, s, Success(p)).stage == Failed
  {
    hide Accepted, ClientProof;
  }

  /** The messages of a fast answer: one of another kind than protocol (1), data types (2), error (4),
      parameters (8) and renegotiation (28) ends it, and so do two that cannot be told apart. */
  lemma FastRefused(e: Environment, s: Session, ps: seq<seq<byte>>, ws: seq<seq<byte>>, rest: seq<byte>,
                    stream: seq<byte>)
    requires s.stage == AwaitFast && InPackets(ps, s.large) && (forall w | w in ws :: Informs(e, w))
    requires Left(PayloadOf(ps), 2, Joined(ws, rest))
    requires rest == [] || rest[0] !in {1, 2, 4, 8, 28}
    ensures Drive(e, s, Framing.Flat(ps) + stream).0.stage == Failed && Drive(e, s, Framing.Flat(ps) + stream).1 == stream
  {
    hide Drive, EndsWith, PayloadOf, Framing.Flat, Joined, Informs, Framing.Framed, Recovery.Rebuilt, Left;
    ResponseTaken(e, s, ps, stream);
    var payload := PayloadOf(ps);
    PayloadIsLong(ps);
    var q, state := FastThrough(e, ws, payload, 2, s.state, rest);
    FastEnds(e, payload, q, state, rest);
    if |payload| >= 3 {
      RebuiltParts(payload, s.large);
    } else {
      assert |Recovery.Rebuilt(payload, s.large)| < 11 by { ShortRebuilt(payload, s.large); }
    }
    var next := Handle(e, s, Success(Recovery.Rebuilt(payload, s.large)));
    assert next.stage == Failed;
    DriveOver(e, next, stream);
  }

  lemma ShortRebuilt(payload: seq<byte>, large: bool)
    ensures |Recovery.Rebuilt(payload, large)| == 8 + |payload|
  {
    assert Recovery.Rebuilt(payload, large)[8..] == payload;
  }

  lemma FastEnds(e: Environment, s: seq<byte>, q: nat, state: ConnectionState, rest: seq<byte>)
    requires |s| >= 2 && 2 <= q && Left(s, q, rest) && (rest == [] || rest[0] !in {1, 2, 4, 8, 28})
    ensures FastMessages(e, s, q, state) == Nothing(state)
  {
    hide Accepted;
    if rest != [] {
      assert s[q] == s[q..][0];
    }
  }

  // ---- The conditions can be met -------------------------------------------------------

  lemma EntryLength(x: ServerEntry, rest: seq<byte>)
    requires x.key.Some? && |x.key.value| <= 252 && x.value.Some? && |x.value.value| < 2000
    ensures |EntryThen(x, rest)| <= 2300 + |rest|
  {
    hide UbBytes, LengthPrefixed, LongBody;
    NumberLength(x.meta);
    NumberLength(x.size);
    NumberLength(x.flags);
    NumberLength(|x.value.value|);
    WireFormat.WrittenStrings(x.key.value);
    WireFormat.WrittenStrings(x.value.value);
  }

  lemma NumberLength(v: u64)
    ensures |UbBytes(v)| <= 9
  {
    hide UbBytes;
    WireFormat.WrittenNumbers(v);
  }

  lemma {:induction false} EntriesLength(xs: seq<ServerEntry>)
    requires forall i: nat | i < |xs| ::
      xs[i].key.Some? && |xs[i].key.value| <= 252 && xs[i].value.Some? && |xs[i].value.value| < 2000
    ensures |EntriesThen(xs, [])| <= 2300 * |xs|
  {
    hide EntryThen;
    if xs != [] {
      EntriesLength(xs[1..]);
      EntryLength(xs[0], EntriesThen(xs[1..], []));
    }
  }

  lemma AnswerLength(xs: seq<ServerEntry>)
    requires |xs| <= 5 && forall i: nat | i < |xs| ::
      xs[i].key.Some? && |xs[i].key.value| <= 252 && xs[i].value.Some? && |xs[i].value.value| < 2000
    ensures |AnswerThen(8, xs, [])| <= 12000
  {
    hide UbBytes, EntriesThen;
    EntriesLength(xs);
    NumberLength(|xs|);
  }

  /** An answer in one packet that says it is the last. */
  function AnswerPacket(xs: seq<ServerEntry>, large: bool): seq<byte>
    requires |xs| < 0x1_0000
  {
    Framing.DataPacket(Framing.END_OF_RESPONSE, AnswerThen(8, xs, []), large)
  }

  lemma PacketOfAnswer(xs: seq<ServerEntry>, large: bool)
    requires AllEntriesGood(xs) && |AnswerThen(8, xs, [])| <= 12000
    ensures var p := AnswerPacket(xs, large);
      && Framing.Framed(p, large) && |p| >= 10 && AnswerIn(p[8..], xs, [])
      && InPackets([p], large) && AnswerIn(PayloadOf([p]), xs, [])
  {
    hide AnswerThen, Framing.DataPacket, Framing.Framed, EndMarked, ResponseEnd.Complete;
    var w := AnswerThen(8, xs, []);
    var p := AnswerPacket(xs, large);
    Framing.DataPacketParts(Framing.END_OF_RESPONSE, w, large);
    assert p[8..][2..] == p[10..] == w;
    MarksAreSignals(p);
    assert Reassembly.SignalsEnd(p);
    var ps := [p];
    assert ps[1..] == [] && w + [] == w;
    assert Framing.Bodies(ps) == w;
    assert PayloadOf(ps)[2..] == w;
  }

  /** Wherever the ciphers do not fail there is a server of the kind these results are about. */
  lemma ThereIsAnHonestServer(c: Crypto, k: Server, key: seq<byte>, x: seq<byte>, y: seq<byte>, large: bool)
    requires CiphersWork(c, k, true) && c.encrypt(true, c.hash12(k.vfr, k.vgen), k.part) == Some(key) && Short(k, key)
    requires Marked(x) && c.encrypt(true, ComboOf(c, k, true, c.random(|k.part|)), x) == Some(y) && |y| < 1000
    ensures exists exchange :: Honest(c, k, true, exchange, large)
  {
    hide HexOf, Marked, CiphersWork, ComboOf, Confirms, Offers12, AllEntriesGood, InPackets, Framing.Framed, AnswerIn,
      AnswerPacket, Ascii;
    OfferOffers(c, k, key);
    ConfirmationConfirms(c, true, ComboOf(c, k, true, c.random(|k.part|)), x, y);
    var xs, ys := Offer(k, key), Confirmation(y);
    AnswerLength(xs);
    AnswerLength(ys);
    PacketOfAnswer(xs, large);
    PacketOfAnswer(ys, large);
    var exchange := Exchange(AnswerPacket(xs, large), xs, [], [AnswerPacket(ys, large)], ys, []);
    assert Honest(c, k, true, exchange, large);
  }
}
