/** Establishing a session, as one machine: what the client waits for, and what each answer of
    the server makes of it. */
module Handshake {
  import opened Bytes
  import opened Messages
  import Framing
  import opened Logon
  import opened Recovery
  import opened Transport
  import opened Wrappers

  const ACCEPT: byte := 2
  const RESEND: byte := 11
  const MAX_RESENDS: nat := 3
  const MIN_LARGE_SDU: u16 := 315
  const MIN_OOB_CHECK: u16 := 318

  /** What the client takes from an ACCEPT packet. */
  datatype Terms = Terms(version: u16, sdu: u32, oob: bool, fastAuth: bool)

  /** The formats that are not spelled out here, and the ciphers. A length counts the type byte
      in. */
  datatype Environment = Environment(
    terms: seq<byte> -> Option<Terms>,
    protocolLength: seq<byte> -> Option<nat>,
    typesLength: seq<byte> -> Option<nat>,
    crypto: Crypto)

  datatype Request =
    | Connect | OobCheck | NegotiateProtocol | NegotiateTypes | FastLogon | LogonOne | LogonTwo(proof: Proof)

  /** What the client waits for. */
  datatype Stage =
    | AwaitAccept(resends: nat)
    | AwaitOob
    | AwaitFast
    | AwaitProtocol
    | AwaitTypes
    | AwaitLogonOne
    | AwaitLogonTwo
    | Done
    | Failed

  datatype Session = Session(
    state: ConnectionState,
    stage: Stage,
    auth: Auth,
    requests: seq<Request>,
    large: bool,
    sdu: u16,
    fast: bool)

  type Answer = Result<seq<byte>, TransportError>

  const START := Session(Connected, AwaitAccept(0), NEW, [Connect], false, 8192, false)

  /** Sends a request and waits for its answer. */
  function Enter(s: Session, stage: Stage, request: Request): Session {
    s.(stage := stage, requests := s.requests + [request])
  }

  function Fail(s: Session): Session {
    s.(stage := Failed)
  }

  function Negotiate(s: Session): Session {
    if s.fast then Enter(s.(auth := NEW), AwaitFast, FastLogon) else Enter(s, AwaitProtocol, NegotiateProtocol)
  }

  function StartLogon(s: Session): Session {
    Enter(s.(auth := NEW), AwaitLogonOne, LogonOne)
  }

  /** The second phase, with a first answer accepted. */
  function StartPhaseTwo(e: Environment, s: Session): Session {
    match ClientProof(e.crypto, s.auth)
    case Some(proof) => Enter(s, AwaitLogonTwo, LogonTwo(proof))
    case None => Fail(s)
  }

  /** With the terms of the connection known: the out-of-band check first, if both sides can. */
  function AfterAccept(s: Session, version: u16, oob: bool): Session {
    if version >= MIN_OOB_CHECK && oob then Enter(s, AwaitOob, OobCheck) else Negotiate(s)
  }

  function OnConnect(e: Environment, s: Session, p: seq<byte>, resends: nat): Session
    requires |p| >= Framing.HEADER_SIZE
  {
    if p[4] == ACCEPT then
      match e.terms(p)
      case None => Fail(s)
      case Some(t) =>
        AfterAccept(s.(state := Connected, large := t.version >= MIN_LARGE_SDU,
                       sdu := if t.sdu < 65535 then t.sdu else 65535, fast := t.fastAuth), t.version, t.oob)
    else if p[4] == RESEND && resends < MAX_RESENDS then Enter(s, AwaitAccept(resends + 1), Connect)
    else Fail(s)
  }

  function OnProtocol(e: Environment, s: Session, p: seq<byte>): Session
    requires |p| >= Framing.HEADER_SIZE
  {
    var payload := p[Framing.HEADER_SIZE..];
    if p[4] == Framing.DATA && |payload| >= 2 && e.protocolLength(payload[2..]).Some?
    then Enter(s.(state := ProtocolNegotiated), AwaitTypes, NegotiateTypes) else Fail(s)
  }

  function OnTypes(s: Session, p: seq<byte>): Session
    requires |p| >= Framing.HEADER_SIZE
  {
    if p[4] == Framing.DATA then StartLogon(s.(state := DataTypesNegotiated)) else Fail(s)
  }

  /** An error message in the place of an answer. */
  predicate Refuses(p: seq<byte>) {
    |p| > Framing.HEADER_SIZE + 2 && p[Framing.HEADER_SIZE + 2] == ERROR
  }

  function OnLogonOne(e: Environment, s: Session, p: seq<byte>): Session
    requires |p| >= Framing.HEADER_SIZE
  {
    if |p| <= Framing.HEADER_SIZE || Refuses(p) then Fail(s)
    else
      match Accepted(e.crypto, s.auth, p[Framing.HEADER_SIZE..])
      case Some(auth) => if auth.phase == Two then StartPhaseTwo(e, s.(auth := auth)) else Fail(s)
      case None => Fail(s)
  }

  function OnLogonTwo(e: Environment, s: Session, p: seq<byte>): Session
    requires |p| >= Framing.HEADER_SIZE
  {
    if |p| <= Framing.HEADER_SIZE || p[4] == Framing.MARKER || Refuses(p) then Fail(s)
    else
      match Accepted(e.crypto, s.auth, p[Framing.HEADER_SIZE..])
      case Some(auth) =>
        if auth.phase == Complete then s.(auth := auth, state := Ready, stage := Done) else Fail(s)
      case None => Fail(s)
  }

  /** The messages of the answer to a fast logon, from `p` on: the state reached, and the logon
      if a first answer was in it. */
  datatype FastEnd = Renegotiates(state: ConnectionState) | Answered(state: ConnectionState, auth: Auth)
                   | Nothing(state: ConnectionState)

  function FastMessages(e: Environment, s: seq<byte>, p: nat, state: ConnectionState): FastEnd
    requires |s| >= 2
    decreases |s| - p
  {
    if p >= |s| then Nothing(state)
    else if s[p] == PROTOCOL then
      match e.protocolLength(s[p..])
      case Some(n) =>
        if 0 < n <= |s| - p then FastMessages(e, s, p + n, ProtocolNegotiated) else Nothing(state)
      case None => Nothing(state)
    else if s[p] == DATA_TYPES then
      match e.typesLength(s[p..])
      case Some(n) =>
        if 0 < n <= |s| - p then FastMessages(e, s, p + n, DataTypesNegotiated) else Nothing(state)
      case None => Nothing(state)
    else if s[p] == RENEGOTIATE then Renegotiates(state)
    else if s[p] == PARAMETER || s[p] == ERROR then
      match Accepted(e.crypto, NEW, s[..2] + s[p..])
      case Some(auth) => Answered(state, auth)
      case None => Nothing(state)
    else Nothing(state)
  }

  function OnFast(e: Environment, s: Session, p: seq<byte>): Session
    requires |p| >= Framing.HEADER_SIZE
  {
    if |p| < Framing.HEADER_SIZE + 3 then Fail(s)
    else
      match FastMessages(e, p[Framing.HEADER_SIZE..], 2, s.state)
      case Renegotiates(state) => Enter(s.(state := state), AwaitTypes, NegotiateTypes)
      case Answered(state, auth) =>
        if auth.phase == Two then StartPhaseTwo(e, s.(state := state, auth := auth)) else Fail(s.(state := state))
      case Nothing(state) => Fail(s.(state := state))
  }

  /** The machine. After the handshake an answer changes the state only if the stream broke; and
      a handshake that failed leaves no connection behind. */
  function Handle(e: Environment, s: Session, x: Answer): Session {
    if s.stage == Failed then s
    else if s.stage == Done then s.(state := Settled(s.state, x))
    else
      match x
      case Failure(_) => Fail(s.(state := Settled(s.state, x)))
      case Success(p) =>
        if |p| < Framing.HEADER_SIZE then Fail(s)
        else
          match s.stage
          case AwaitAccept(resends) => OnConnect(e, s, p, resends)
          case AwaitOob => Negotiate(s)
          case AwaitFast => OnFast(e, s, p)
          case AwaitProtocol => OnProtocol(e, s, p)
          case AwaitTypes => OnTypes(s, p)
          case AwaitLogonOne => OnLogonOne(e, s, p)
          case AwaitLogonTwo => OnLogonTwo(e, s, p)
  }

  // ---- Runs ----------------------------------------------------------------------------

  /** What happens to a session: an answer or its failure, or the program closes it. */
  datatype Event = Reply(answer: Answer) | Close

  /** There is nothing to close before the handshake has succeeded. */
  predicate Enabled(s: Session, x: Event) {
    x == Close ==> s.stage == Done
  }

  /** Closing logs off, if the session is ready, and closes it whatever the server says to that. */
  function React(e: Environment, s: Session, x: Event): Session {
    match x
    case Reply(answer) => Handle(e, s, answer)
    case Close => s.(state := Closed)
  }

  ghost predicate Run(e: Environment, ss: seq<Session>, xs: seq<Event>) {
    && |ss| == |xs| + 1 && ss[0] == START
    && forall i | 0 <= i < |xs| :: Enabled(ss[i], xs[i]) && ss[i + 1] == React(e, ss[i], xs[i])
  }

  /** `n` times CONNECT. */
  function Connects(n: nat): (r: seq<Request>)
    ensures |r| == n && forall i | 0 <= i < n :: r[i] == Connect
  {
    seq(n, _ => Connect)
  }

  /** What is sent between the last CONNECT and the proof of the password. */
  predicate Opening(r: seq<Request>) {
    || r == [FastLogon] || r == [OobCheck, FastLogon]
    || r == [FastLogon, NegotiateTypes, LogonOne] || r == [OobCheck, FastLogon, NegotiateTypes, LogonOne]
    || r == [NegotiateProtocol, NegotiateTypes, LogonOne]
    || r == [OobCheck, NegotiateProtocol, NegotiateTypes, LogonOne]
  }

  /** An opening and then a proof. */
  predicate WholeLogon(r: seq<Request>) {
    r != [] && Opening(r[..|r| - 1]) && r[|r| - 1].LogonTwo?
  }

  /** What was sent after the CONNECTs, by what is waited for. */
  predicate SentFor(stage: Stage, r: seq<Request>) {
    match stage
    case AwaitAccept(_) => r == []
    case AwaitOob => r == [OobCheck]
    case AwaitFast => r == [FastLogon] || r == [OobCheck, FastLogon]
    case AwaitProtocol => r == [NegotiateProtocol] || r == [OobCheck, NegotiateProtocol]
    case AwaitTypes =>
      || r == [NegotiateProtocol, NegotiateTypes] || r == [OobCheck, NegotiateProtocol, NegotiateTypes]
      || r == [FastLogon, NegotiateTypes] || r == [OobCheck, FastLogon, NegotiateTypes]
    case AwaitLogonOne => r != [FastLogon] && r != [OobCheck, FastLogon] && Opening(r)
    case AwaitLogonTwo => WholeLogon(r)
    case Done => WholeLogon(r)
    case Failed => Connect !in r
  }

  /** The requests are `n` times CONNECT and then `r`. */
  ghost predicate Sent(s: Session, n: nat, r: seq<Request>) {
    && s.requests == Connects(n) + r && 1 <= n <= MAX_RESENDS + 1 && SentFor(s.stage, r)
    && (s.stage.AwaitAccept? ==> n == s.stage.resends + 1)
  }

  /** The requests that may be sent on an answer, and what is waited for then. */
  predicate Follows(stage: Stage, q: Request, next: Stage) {
    match stage
    case AwaitAccept(n) =>
      || (q == Connect && next == AwaitAccept(n + 1) && n < MAX_RESENDS)
      || (q == OobCheck && next == AwaitOob)
      || (q == FastLogon && next == AwaitFast) || (q == NegotiateProtocol && next == AwaitProtocol)
    case AwaitOob => (q == FastLogon && next == AwaitFast) || (q == NegotiateProtocol && next == AwaitProtocol)
    case AwaitFast => (q == NegotiateTypes && next == AwaitTypes) || (q.LogonTwo? && next == AwaitLogonTwo)
    case AwaitProtocol => q == NegotiateTypes && next == AwaitTypes
    case AwaitTypes => q == LogonOne && next == AwaitLogonOne
    case AwaitLogonOne => q.LogonTwo? && next == AwaitLogonTwo
    case _ => false
  }

  /** `t` comes after `s` with one more request, or with none. */
  predicate Sends(s: Session, t: Session) {
    || (t.requests == s.requests
        && (t.stage == Failed || (t.stage == Done && s.stage in {Done, AwaitLogonTwo})))
    || (t.requests != [] && t.requests[..|t.requests| - 1] == s.requests
        && Follows(s.stage, t.requests[|t.requests| - 1], t.stage))
  }

  lemma ConnectSends(e: Environment, s: Session, p: seq<byte>, n: nat)
    requires s.stage == AwaitAccept(n) && |p| >= Framing.HEADER_SIZE
    ensures Sends(s, OnConnect(e, s, p, n))
  {
  }

  lemma FastSends(e: Environment, s: Session, p: seq<byte>)
    requires s.stage == AwaitFast && |p| >= Framing.HEADER_SIZE
    ensures Sends(s, OnFast(e, s, p))
  {
    hide FastMessages, ClientProof;
  }

  lemma HandleSends(e: Environment, s: Session, x: Answer)
    ensures Sends(s, Handle(e, s, x))
  {
    hide OnConnect, OnFast, Accepted, ClientProof, Refuses;
    if x.Success? && |x.value| >= Framing.HEADER_SIZE {
      if s.stage.AwaitAccept? {
        ConnectSends(e, s, x.value, s.stage.resends);
      } else if s.stage == AwaitFast {
        FastSends(e, s, x.value);
      }
    }
  }

  /** The requests after the CONNECTs, one further on. */
  lemma SentForNext(stage: Stage, r: seq<Request>, q: Request, next: Stage)
    requires SentFor(stage, r) && Follows(stage, q, next) && q != Connect
    ensures SentFor(next, r + [q])
  {
    assert (r + [q])[..|r|] == r;
  }

  lemma ReactSends(e: Environment, s: Session, x: Event)
    requires Enabled(s, x)
    ensures Sends(s, React(e, s, x))
  {
    hide Handle;
    if x.Reply? {
      HandleSends(e, s, x.answer);
    }
  }

  lemma SentNext(e: Environment, s: Session, x: Event, n: nat, r: seq<Request>) returns (n': nat, r': seq<Request>)
    requires Sent(s, n, r) && Enabled(s, x)
    ensures Sent(React(e, s, x), n', r')
  {
    hide React, SentFor, Follows, Sends;
    var t := React(e, s, x);
    ReactSends(e, s, x);
    n', r' := SendsMore(s, t, n, r);
  }

  lemma SendsMore(s: Session, t: Session, n: nat, r: seq<Request>) returns (n': nat, r': seq<Request>)
    requires Sent(s, n, r) && Sends(s, t)
    ensures Sent(t, n', r')
  {
    hide SentFor, Follows;
    n', r' := n, r;
    if t.requests == s.requests && !(t.requests != [] && t.requests[..|t.requests| - 1] == s.requests) {
      NoConnects(r, s.stage);
      SentForEnd(s.stage, r, t.stage);
    } else {
      var q := t.requests[|t.requests| - 1];
      assert t.requests == s.requests + [q];
      if q == Connect {
        n' := n + 1;
        OneMoreConnect(s.stage, r, t.stage);
        assert Connects(n) + [Connect] == Connects(n + 1);
      } else {
        r' := r + [q];
        SentForNext(s.stage, r, q, t.stage);
        FollowsConnectsNot(s.stage, q, t.stage);
        assert Connects(n) + r + [q] == Connects(n) + r';
      }
    }
  }

  lemma FollowsConnectsNot(stage: Stage, q: Request, next: Stage)
    requires Follows(stage, q, next)
    ensures next.AwaitAccept? ==> q == Connect
  {
  }

  lemma OneMoreConnect(stage: Stage, r: seq<Request>, next: Stage)
    requires SentFor(stage, r) && Follows(stage, Connect, next)
    ensures r == [] && SentFor(next, r) && stage.AwaitAccept? && stage.resends < MAX_RESENDS
    ensures next == AwaitAccept(stage.resends + 1)
  {
  }

  lemma SentForEnd(stage: Stage, r: seq<Request>, next: Stage)
    requires SentFor(stage, r) && Connect !in r
    requires next == Failed || (next == Done && stage in {Done, AwaitLogonTwo})
    ensures SentFor(next, r)
  {
  }

  lemma NoConnects(r: seq<Request>, stage: Stage)
    requires SentFor(stage, r)
    ensures Connect !in r
  {
    if stage in {AwaitLogonTwo, Done} {
      assert r == r[..|r| - 1] + [r[|r| - 1]];
    }
  }

  lemma StartSent()
    ensures Sent(START, 1, [])
  {
    assert Connects(1) + [] == [Connect];
  }

  lemma {:induction false} AlwaysSent(e: Environment, ss: seq<Session>, xs: seq<Event>, i: nat)
    returns (n: nat, r: seq<Request>)
    requires Run(e, ss, xs) && i < |ss|
    ensures Sent(ss[i], n, r)
  {
    hide Sent, React;
    if i == 0 {
      StartSent();
      n, r := 1, [];
    } else {
      n, r := AlwaysSent(e, ss, xs, i - 1);
      n, r := SentNext(e, ss[i - 1], xs[i - 1], n, r);
    }
  }

  /** In every run CONNECT is sent at most four times, and a session that was established sent
      one of six conversations, ending with a proof of the password. */
  lemma RequestsInOrder(e: Environment, ss: seq<Session>, xs: seq<Event>, i: nat) returns (n: nat, r: seq<Request>)
    requires Run(e, ss, xs) && i < |ss|
    ensures ss[i].requests == Connects(n) + r && 1 <= n <= 4 && Connect !in r
    ensures ss[i].stage == Done ==> WholeLogon(r)
  {
    hide Run, SentFor;
    n, r := AlwaysSent(e, ss, xs, i);
    NoConnects(r, ss[i].stage);
    SentForDone(ss[i].stage, r);
  }

  lemma SentForDone(stage: Stage, r: seq<Request>)
    requires SentFor(stage, r)
    ensures stage == Done ==> WholeLogon(r)
  {
  }

  // ---- A closed session stays closed ---------------------------------------------------

  ghost predicate Regular(s: Session) {
    && (s.state == Closed ==> s.stage in {Done, Failed})
    && (s.state == Ready ==> s.stage == Done)
    && (s.stage in {AwaitFast, AwaitLogonOne} ==> s.auth == NEW)
    && (s.stage == AwaitLogonTwo ==> HasKeys(s.auth))
  }

  lemma FastKeepsRegular(e: Environment, s: Session, p: seq<byte>)
    requires s.stage == AwaitFast && Regular(s) && |p| >= Framing.HEADER_SIZE
    ensures Regular(OnFast(e, s, p))
  {
    hide ClientProof, FastMessages, Accepted, HasKeys;
    if |p| >= Framing.HEADER_SIZE + 3 {
      var payload := p[Framing.HEADER_SIZE..];
      FastAnswerPart(e, payload, 2, s.state);
      var end := FastMessages(e, payload, 2, s.state);
      if end.Answered? {
        var q :| 2 <= q < |payload| && Accepted(e.crypto, NEW, payload[..2] + payload[q..]) == Some(end.auth);
        FirstAnswerSuffices(e.crypto, NEW, payload[..2] + payload[q..]);
      }
    }
  }

  lemma LogonOneKeepsRegular(e: Environment, s: Session, p: seq<byte>)
    requires s.stage == AwaitLogonOne && Regular(s) && |p| >= Framing.HEADER_SIZE
    ensures Regular(OnLogonOne(e, s, p))
  {
    hide ClientProof, Accepted, HasKeys;
    if Accepted(e.crypto, NEW, p[Framing.HEADER_SIZE..]).Some? {
      FirstAnswerSuffices(e.crypto, NEW, p[Framing.HEADER_SIZE..]);
    }
  }

  lemma HandleKeepsRegular(e: Environment, s: Session, x: Answer)
    requires Regular(s)
    ensures Regular(Handle(e, s, x))
  {
    hide OnFast, OnLogonOne, OnLogonTwo, OnConnect, OnProtocol, Regular;
    if s.stage in {Failed, Done} || x.Failure? || |x.value| < Framing.HEADER_SIZE {
      EndKeepsRegular(e, s, x);
    } else if s.stage == AwaitFast {
      FastKeepsRegular(e, s, x.value);
    } else if s.stage == AwaitLogonOne {
      LogonOneKeepsRegular(e, s, x.value);
    } else {
      PlainStepKeepsRegular(e, s, x.value);
    }
  }

  lemma EndKeepsRegular(e: Environment, s: Session, x: Answer)
    requires Regular(s) && (s.stage in {Failed, Done} || x.Failure? || |x.value| < Framing.HEADER_SIZE)
    ensures Regular(Handle(e, s, x))
  {
    hide OnFast, OnLogonOne, OnLogonTwo, OnConnect, OnProtocol, OnTypes, HasKeys;
  }

  lemma PlainStepKeepsRegular(e: Environment, s: Session, p: seq<byte>)
    requires Regular(s) && s.stage !in {Failed, Done, AwaitFast, AwaitLogonOne} && |p| >= Framing.HEADER_SIZE
    ensures Regular(Handle(e, s, Success(p)))
  {
    hide OnFast, OnLogonOne, Accepted, HasKeys, Refuses;
  }

  lemma ReactKeepsRegular(e: Environment, s: Session, x: Event)
    requires Regular(s) && Enabled(s, x)
    ensures Regular(React(e, s, x))
  {
    hide Handle, HasKeys;
    if x.Reply? {
      HandleKeepsRegular(e, s, x.answer);
    }
  }

  /** A first answer found in a fast one is the rest of it from some message on, behind the two
      flag bytes. */
  lemma {:induction false} FastAnswerPart(e: Environment, s: seq<byte>, p: nat, state: ConnectionState)
    requires |s| >= 2
    ensures var end := FastMessages(e, s, p, state);
      && end.state in {state, ProtocolNegotiated, DataTypesNegotiated}
      && (end.Answered? ==> exists q :: p <= q < |s| && Accepted(e.crypto, NEW, s[..2] + s[q..]) == Some(end.auth))
    decreases |s| - p
  {
    hide Accepted;
    if p < |s| && s[p] == PROTOCOL && e.protocolLength(s[p..]).Some? {
      var n := e.protocolLength(s[p..]).value;
      if 0 < n <= |s| - p {
        FastAnswerPart(e, s, p + n, ProtocolNegotiated);
      }
    } else if p < |s| && s[p] == DATA_TYPES && e.typesLength(s[p..]).Some? {
      var n := e.typesLength(s[p..]).value;
      if 0 < n <= |s| - p {
        FastAnswerPart(e, s, p + n, DataTypesNegotiated);
      }
    }
  }

  lemma StartRegular()
    ensures Regular(START)
  {
    hide HasKeys;
  }

  lemma {:induction false} AlwaysRegular(e: Environment, ss: seq<Session>, xs: seq<Event>, i: nat)
    requires Run(e, ss, xs) && i < |ss|
    ensures Regular(ss[i])
  {
    hide Regular, React;
    if i > 0 {
      AlwaysRegular(e, ss, xs, i - 1);
      ReactKeepsRegular(e, ss[i - 1], xs[i - 1]);
    } else {
      StartRegular();
    }
  }

  /** Closed is never left. */
  lemma {:induction false} ClosedForGood(e: Environment, ss: seq<Session>, xs: seq<Event>, i: nat, j: nat)
    requires Run(e, ss, xs) && i <= j < |ss| && ss[i].state == Closed
    ensures ss[j].state == Closed
    decreases j
  {
    hide React, Regular;
    if i < j {
      ClosedForGood(e, ss, xs, i, j - 1);
      AlwaysRegular(e, ss, xs, j - 1);
      ClosedStep(e, ss[j - 1], xs[j - 1]);
    }
  }

  lemma ClosedStep(e: Environment, s: Session, x: Event)
    requires Regular(s) && s.state == Closed
    ensures React(e, s, x).state == Closed
  {
    hide OnConnect, OnProtocol, OnTypes, OnFast, OnLogonOne, OnLogonTwo;
  }

  // ---- Ready means logged on -----------------------------------------------------------

  /** `p` holds a first answer that is accepted and leads to `auth`. */
  ghost predicate FirstAccepted(e: Environment, p: seq<byte>, auth: Auth) {
    |p| >= 10 && exists q :: 10 <= q <= |p| && Accepted(e.crypto, NEW, p[8..10] + p[q..]) == Some(auth)
  }

  /** `p` is a second answer whose entries can be read and in which the server proves itself, if
      it gives a proof. */
  ghost predicate SecondAccepted(e: Environment, auth: Auth, p: seq<byte>) {
    && |p| > Framing.HEADER_SIZE && p[4] != Framing.MARKER && !Refuses(p)
    && var es := AnswerEntries(p[Framing.HEADER_SIZE..]);
       es.Some? && ServerProof(e.crypto, es.value.pairs,
                               if es.value.verifier != 0 then es.value.verifier else auth.verifier, auth.comboKey)
  }

  /** The two answers at `k` and `k + 1` log the client on. */
  ghost predicate LoggedOn(e: Environment, ss: seq<Session>, xs: seq<Event>, k: nat)
    requires |ss| == |xs| + 1
  {
    && k + 1 < |xs| && GotAnswer(xs[k]) && GotAnswer(xs[k + 1])
    && ss[k].stage in {AwaitFast, AwaitLogonOne} && ss[k + 1].stage == AwaitLogonTwo
    && FirstAccepted(e, xs[k].answer.value, ss[k + 1].auth)
    && SecondAccepted(e, ss[k + 1].auth, xs[k + 1].answer.value)
  }

  predicate GotAnswer(x: Event) {
    x.Reply? && x.answer.Success?
  }

  /** The stream broke, or the session was closed. */
  predicate Breaks(x: Event) {
    x == Close || (x.answer.Failure? && x.answer.error in {Io, ClosedDuringRecovery})
  }

  /** Only an accepted second answer makes a session ready. */
  lemma BecomesReady(e: Environment, s: Session, x: Event)
    requires Regular(s) && s.state != Ready && Enabled(s, x)
    ensures React(e, s, x).state == Ready
       <==> s.stage == AwaitLogonTwo && GotAnswer(x) && SecondAccepted(e, s.auth, x.answer.value)
  {
    hide Handle, SecondAccepted;
    if x.Reply? {
      AnswerMakesReady(e, s, x.answer);
    }
  }

  lemma AnswerMakesReady(e: Environment, s: Session, x: Answer)
    requires Regular(s) && s.state != Ready
    ensures Handle(e, s, x).state == Ready
       <==> s.stage == AwaitLogonTwo && x.Success? && SecondAccepted(e, s.auth, x.value)
  {
    hide AnswerEntries, ServerProof, ClientProof, KeysFrom, FastMessages;
    if s.stage == AwaitFast && x.Success? && |x.value| >= Framing.HEADER_SIZE + 3 {
      FastAnswerPart(e, x.value[Framing.HEADER_SIZE..], 2, s.state);
    }
  }

  /** The second phase is entered from the first alone, by an accepted answer. */
  lemma EntersPhaseTwo(e: Environment, s: Session, x: Answer)
    requires Regular(s) && Handle(e, s, x).stage == AwaitLogonTwo
    ensures s.stage in {AwaitFast, AwaitLogonOne} && x.Success? && FirstAccepted(e, x.value, Handle(e, s, x).auth)
  {
    hide ClientProof, HasKeys, FastMessages, Accepted;
    var p := x.value;
    if s.stage == AwaitFast {
      var payload := p[Framing.HEADER_SIZE..];
      FastAnswerPart(e, payload, 2, s.state);
      var auth := FastMessages(e, payload, 2, s.state).auth;
      var q :| 2 <= q < |payload| && Accepted(e.crypto, NEW, payload[..2] + payload[q..]) == Some(auth);
      assert payload[..2] == p[8..10] && payload[q..] == p[q + 8..];
    } else {
      LongEnough(e, p[Framing.HEADER_SIZE..]);
      assert p[8..10] + p[10..] == p[Framing.HEADER_SIZE..];
    }
  }

  lemma LongEnough(e: Environment, payload: seq<byte>)
    requires Accepted(e.crypto, NEW, payload).Some?
    ensures |payload| >= 3
  {
    hide KeysFrom;
  }

  lemma StaysReady(e: Environment, s: Session, x: Event)
    requires Regular(s) && s.state == Ready
    ensures React(e, s, x).state == Ready <==> !Breaks(x)
  {
  }

  lemma PhaseTwoEntered(e: Environment, s: Session, x: Event)
    requires Regular(s) && Enabled(s, x) && React(e, s, x).stage == AwaitLogonTwo
    ensures s.stage in {AwaitFast, AwaitLogonOne} && GotAnswer(x) && FirstAccepted(e, x.answer.value, React(e, s, x).auth)
  {
    hide Handle, FirstAccepted, HasKeys;
    EntersPhaseTwo(e, s, x.answer);
  }

  lemma {:induction false} LoggedOnIsReady(e: Environment, ss: seq<Session>, xs: seq<Event>, i: nat, k: nat)
    requires Run(e, ss, xs) && k + 2 <= i < |ss| && LoggedOn(e, ss, xs, k)
    requires forall j | k + 2 <= j < i :: !Breaks(xs[j])
    ensures ss[i].state == Ready
    decreases i
  {
    hide React, Regular, SecondAccepted, FirstAccepted, Breaks;
    AlwaysRegular(e, ss, xs, i - 1);
    if i == k + 2 {
      NotYetReady(ss[k + 1]);
      BecomesReady(e, ss[k + 1], xs[k + 1]);
    } else {
      LoggedOnIsReady(e, ss, xs, i - 1, k);
      StaysReady(e, ss[i - 1], xs[i - 1]);
    }
  }

  lemma NotYetReady(s: Session)
    requires Regular(s) && s.stage != Done
    ensures s.state != Ready
  {
  }

  lemma {:induction false} ReadyWasLoggedOn(e: Environment, ss: seq<Session>, xs: seq<Event>, i: nat) returns (k: nat)
    requires Run(e, ss, xs) && i < |ss| && ss[i].state == Ready
    ensures k + 2 <= i && LoggedOn(e, ss, xs, k) && forall j | k + 2 <= j < i :: !Breaks(xs[j])
  {
    hide React, Regular, SecondAccepted, FirstAccepted, Breaks;
    AlwaysRegular(e, ss, xs, i - 1);
    if ss[i - 1].state == Ready {
      k := ReadyWasLoggedOn(e, ss, xs, i - 1);
      StaysReady(e, ss[i - 1], xs[i - 1]);
    } else {
      BecomesReady(e, ss[i - 1], xs[i - 1]);
      k := i - 2;
      AlwaysRegular(e, ss, xs, k);
      PhaseTwoEntered(e, ss[k], xs[k]);
    }
  }

  /** In every run the session is ready exactly if two answers in a row were accepted, the first
      one in the first phase and the second one with the server's proof checked under the keys of
      the first, and since then neither the stream has broken nor the session been closed. */
  lemma ReadyExactlyIfLoggedOn(e: Environment, ss: seq<Session>, xs: seq<Event>, i: nat)
    requires Run(e, ss, xs) && i < |ss|
    ensures ss[i].state == Ready <==>
      exists k: nat :: k + 2 <= i && LoggedOn(e, ss, xs, k) && forall j | k + 2 <= j < i :: !Breaks(xs[j])
  {
    hide LoggedOn, Breaks, React;
    if ss[i].state == Ready {
      var k := ReadyWasLoggedOn(e, ss, xs, i);
    }
    forall k: nat | k + 2 <= i && LoggedOn(e, ss, xs, k) && forall j | k + 2 <= j < i :: !Breaks(xs[j])
      ensures ss[i].state == Ready
    {
      LoggedOnIsReady(e, ss, xs, i, k);
    }
  }

  // ---- Resends -------------------------------------------------------------------------

  predicate IsResend(x: Event) {
    GotAnswer(x) && |x.answer.value| >= Framing.HEADER_SIZE && x.answer.value[4] == RESEND
  }

  /** Three requests to resend are followed, the fourth ends the handshake. */
  lemma {:induction false} ResendsFollowed(e: Environment, ss: seq<Session>, xs: seq<Event>, i: nat)
    requires Run(e, ss, xs) && i < |ss| && forall j | 0 <= j < i :: IsResend(xs[j])
    ensures ss[i].stage == if i <= MAX_RESENDS then AwaitAccept(i) else Failed
    ensures ss[i].requests == Connects(if i <= MAX_RESENDS then i + 1 else MAX_RESENDS + 1)
  {
    hide OnFast, OnLogonOne, OnLogonTwo, OnTypes, OnProtocol;
    if i > 0 {
      ResendsFollowed(e, ss, xs, i - 1);
      assert IsResend(xs[i - 1]) && ss[i - 1 + 1] == React(e, ss[i - 1], xs[i - 1]);
      assert Connects(i) + [Connect] == Connects(i + 1);
    } else {
      assert Connects(1) == [Connect];
    }
  }

  // ---- The machine on a stream ---------------------------------------------------------

  function Rank(stage: Stage): nat {
    match stage
    case AwaitAccept(n) => if n <= MAX_RESENDS then 10 + MAX_RESENDS - n else 10
    case AwaitOob => 9
    case AwaitFast => 8
    case AwaitProtocol => 7
    case AwaitTypes => 6
    case AwaitLogonOne => 5
    case AwaitLogonTwo => 4
    case Done => 0
    case Failed => 0
  }

  predicate Over(s: Session) {
    s.stage == Done || s.stage == Failed
  }

  lemma RankFalls(e: Environment, s: Session, x: Answer)
    requires !Over(s)
    ensures Rank(Handle(e, s, x).stage) < Rank(s.stage)
  {
    hide Handle;
    HandleSends(e, s, x);
  }

  /** The next answer: a whole response where one is asked for, a packet elsewhere. */
  function NextAnswer(s: Session, stream: seq<byte>): (Answer, seq<byte>) {
    if s.stage == AwaitFast || s.stage == AwaitLogonTwo then
      var a := Response(stream, s.large);
      (a.result, a.rest)
    else
      match Framing.Next(stream, s.large)
      case Packet(p, rest) => (Success(p), rest)
      case Broken => (Failure(Io), [])
  }

  /** The handshake on what the server sends: where it ends, and what is left of the stream. */
  function Drive(e: Environment, s: Session, stream: seq<byte>): (Session, seq<byte>)
    decreases Rank(s.stage)
  {
    if Over(s) then (s, stream)
    else
      var (x, rest) := NextAnswer(s, stream);
      RankFalls(e, s, x);
      Drive(e, Handle(e, s, x), rest)
  }

  /** A run from `s` on to the end of the handshake and no further. */
  ghost predicate WholeRun(e: Environment, s: Session, ss: seq<Session>, xs: seq<Event>) {
    && |ss| == |xs| + 1 && ss[0] == s && Over(ss[|xs|])
    && forall i | 0 <= i < |xs| :: !Over(ss[i]) && xs[i].Reply? && ss[i + 1] == React(e, ss[i], xs[i])
  }

  /** What happens on a stream is a run of the machine. */
  lemma {:induction false} DriveIsRun(e: Environment, s: Session, stream: seq<byte>)
    returns (ss: seq<Session>, xs: seq<Event>)
    ensures WholeRun(e, s, ss, xs) && ss[|xs|] == Drive(e, s, stream).0
    decreases Rank(s.stage)
  {
    hide Handle, NextAnswer;
    if Over(s) {
      ss, xs := [s], [];
    } else {
      var (x, rest) := NextAnswer(s, stream);
      RankFalls(e, s, x);
      ss, xs := DriveIsRun(e, Handle(e, s, x), rest);
      ss, xs := [s] + ss, [Reply(x)] + xs;
    }
  }

  lemma DoneIsReady(e: Environment, s: Session, x: Answer)
    requires !Over(s) && Handle(e, s, x).stage == Done
    ensures Handle(e, s, x).state == Ready
  {
    hide FastMessages, Accepted, ClientProof, Refuses;
  }

  lemma ReadyIsOver(s: Session)
    requires Regular(s) && s.state == Ready
    ensures s.stage == Done
  {
  }

  /** Whatever the server sends, the handshake ends, ready or failed; and it ends ready exactly if
      its last two answers log the client on. */
  lemma StreamsAreSafe(e: Environment, stream: seq<byte>) returns (ss: seq<Session>, xs: seq<Event>)
    ensures Run(e, ss, xs) && ss[|xs|] == Drive(e, START, stream).0
    ensures var end := Drive(e, START, stream).0;
      && (if end.state == Ready then end.stage == Done else end.stage == Failed)
      && (end.state == Ready <==> |xs| >= 2 && LoggedOn(e, ss, xs, |xs| - 2))
  {
    hide Handle, LoggedOn, Drive, Regular;
    ss, xs := DriveIsRun(e, START, stream);
    var n := |xs|;
    AlwaysRegular(e, ss, xs, n);
    if ss[n].stage == Done {
      DoneIsReady(e, ss[n - 1], xs[n - 1].answer);
    }
    if ss[n].state == Ready {
      ReadyIsOver(ss[n]);
      var k := ReadyWasLoggedOn(e, ss, xs, n);
      LoggedOnIsReady(e, ss, xs, k + 2, k);
      AlwaysRegular(e, ss, xs, k + 2);
      ReadyIsOver(ss[k + 2]);
    } else if n >= 2 && LoggedOn(e, ss, xs, n - 2) {
      LoggedOnIsReady(e, ss, xs, n, n - 2);
    }
  }
}

/** The handshake as it is written: one method for each step, each of which sends a request and
    waits for its answer, and gives up at the first failure. */
module HandshakeCode {
  import opened Bytes
  import opened Messages
  import Framing
  import opened Handshake
  import opened Logon
  import opened LogonMessages
  import opened ReadBuffers
  import Recovery
  import opened Transport
  import opened Wrappers

  const FUNCTION: byte := 3
  const LOGOFF: byte := 9
  /** The field version from which a function message ends in a token number. */
  const TOKEN_VERSION: byte := 18

  /** The request to end the session. */
  function LogoffPacket(number: byte, fieldVersion: byte, large: bool): seq<byte> {
    Framing.DataPacket(Framing.END_OF_REQUEST,
                       [FUNCTION, LOGOFF, number] + (if fieldVersion >= TOKEN_VERSION then [0] else []), large)
  }

  /** The machine goes on by its next answer, and ends where it is over. */
  lemma DriveStep(e: Environment, s: Session, stream: seq<byte>)
    ensures Drive(e, s, stream) ==
      if Over(s) then (s, stream)
      else var (x, rest) := NextAnswer(s, stream); Drive(e, Handle(e, s, x), rest)
  {
    hide Handle, NextAnswer;
  }

  class Client {
    const env: Environment
    const conn: Connection
    var requests: seq<Request>
    var protocolVersion: u16
    var supportsOob: bool
    var supportsFastAuth: bool
    var comboKey: Option<seq<byte>>
    var sequenceNumber: byte
    /** Whether the program has closed the session. */
    var closed: bool

    constructor (env: Environment, incoming: seq<byte>)
      ensures this.env == env && fresh(conn) && conn.open && conn.incoming == incoming && !closed
      ensures requests == [] && At(AwaitAccept(0), NEW) == START.(requests := [])
    {
      this.env := env;
      conn := new Connection(incoming, 8192, false);
      requests := [];
      protocolVersion, supportsOob, supportsFastAuth := 0, false, false;
      comboKey, sequenceNumber, closed := None, 0, false;
    }

    /** The machine's session, given what is waited for and how far the logon is. */
    ghost function At(stage: Stage, auth: Auth): Session
      reads this, conn
    {
      Session(conn.state, stage, auth, requests, conn.largeSdu, conn.sduSize, supportsFastAuth)
    }

    /** Where the machine starts to negotiate, which a step has come to. */
    ghost function Between(): Session
      reads this, conn
    {
      At(Failed, NEW)
    }

    /** The step went as the machine goes on from `before`: to a failure, or on to `then'`. */
    ghost predicate Goes(ok: bool, before: (Session, seq<byte>), then': Session, auth: Auth)
      reads this, conn
    {
      before == if ok then Drive(env, then', conn.incoming) else (At(Failed, auth), conn.incoming)
    }

    method Send(q: Request)
      modifies this`requests
      ensures requests == old(requests) + [q]
    {
      requests := requests + [q];
    }

    /** Waits for the one packet that answers a request. */
    method AwaitPacket(ghost stage: Stage) returns (response: Result<seq<byte>, Recovery.TransportError>)
      requires conn.open && stage !in {AwaitFast, AwaitLogonTwo, Done, Failed}
      modifies conn`incoming, conn`state
      ensures response.Success? ==> |response.value| >= Framing.HEADER_SIZE
      ensures conn.state == Settled(old(conn.state), response)
      ensures old(Drive(env, At(stage, NEW), conn.incoming)) ==
        if response.Failure? then (At(Failed, NEW), conn.incoming)
        else Drive(env, Handle(env, At(stage, NEW), response), conn.incoming)
    {
      hide Drive, NextAnswer, OnConnect, OnProtocol, OnTypes, OnLogonOne;
      ghost var s, stream := At(stage, NEW), conn.incoming;
      response := conn.Receive();
      DriveStep(env, s, stream);
      NextPacket(s, stream);
      DriveStep(env, At(Failed, NEW), conn.incoming);
    }

    /** Waits for a whole response. */
    method AwaitResponse(ghost stage: Stage, ghost auth: Auth)
      returns (response: Result<seq<byte>, Recovery.TransportError>)
      requires conn.open && stage in {AwaitFast, AwaitLogonTwo}
      modifies conn`incoming, conn`state
      ensures conn.state == Settled(old(conn.state), response)
      ensures old(Drive(env, At(stage, auth), conn.incoming)) ==
        if response.Failure? then (At(Failed, auth), conn.incoming)
        else Drive(env, Handle(env, At(stage, auth), response), conn.incoming)
    {
      hide Drive, NextAnswer, OnFast, OnLogonTwo, Recovery.Response;
      ghost var s, stream := At(stage, auth), conn.incoming;
      response := conn.ReceiveResponse();
      DriveStep(env, s, stream);
      NextResponse(s, stream);
      DriveStep(env, At(Failed, auth), conn.incoming);
    }

    method SendConnectPacket() returns (ok: bool)
      requires conn.open
      modifies this, conn
      ensures conn.open
      ensures Goes(ok, old(Drive(env, Enter(Between(), AwaitAccept(0), Connect), conn.incoming)),
                   AfterAccept(Between(), protocolVersion, supportsOob), NEW)
    {
      hide Drive, NextAnswer;
      ghost var goal := Drive(env, Enter(Between(), AwaitAccept(0), Connect), conn.incoming);
      Send(Connect);
      var resendCount := 0;
      while true
        invariant conn.open && resendCount <= MAX_RESENDS
        invariant Drive(env, At(AwaitAccept(resendCount), NEW), conn.incoming) == goal
        decreases MAX_RESENDS - resendCount
      {
        var response := AwaitPacket(AwaitAccept(resendCount));
        if response.Failure? {
          return false;
        }
        var kind := response.value[4];
        match kind {
          case 2 =>
            ok := TakeTerms(response.value);
            DriveStep(env, At(Failed, NEW), conn.incoming);
            return;
          case 11 =>
            resendCount := resendCount + 1;
            if resendCount > MAX_RESENDS {
              DriveStep(env, At(Failed, NEW), conn.incoming);
              return false;
            }
            Send(Connect);
          case _ =>
            DriveStep(env, At(Failed, NEW), conn.incoming);
            return false;
        }
      }
    }

    /** What an ACCEPT packet says goes into the connection. */
    method TakeTerms(packet: seq<byte>) returns (ok: bool)
      requires |packet| >= Framing.HEADER_SIZE && packet[4] == ACCEPT
      modifies this, conn`state, conn`largeSdu, conn`sduSize
      ensures requests == old(requests)
      ensures forall n: nat ::
        OnConnect(env, old(At(AwaitAccept(n), NEW)), packet, n)
          == (if ok then AfterAccept(At(AwaitAccept(n), NEW), protocolVersion, supportsOob) else At(Failed, NEW))
    {
      var terms := env.terms(packet);
      if terms.None? {
        return false;
      }
      conn.largeSdu := terms.value.version >= MIN_LARGE_SDU;
      protocolVersion := terms.value.version;
      supportsOob := terms.value.oob;
      conn.sduSize := if terms.value.sdu < 65535 then terms.value.sdu else 65535;
      supportsFastAuth := terms.value.fastAuth;
      conn.state := Connected;
      return true;
    }

    method SendOobCheck() returns (ok: bool)
      requires conn.open
      modifies this, conn
      ensures conn.open
      ensures Goes(ok, old(Drive(env, Enter(Between(), AwaitOob, OobCheck), conn.incoming)), Negotiate(Between()), NEW)
      ensures supportsFastAuth == old(supportsFastAuth)
    {
      hide Drive, NextAnswer;
      Send(OobCheck);
      var response := AwaitPacket(AwaitOob);
      if response.Failure? {
        return false;
      }
      return true;
    }

    method NegotiateProtocol() returns (ok: bool)
      requires conn.open
      modifies this, conn
      ensures conn.open
      ensures Goes(ok, old(Drive(env, Enter(Between(), AwaitProtocol, Request.NegotiateProtocol), conn.incoming)),
                   Enter(Between(), AwaitTypes, NegotiateTypes), NEW)
    {
      hide Drive, NextAnswer;
      Send(Request.NegotiateProtocol);
      var response := AwaitPacket(AwaitProtocol);
      DriveStep(env, At(Failed, NEW), conn.incoming);
      if response.Failure? || response.value[4] != Framing.DATA {
        return false;
      }
      var payload := response.value[Framing.HEADER_SIZE..];
      if |payload| < 2 || env.protocolLength(payload[2..]).None? {
        return false;
      }
      conn.state := ProtocolNegotiated;
      return true;
    }

    method NegotiateDataTypes() returns (ok: bool)
      requires conn.open
      modifies this, conn
      ensures conn.open
      ensures Goes(ok, old(Drive(env, Enter(Between(), AwaitTypes, NegotiateTypes), conn.incoming)),
                   StartLogon(Between()), NEW)
    {
      hide Drive, NextAnswer;
      Send(NegotiateTypes);
      var response := AwaitPacket(AwaitTypes);
      DriveStep(env, At(Failed, NEW), conn.incoming);
      if response.Failure? || response.value[4] != Framing.DATA {
        return false;
      }
      conn.state := DataTypesNegotiated;
      return true;
    }

    /** The second phase, on a logon that may be in it; on another there is nothing to do. */
    method AuthenticatePhaseTwo(auth: AuthMessage) returns (ok: bool, ghost last: Auth)
      requires conn.open
      modifies this, conn, auth
      ensures conn.open
      ensures old(auth.phase) == Two ==>
        old(Drive(env, StartPhaseTwo(env, At(Failed, auth.Value())), conn.incoming))
          == (if ok then At(Done, last).(state := Ready) else At(Failed, last), conn.incoming)
      ensures old(auth.phase) == Two && ok ==> auth.phase == Complete && auth.Value() == last
      ensures old(auth.phase) != Two ==>
        ok && auth.Value() == last == old(auth.Value()) && conn.incoming == old(conn.incoming)
        && forall stage, a :: At(stage, a) == old(At(stage, a))
    {
      hide Drive, NextAnswer, ClientProof, Accepted, Recovery.Response, AnswerEntries;
      last := auth.Value();
      if auth.phase != Two {
        return true, last;
      }
      var proof := auth.BuildPhaseTwo(env.crypto);
      DriveStep(env, At(Failed, last), conn.incoming);
      if proof.None? {
        return false, last;
      }
      Send(LogonTwo(proof.value));
      var response := AwaitResponse(AwaitLogonTwo, last);
      DriveStep(env, At(Failed, last), conn.incoming);
      if response.Failure? || |response.value| <= Framing.HEADER_SIZE {
        return false, last;
      }
      if response.value[4] == Framing.MARKER {
        return false, last;
      }
      if |response.value| > Framing.HEADER_SIZE + 2 {
        if response.value[Framing.HEADER_SIZE + 2] == ERROR {
          return false, last;
        }
      }
      AcceptedPhases(env.crypto, last, response.value[Framing.HEADER_SIZE..]);
      ok := auth.ParseResponse(env.crypto, response.value[Framing.HEADER_SIZE..]);
      if ok {
        last := auth.Value();
        DriveStep(env, At(Done, last).(state := Ready), conn.incoming);
      }
    }

    method FinishAuthentication(auth: AuthMessage) returns (ok: bool)
      modifies this`comboKey, this`sequenceNumber, conn`state
      ensures ok == auth.IsComplete()
      ensures conn.state == if ok then Ready else old(conn.state)
      ensures sequenceNumber == if ok then 2 else old(sequenceNumber)
      ensures comboKey == if ok && auth.comboKey.Some? then auth.comboKey else old(comboKey)
    {
      if !auth.IsComplete() {
        return false;
      }
      if auth.comboKey.Some? {
        comboKey := auth.comboKey;
      }
      sequenceNumber := 2;
      conn.state := Ready;
      return true;
    }

    method Authenticate() returns (ok: bool, ghost last: Auth)
      requires conn.open
      modifies this, conn
      ensures old(Drive(env, StartLogon(Between()), conn.incoming))
           == (At(if ok then Done else Failed, last), conn.incoming)
      ensures ok ==> conn.state == Ready
    {
      hide Drive, NextAnswer, ClientProof, Accepted, AnswerEntries;
      var auth := new AuthMessage();
      last := NEW;
      Send(LogonOne);
      var response := AwaitPacket(AwaitLogonOne);
      DriveStep(env, At(Failed, NEW), conn.incoming);
      if response.Failure? || |response.value| <= Framing.HEADER_SIZE {
        return false, last;
      }
      if |response.value| > Framing.HEADER_SIZE + 2 {
        if response.value[Framing.HEADER_SIZE + 2] == ERROR {
          return false, last;
        }
      }
      AcceptedPhases(env.crypto, NEW, response.value[Framing.HEADER_SIZE..]);
      ok := auth.ParseResponse(env.crypto, response.value[Framing.HEADER_SIZE..]);
      if ok {
        ok, last := AuthenticatePhaseTwo(auth);
        if ok {
          ok := FinishAuthentication(auth);
        }
      }
    }

    /** The messages of a fast answer: the states they lead to are entered on the way. */
    method ReadFastAnswer(payload: seq<byte>, auth: AuthMessage) returns (renegotiate: bool, answered: bool)
      requires |payload| >= 3 && auth.Value() == NEW
      modifies conn`state, auth
      ensures match FastMessages(env, payload, 2, old(conn.state))
        case Renegotiates(state) => renegotiate && conn.state == state
        case Answered(state, a) => !renegotiate && answered && conn.state == state && auth.Value() == a
        case Nothing(state) => !renegotiate && !answered && conn.state == state
    {
      hide Accepted, AnswerEntries;
      var buf := new ReadBuffer(payload);
      var _ := buf.SkipBytes(2);
      renegotiate, answered := false, false;
      while buf.Remaining() > 0
        invariant buf.Valid() && fresh(buf) && buf.data == payload && auth.Value() == NEW && buf.pos >= 2
        invariant FastMessages(env, payload, buf.pos, conn.state) == FastMessages(env, payload, 2, old(conn.state))
        invariant !renegotiate && !answered
        decreases |payload| - buf.pos
      {
        var kind := payload[buf.pos];
        if kind == PROTOCOL {
          var length := env.protocolLength(buf.RemainingBytes());
          if length.None? || !(0 < length.value <= buf.Remaining()) {
            return false, false;
          }
          var _ := buf.SkipBytes(length.value);
          conn.state := ProtocolNegotiated;
        } else if kind == DATA_TYPES {
          var length := env.typesLength(buf.RemainingBytes());
          if length.None? || !(0 < length.value <= buf.Remaining()) {
            return false, false;
          }
          var _ := buf.SkipBytes(length.value);
          conn.state := DataTypesNegotiated;
        } else if kind == RENEGOTIATE {
          return true, false;
        } else if kind == PARAMETER || kind == ERROR {
          var ok := auth.ParseResponse(env.crypto, payload[..2] + buf.RemainingBytes());
          return false, ok;
        } else {
          return false, false;
        }
      }
    }

    /** Logon in one round trip; without a logon, the server asked to negotiate again. */
    method AuthenticateWithFastAuth() returns (r: Option<bool>, ghost last: Auth)
      requires conn.open
      modifies this, conn
      ensures conn.open
      ensures old(Drive(env, Enter(Between(), AwaitFast, FastLogon), conn.incoming)) == match r
        case Some(true) => (At(Done, last), conn.incoming)
        case Some(false) => Drive(env, Enter(Between(), AwaitTypes, NegotiateTypes), conn.incoming)
        case None => (At(Failed, last), conn.incoming)
      ensures r == Some(true) ==> conn.state == Ready
    {
      hide Drive, NextAnswer, ClientProof, Accepted, AnswerEntries, FastMessages, Recovery.Response;
      var auth := new AuthMessage();
      last := NEW;
      Send(FastLogon);
      var response := AwaitResponse(AwaitFast, NEW);
      DriveStep(env, At(Failed, NEW), conn.incoming);
      if response.Failure? || |response.value| <= Framing.HEADER_SIZE {
        return None, last;
      }
      var payload := response.value[Framing.HEADER_SIZE..];
      if |payload| < 3 {
        return None, last;
      }
      var renegotiate, answered := ReadFastAnswer(payload, auth);
      DriveStep(env, At(Failed, NEW), conn.incoming);
      if renegotiate {
        return Some(false), last;
      }
      if !answered || auth.phase != Two {
        return None, last;
      }
      var ok;
      ok, last := AuthenticatePhaseTwo(auth);
      if ok {
        ok := FinishAuthentication(auth);
        return Some(true), last;
      }
      return None, last;
    }

    /** The whole handshake on a new connection: it ends as the machine does. */
    method PerformHandshake() returns (ok: bool, ghost last: Auth)
      requires conn.open && At(AwaitAccept(0), NEW) == START.(requests := [])
      modifies this, conn
      ensures (At(if ok then Done else Failed, last), conn.incoming) == Drive(env, START, old(conn.incoming))
      ensures ok <==> conn.state == Ready
    {
      hide Drive, StartPhaseTwo;
      last := NEW;
      assert Enter(Between(), AwaitAccept(0), Connect) == START;
      ok := SendConnectPacket();
      if ok {
        if protocolVersion >= MIN_OOB_CHECK && supportsOob {
          ok := SendOobCheck();
        }
      }
      if ok {
        ok, last := NegotiateAndLogOn();
      }
      EndsReady(env, START, old(conn.incoming));
    }

    /** Sequence numbers go round without zero. */
    method NextSequenceNumber() returns (n: byte)
      modifies this`sequenceNumber
      ensures n == sequenceNumber == old(sequenceNumber) % 255 + 1
    {
      sequenceNumber := if sequenceNumber == 255 then 0 else sequenceNumber + 1;
      if sequenceNumber == 0 {
        sequenceNumber := 1;
      }
      return sequenceNumber;
    }

    /** Asks the server to end the session and waits for one packet, whatever it says. */
    method SendLogoff(fieldVersion: byte)
      modifies this`sequenceNumber, conn
      ensures conn.open == old(conn.open) && conn.largeSdu == old(conn.largeSdu) && conn.sduSize == old(conn.sduSize)
      ensures conn.sent == if conn.open
        then old(conn.sent) + LogoffPacket(old(sequenceNumber) % 255 + 1, fieldVersion, conn.largeSdu)
        else old(conn.sent)
    {
      var number := NextSequenceNumber();
      var message := [FUNCTION, LOGOFF, number];
      if fieldVersion >= TOKEN_VERSION {
        message := message + [0];
      }
      var packet := BuildPacket(Framing.END_OF_REQUEST, message, conn.largeSdu);
      var sending := conn.Send(packet);
      if sending.Success? {
        var _ := conn.Receive();
      }
    }

    /** Closes the session once: a ready one is logged off first. The machine closes too. */
    method Close(fieldVersion: byte)
      modifies this`closed, this`sequenceNumber, conn
      ensures closed
      ensures old(closed) ==>
        conn.open == old(conn.open) && conn.incoming == old(conn.incoming) &&
        conn.sent == old(conn.sent) && conn.state == old(conn.state)
      ensures !old(closed) ==>
        !conn.open && (forall stage, auth :: At(stage, auth) == React(env, old(At(stage, auth)), Event.Close))
      ensures !old(closed) ==> conn.sent == if old(conn.open && conn.state == Ready)
        then old(conn.sent) + LogoffPacket(old(sequenceNumber) % 255 + 1, fieldVersion, conn.largeSdu)
        else old(conn.sent)
    {
      if closed {
        return;
      }
      closed := true;
      if conn.state == Ready {
        SendLogoff(fieldVersion);
      }
      conn.state := Closed;
      conn.open := false;
    }

    /** The rest of the handshake, in the way the server supports. */
    method NegotiateAndLogOn() returns (ok: bool, ghost last: Auth)
      requires conn.open
      modifies this, conn
      ensures old(Drive(env, Negotiate(Between()), conn.incoming))
           == (At(if ok then Done else Failed, last), conn.incoming)
    {
      hide Drive, StartPhaseTwo;
      last := NEW;
      if supportsFastAuth {
        var done;
        done, last := AuthenticateWithFastAuth();
        if done == Some(true) {
          return true, last;
        } else if done.None? {
          return false, last;
        }
        last := NEW;
      } else {
        ok := NegotiateProtocol();
        if !ok {
          return;
        }
      }
      ok := NegotiateDataTypes();
      if !ok {
        return;
      }
      ok, last := Authenticate();
    }
  }

  /** The handshake ends ready exactly if it is done. */
  lemma EndsReady(e: Environment, s: Session, stream: seq<byte>)
    requires s == START
    ensures var end := Drive(e, s, stream).0; end.stage == Done <==> end.state == Ready
  {
    hide Handle, Drive, LoggedOn;
    var ss, xs := StreamsAreSafe(e, stream);
  }

  /** The phase an accepted answer leads to. */
  lemma AcceptedPhases(c: Crypto, a: Auth, payload: seq<byte>)
    ensures var t := Accepted(c, a, payload);
      t.Some? ==> AnswerEntries(payload).Some? && t.value.phase == if a.phase == One then Two else Complete
  {
    hide AnswerEntries, KeysFrom, ServerProof;
  }

  lemma NextPacket(s: Session, stream: seq<byte>)
    requires s.stage != AwaitFast && s.stage != AwaitLogonTwo
    ensures NextAnswer(s, stream) == match Framing.Next(stream, s.large)
      case Packet(p, rest) => (Success(p), rest)
      case Broken => (Failure(Recovery.Io), [])
    ensures var n := Framing.Next(stream, s.large); n.Packet? ==> |n.packet| >= Framing.HEADER_SIZE
  {
  }

  lemma NextResponse(s: Session, stream: seq<byte>)
    requires s.stage == AwaitFast || s.stage == AwaitLogonTwo
    ensures var a := Recovery.Response(stream, s.large); NextAnswer(s, stream) == (a.result, a.rest)
  {
  }
}
