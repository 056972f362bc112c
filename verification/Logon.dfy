/** The two phases of logging on: what the client keeps of the server's answers and how it moves
    from one phase to the next. The ciphers and hashes are parameters. */
module Logon {
  import opened Bytes
  import opened Messages
  import opened Reads
  import opened Texts
  import opened Wrappers

  type Pairs = map<seq<byte>, seq<byte>>

  datatype Phase = One | Two | Complete

  const V11G_1: nat := 0xb152
  const V11G_2: nat := 0x1b25
  const V12C: nat := 0x4815

  /** The primitives; the flag tells the 12c ciphers from the 11g ones. */
  datatype Crypto = Crypto(
    hash12: (seq<byte>, nat) -> seq<byte>,
    hash11: seq<byte> -> seq<byte>,
    decrypt: (bool, seq<byte>, seq<byte>) -> Option<seq<byte>>,
    encrypt: (bool, seq<byte>, seq<byte>) -> Option<seq<byte>>,
    combo12: (seq<byte>, seq<byte>, seq<byte>, nat) -> seq<byte>,
    combo11: (seq<byte>, seq<byte>) -> seq<byte>,
    random: nat -> seq<byte>,
    saltedPassword: seq<byte>,
    speedyData: (seq<byte>, nat) -> seq<byte>)

  datatype Auth = Auth(
    phase: Phase,
    pairs: Pairs,
    verifier: nat,
    comboKey: Option<seq<byte>>,
    clientKey: Option<seq<byte>>)

  const NEW := Auth(One, map[], 0, None, None)

  /** The characters of bytes, one each. */
  function Chars(b: seq<byte>): string {
    seq(|b|, i requires 0 <= i < |b| => b[i] as char)
  }

  function Lookup(pairs: Pairs, key: string): Option<seq<byte>> {
    if Ascii(key) in pairs then Some(pairs[Ascii(key)]) else None
  }

  function LookupNumber(pairs: Pairs, key: string): Option<nat> {
    match Lookup(pairs, key)
    case Some(v) => ParseUnsigned(Chars(v), 0xFFFF_FFFF)
    case None => None
  }

  function HexDigit(b: byte): Option<nat> {
    if 48 <= b < 58 then Some(b - 48)
    else if 65 <= b < 71 then Some(b - 55)
    else if 97 <= b < 103 then Some(b - 87)
    else None
  }

  function HexDecode(b: seq<byte>): Option<seq<byte>> {
    if b == [] then Some([])
    else if |b| == 1 then None
    else
      match (HexDigit(b[0]), HexDigit(b[1]), HexDecode(b[2..]))
      case (Some(h), Some(l), Some(rest)) => if h < 16 && l < 16 then Some([16 * h + l] + rest) else None
      case _ => None
  }

  function LookupHex(pairs: Pairs, key: string): Option<seq<byte>> {
    match Lookup(pairs, key)
    case Some(v) => HexDecode(v)
    case None => None
  }

  // ---- Reading an answer ---------------------------------------------------------------

  /** A text, empty if it is absent. */
  function TextAt(s: seq<byte>, p: nat): (r: Reading<seq<byte>>)
    requires p <= |s|
    ensures p <= r.pos <= |s|
  {
    var t := TextWithLength(s, p);
    if !t.Ok() then t.Fail() else Reading(Success(t.Value().GetOr([])), t.pos)
  }

  /** A text behind its length, which is only compared with zero. */
  function ValueAt(s: seq<byte>, p: nat): (r: Reading<seq<byte>>)
    requires p <= |s|
    ensures p <= r.pos <= |s|
  {
    var n := Ub(s, p, 4);
    if !n.Ok() then n.Fail()
    else if n.Value() > 0 then TextAt(s, n.pos) else Reading(Success([]), n.pos)
  }

  datatype Entry = Entry(key: seq<byte>, value: seq<byte>, flags: nat)

  function EntryAt(s: seq<byte>, p: nat): (r: Reading<Entry>)
    requires p <= |s|
    ensures p <= r.pos <= |s|
  {
    var meta := SkipUb(s, p);
    if !meta.Ok() then meta.Fail()
    else
      var key := TextAt(s, meta.pos);
      if !key.Ok() then key.Fail()
      else
        var value := ValueAt(s, key.pos);
        if !value.Ok() then value.Fail()
        else
          var flags := Ub(s, value.pos, 4);
          if flags.Ok() then Reading(Success(Entry(key.Value(), value.Value(), flags.Value())), flags.pos)
          else flags.Fail()
  }

  /** The entries of an answer; the flags of the verifier data name the verifier. */
  datatype Entries = Entries(pairs: Pairs, verifier: nat)

  function With(es: Entries, e: Entry): Entries {
    Entries(es.pairs[e.key := e.value], if e.key == Ascii("AUTH_VFR_DATA") then e.flags else es.verifier)
  }

  function EntriesAt(s: seq<byte>, p: nat, count: nat, es: Entries): Option<Entries>
    requires p <= |s|
    decreases count
  {
    if count == 0 then Some(es)
    else
      var e := EntryAt(s, p);
      if e.Ok() then EntriesAt(s, e.pos, count - 1, With(es, e.Value())) else None
  }

  /** The entries of a payload: two flag bytes, a message type that is not an error, a count and
      the entries. */
  function AnswerEntries(payload: seq<byte>): Option<Entries> {
    if |payload| < 3 || payload[2] == ERROR then None
    else
      var count := Ub(payload, 3, 2);
      if count.Ok() then EntriesAt(payload, count.pos, count.Value(), Entries(map[], 0)) else None
  }

  // ---- Keys and proofs -----------------------------------------------------------------

  /** The combo key and the client's own encrypted key part. */
  datatype Keys = Keys(combo: seq<byte>, client: seq<byte>)

  function Keys12(c: Crypto, pairs: Pairs, vfr: seq<byte>, serverKey: seq<byte>): Option<Keys> {
    match (LookupNumber(pairs, "AUTH_PBKDF2_VGEN_COUNT"), LookupHex(pairs, "AUTH_PBKDF2_CSK_SALT"),
           LookupNumber(pairs, "AUTH_PBKDF2_SDER_COUNT"))
    case (Some(vgen), Some(salt), Some(sder)) =>
      var hash := c.hash12(vfr, vgen);
      (match c.decrypt(true, hash, serverKey)
       case None => None
       case Some(a) =>
         var b := c.random(|a|);
         match c.encrypt(true, hash, b)
         case None => None
         case Some(client) => Some(Keys(c.combo12(a, b, salt, sder), client)))
    case _ => None
  }

  function Keys11(c: Crypto, vfr: seq<byte>, serverKey: seq<byte>): Option<Keys> {
    var hash := c.hash11(vfr);
    match c.decrypt(false, hash, serverKey)
    case None => None
    case Some(a) =>
      var b := c.random(|a|);
      match c.encrypt(false, hash, b)
      case None => None
      case Some(client) => Some(Keys(c.combo11(a, b), client))
  }

  /** The keys that the first answer leads to. */
  function KeysFrom(c: Crypto, pairs: Pairs, verifier: nat): Option<Keys> {
    match (LookupHex(pairs, "AUTH_VFR_DATA"), LookupHex(pairs, "AUTH_SESSKEY"))
    case (Some(vfr), Some(serverKey)) =>
      if verifier == V12C then Keys12(c, pairs, vfr, serverKey)
      else if verifier == V11G_1 || verifier == V11G_2 then Keys11(c, vfr, serverKey)
      else None
    case _ => None
  }

  /** The server's answer is absent, or it decrypts under the combo key to its mark. */
  predicate ServerProof(c: Crypto, pairs: Pairs, verifier: nat, comboKey: Option<seq<byte>>) {
    match Lookup(pairs, "AUTH_SVR_RESPONSE")
    case None => true
    case Some(hex) =>
      comboKey.Some? && HexDecode(hex).Some?
      && var plain := c.decrypt(verifier == V12C, comboKey.value, HexDecode(hex).value);
         plain.Some? && |plain.value| >= 32 && plain.value[16..32] == Ascii("SERVER_TO_CLIENT")
  }

  /** The second request. */
  datatype Proof = Proof(sessionKey: seq<byte>, password: seq<byte>, speedy: Option<seq<byte>>)

  function SpeedyKey(c: Crypto, a: Auth): Option<seq<byte>>
    requires a.comboKey.Some?
  {
    match (LookupHex(a.pairs, "AUTH_VFR_DATA"), LookupNumber(a.pairs, "AUTH_PBKDF2_VGEN_COUNT"))
    case (Some(vfr), Some(iterations)) => c.encrypt(true, a.comboKey.value, c.speedyData(vfr, iterations))
    case _ => None
  }

  function ClientProof(c: Crypto, a: Auth): Option<Proof> {
    if a.comboKey.None? || a.clientKey.None? then None
    else
      match c.encrypt(a.verifier == V12C, a.comboKey.value, c.saltedPassword)
      case None => None
      case Some(password) =>
        if a.verifier != V12C then Some(Proof(a.clientKey.value, password, None))
        else
          match SpeedyKey(c, a)
          case None => None
          case Some(speedy) => Some(Proof(a.clientKey.value, password, Some(speedy)))
  }

  /** What an answer makes of the logon, if it is accepted. */
  function Accepted(c: Crypto, a: Auth, payload: seq<byte>): Option<Auth> {
    match AnswerEntries(payload)
    case None => None
    case Some(es) =>
      var verifier := if es.verifier != 0 then es.verifier else a.verifier;
      match a.phase
      case One =>
        (match KeysFrom(c, es.pairs, verifier)
         case None => None
         case Some(keys) => Some(Auth(Two, es.pairs, verifier, Some(keys.combo), Some(keys.client))))
      case Two =>
        if ServerProof(c, es.pairs, verifier, a.comboKey)
        then Some(a.(phase := Complete, pairs := es.pairs, verifier := verifier)) else None
      case Complete => Some(a.(pairs := es.pairs, verifier := verifier))
  }

  // ---- Laws ----------------------------------------------------------------------------

  /** What the logon has gathered by the second phase. */
  predicate HasKeys(a: Auth) {
    && a.phase == Two && a.comboKey.Some? && a.clientKey.Some?
    && (a.verifier == V12C ==>
          LookupHex(a.pairs, "AUTH_VFR_DATA").Some? && LookupNumber(a.pairs, "AUTH_PBKDF2_VGEN_COUNT").Some?)
  }

  /** An accepted first answer leaves nothing missing: the second request can then be made
      unless a cipher fails. */
  lemma FirstAnswerSuffices(c: Crypto, a: Auth, payload: seq<byte>)
    requires a.phase == One && Accepted(c, a, payload).Some?
    ensures var t := Accepted(c, a, payload).value;
      && HasKeys(t)
      && (ClientProof(c, t).Some? <==>
            && c.encrypt(t.verifier == V12C, t.comboKey.value, c.saltedPassword).Some?
            && (t.verifier == V12C ==>
                 c.encrypt(true, t.comboKey.value,
                   c.speedyData(LookupHex(t.pairs, "AUTH_VFR_DATA").value,
                                LookupNumber(t.pairs, "AUTH_PBKDF2_VGEN_COUNT").value)).Some?))
  {
    hide AnswerEntries, LookupHex, LookupNumber;
  }
}

/** The logon as an object that the answers update in place. */
module LogonMessages {
  import opened Bytes
  import opened Messages
  import opened Logon
  import opened ReadBuffers
  import opened Reads
  import opened Texts
  import opened Wrappers

  class AuthMessage {
    var phase: Phase
    var sessionData: Pairs
    var verifierType: nat
    var comboKey: Option<seq<byte>>
    var clientSessionKey: Option<seq<byte>>

    ghost function Value(): Auth
      reads this
    {
      Auth(phase, sessionData, verifierType, comboKey, clientSessionKey)
    }

    constructor ()
      ensures Value() == NEW
    {
      phase := One;
      sessionData := map[];
      verifierType := 0;
      comboKey := None;
      clientSessionKey := None;
    }

    predicate IsComplete()
      reads this
    {
      phase == Complete
    }

    /** The second request. */
    method BuildPhaseTwo(c: Crypto) returns (r: Option<Proof>)
      ensures r == ClientProof(c, Value())
    {
      if comboKey.None? {
        return None;
      }
      var password := c.encrypt(verifierType == V12C, comboKey.value, c.saltedPassword);
      if password.None? || clientSessionKey.None? {
        return None;
      }
      if verifierType == V12C {
        var speedy := SpeedyKey(c, Auth(phase, sessionData, verifierType, comboKey, clientSessionKey));
        if speedy.None? {
          return None;
        }
        return Some(Proof(clientSessionKey.value, password.value, speedy));
      }
      return Some(Proof(clientSessionKey.value, password.value, None));
    }

    method ReadText(buf: ReadBuffer) returns (r: Result<seq<byte>, ReadError>)
      requires buf.Valid()
      modifies buf
      ensures buf.Valid() && Reading(r, buf.pos) == TextAt(buf.data, old(buf.pos))
    {
      var text :- buf.ReadStringWithLength();
      return Success(text.GetOr([]));
    }

    method ReadEntry(buf: ReadBuffer) returns (r: Result<Entry, ReadError>)
      requires buf.Valid()
      modifies buf
      ensures buf.Valid() && Reading(r, buf.pos) == EntryAt(buf.data, old(buf.pos))
    {
      hide Ub, SkipUb, TextAt;
      var _ :- buf.SkipUbN();
      var key :- ReadText(buf);
      var length :- buf.ReadUb4();
      var value: seq<byte> := [];
      if length > 0 {
        value :- ReadText(buf);
      }
      var flags :- buf.ReadUb4();
      return Success(Entry(key, value, flags));
    }

    /** The entries of an answer, read one by one into a map. */
    method ReadEntries(payload: seq<byte>) returns (r: Option<Entries>)
      ensures r == AnswerEntries(payload)
    {
      hide Ub, EntryAt, Ascii;
      var buf := new ReadBuffer(payload);
      var flags := buf.SkipBytes(2);
      if flags.Failure? {
        return None;
      }
      var kind := buf.ReadU8();
      if kind.Failure? || kind.value == ERROR {
        return None;
      }
      var count := buf.ReadUb2();
      if count.Failure? {
        return None;
      }
      var pairs: Pairs, verifier := map[], 0;
      for i := 0 to count.value
        invariant buf.Valid() && fresh(buf) && buf.data == payload
        invariant EntriesAt(payload, buf.pos, count.value - i, Entries(pairs, verifier)) == AnswerEntries(payload)
      {
        var entry := ReadEntry(buf);
        if entry.Failure? {
          return None;
        }
        if entry.value.key == Ascii("AUTH_VFR_DATA") {
          verifier := entry.value.flags;
        }
        pairs := pairs[entry.value.key := entry.value.value];
      }
      return Some(Entries(pairs, verifier));
    }

    /** Takes in an answer. The phase moves on before the answer is judged: after a refusal it is
        the phase the answer would have led to. */
    method ParseResponse(c: Crypto, payload: seq<byte>) returns (ok: bool)
      modifies this
      ensures ok == Accepted(c, old(Value()), payload).Some?
      ensures ok ==> Value() == Accepted(c, old(Value()), payload).value
      ensures phase == if AnswerEntries(payload).None? then old(phase)
        else match old(phase) case One => Two case Two => Complete case Complete => Complete
    {
      hide AnswerEntries, KeysFrom, ServerProof;
      var entries := ReadEntries(payload);
      if entries.None? {
        return false;
      }
      sessionData := entries.value.pairs;
      if entries.value.verifier != 0 {
        verifierType := entries.value.verifier;
      }
      match phase {
        case One =>
          phase := Two;
          ok := GenerateVerifier(c);
        case Two =>
          phase := Complete;
          ok := VerifyServerResponse(c);
        case Complete =>
          ok := true;
      }
    }

    /** The keys are kept one after the other as they are made. */
    method GenerateVerifier(c: Crypto) returns (ok: bool)
      modifies this`comboKey, this`clientSessionKey
      ensures ok == KeysFrom(c, sessionData, verifierType).Some?
      ensures ok ==> var keys := KeysFrom(c, sessionData, verifierType).value;
        comboKey == Some(keys.combo) && clientSessionKey == Some(keys.client)
    {
      hide LookupHex, LookupNumber;
      var vfr := LookupHex(sessionData, "AUTH_VFR_DATA");
      var serverKey := LookupHex(sessionData, "AUTH_SESSKEY");
      if vfr.None? || serverKey.None? {
        return false;
      }
      if verifierType == V12C {
        ok := Generate12c(c, vfr.value, serverKey.value);
      } else if verifierType == V11G_1 || verifierType == V11G_2 {
        ok := Generate11g(c, vfr.value, serverKey.value);
      } else {
        ok := false;
      }
    }

    method Generate12c(c: Crypto, vfr: seq<byte>, serverKey: seq<byte>) returns (ok: bool)
      modifies this`comboKey, this`clientSessionKey
      ensures ok == Keys12(c, sessionData, vfr, serverKey).Some?
      ensures ok ==> var keys := Keys12(c, sessionData, vfr, serverKey).value;
        comboKey == Some(keys.combo) && clientSessionKey == Some(keys.client)
    {
      hide LookupHex, LookupNumber;
      var iterations := LookupNumber(sessionData, "AUTH_PBKDF2_VGEN_COUNT");
      if iterations.None? {
        return false;
      }
      var hash := c.hash12(vfr, iterations.value);
      var partA := c.decrypt(true, hash, serverKey);
      if partA.None? {
        return false;
      }
      var partB := c.random(|partA.value|);
      var client := c.encrypt(true, hash, partB);
      if client.None? {
        return false;
      }
      clientSessionKey := client;
      var salt := LookupHex(sessionData, "AUTH_PBKDF2_CSK_SALT");
      var count := LookupNumber(sessionData, "AUTH_PBKDF2_SDER_COUNT");
      if salt.None? || count.None? {
        return false;
      }
      comboKey := Some(c.combo12(partA.value, partB, salt.value, count.value));
      return true;
    }

    method Generate11g(c: Crypto, vfr: seq<byte>, serverKey: seq<byte>) returns (ok: bool)
      modifies this`comboKey, this`clientSessionKey
      ensures ok == Keys11(c, vfr, serverKey).Some?
      ensures ok ==> var keys := Keys11(c, vfr, serverKey).value;
        comboKey == Some(keys.combo) && clientSessionKey == Some(keys.client)
    {
      var hash := c.hash11(vfr);
      var partA := c.decrypt(false, hash, serverKey);
      if partA.None? {
        return false;
      }
      var partB := c.random(|partA.value|);
      var client := c.encrypt(false, hash, partB);
      if client.None? {
        return false;
      }
      clientSessionKey := client;
      comboKey := Some(c.combo11(partA.value, partB));
      return true;
    }

    method VerifyServerResponse(c: Crypto) returns (ok: bool)
      ensures ok == ServerProof(c, sessionData, verifierType, comboKey)
    {
      hide Ascii, HexDecode;
      var response := Lookup(sessionData, "AUTH_SVR_RESPONSE");
      if response.None? {
        return true;
      }
      if comboKey.None? {
        return false;
      }
      var encrypted := HexDecode(response.value);
      if encrypted.None? {
        return false;
      }
      var decrypted := c.decrypt(verifierType == V12C, comboKey.value, encrypted.value);
      if decrypted.None? {
        return false;
      }
      return |decrypted.value| >= 32 && decrypted.value[16..32] == Ascii("SERVER_TO_CLIENT");
    }
  }
}
