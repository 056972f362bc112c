/** The answers to a logon as a server writes them, and what the client makes of them. */
module ServerAnswers {
  import opened Bytes
  import opened Logon
  import opened Reads
  import opened ServerMessages
  import opened Texts
  import opened Wrappers
  import opened Writes

  // ---- Entries -------------------------------------------------------------------------

  /** One entry: a number, the key, the size of the value and unless that is zero the value, and
      flags. */
  datatype ServerEntry = ServerEntry(meta: u64, key: Option<seq<byte>>, size: u32, value: Option<seq<byte>>, flags: u32)
  {
    predicate Good() {
      (key.Some? ==> Utf8(key.value)) && (value.Some? ==> Utf8(value.value))
    }

    function Key(): seq<byte> {
      key.GetOr([])
    }

    function Value(): seq<byte> {
      if size == 0 then [] else value.GetOr([])
    }
  }

  function EntryThen(x: ServerEntry, rest: seq<byte>): seq<byte> {
    var w := UbBytes(x.flags) + rest;
    UbBytes(x.meta) + (LengthPrefixed(x.key) + (UbBytes(x.size) + if x.size == 0 then w else LengthPrefixed(x.value) + w))
  }

  function EntriesThen(xs: seq<ServerEntry>, rest: seq<byte>): seq<byte> {
    if xs == [] then rest else EntryThen(xs[0], EntriesThen(xs[1..], rest))
  }

  ghost predicate AllEntriesGood(xs: seq<ServerEntry>) {
    |xs| < 0x1_0000 && forall i: nat | i < |xs| :: xs[i].Good()
  }

  /** An answer: the type byte, the number of entries, the entries. */
  function AnswerThen(kind: byte, xs: seq<ServerEntry>, rest: seq<byte>): seq<byte>
    requires |xs| < 0x1_0000
  {
    [kind] + (UbBytes(|xs|) + EntriesThen(xs, rest))
  }

  /** The value that the last entry with a key has. */
  function Told(xs: seq<ServerEntry>, key: seq<byte>): Option<seq<byte>> {
    if xs == [] then None
    else
      var x := xs[|xs| - 1];
      if x.Key() == key then Some(x.Value()) else Told(xs[..|xs| - 1], key)
  }

  /** The flags of the last entry with the verifier data. */
  function ToldVerifier(xs: seq<ServerEntry>): nat {
    if xs == [] then 0
    else
      var x := xs[|xs| - 1];
      if x.Key() == Ascii("AUTH_VFR_DATA") then x.flags else ToldVerifier(xs[..|xs| - 1])
  }

  lemma EntryRead(x: ServerEntry, s: seq<byte>, p: nat, rest: seq<byte>) returns (q: nat)
    requires x.Good() && Left(s, p, EntryThen(x, rest))
    ensures p < q <= |s| && Left(s, q, rest) && EntryAt(s, p) == Reading(Success(Entry(x.Key(), x.Value(), x.flags)), q)
  {
    hide UbBytes, LengthPrefixed, Ub, SkipUb, TextWithLength, Left, Pow256, Utf8;
    Pow256Values();
    var w4 := UbBytes(x.flags) + rest;
    var w3 := if x.size == 0 then w4 else LengthPrefixed(x.value) + w4;
    var w2 := UbBytes(x.size) + w3;
    q := SkipThen(x.meta, s, p, LengthPrefixed(x.key) + w2);
    q := PrefixedThen(x.key, s, q, w2);
    q := UbThen(x.size, 4, s, q, w3);
    if x.size > 0 {
      q := PrefixedThen(x.value, s, q, w4);
    }
    q := UbThen(x.flags, 4, s, q, rest);
  }

  /** The entries read so far are those of `xs`. */
  ghost predicate Holds(es: Entries, xs: seq<ServerEntry>) {
    && es.verifier == ToldVerifier(xs)
    && forall key :: Told(xs, key) == if key in es.pairs then Some(es.pairs[key]) else None
  }

  lemma HoldsMore(es: Entries, xs: seq<ServerEntry>, x: ServerEntry)
    requires Holds(es, xs)
    ensures Holds(With(es, Entry(x.Key(), x.Value(), x.flags)), xs + [x])
  {
    hide Ascii;
    var all := xs + [x];
    assert all[..|all| - 1] == xs && all[|all| - 1] == x;
    var es' := With(es, Entry(x.Key(), x.Value(), x.flags));
    forall key
      ensures Told(all, key) == if key in es'.pairs then Some(es'.pairs[key]) else None
    {
      assert Told(xs, key) == if key in es.pairs then Some(es.pairs[key]) else None;
    }
  }

  lemma {:induction false} EntriesRead(done: seq<ServerEntry>, xs: seq<ServerEntry>, es: Entries, s: seq<byte>, p: nat,
                                       rest: seq<byte>) returns (all: Entries)
    requires (forall i: nat | i < |xs| :: xs[i].Good()) && Left(s, p, EntriesThen(xs, rest)) && Holds(es, done)
    ensures p <= |s| && EntriesAt(s, p, |xs|, es) == Some(all) && Holds(all, done + xs)
    decreases |xs|
  {
    hide EntryThen, Left, EntryAt, Holds, With;
    LeftBound(s, p, EntriesThen(xs, rest));
    if xs == [] {
      all := es;
      assert done + xs == done;
    } else {
      var x := xs[0];
      var q := EntryRead(x, s, p, EntriesThen(xs[1..], rest));
      HoldsMore(es, done, x);
      all := EntriesRead(done + [x], xs[1..], With(es, Entry(x.Key(), x.Value(), x.flags)), s, q, rest);
      assert (done + [x]) + xs[1..] == done + xs;
    }
  }

  lemma NothingHeld()
    ensures Holds(Entries(map[], 0), [])
  {
  }

  /** An answer is read as its entries; of several with one key the last counts. */
  lemma AnswerRead(kind: byte, xs: seq<ServerEntry>, payload: seq<byte>, rest: seq<byte>) returns (es: Entries)
    requires kind != 4 && AllEntriesGood(xs) && Left(payload, 2, AnswerThen(kind, xs, rest))
    ensures AnswerEntries(payload) == Some(es) && Holds(es, xs)
  {
    hide UbBytes, EntriesThen, Ub, SkipUb, Left, EntriesAt, Holds, Pow256;
    Pow256Values();
    var p := ByteThen(kind, payload, 2, UbBytes(|xs|) + EntriesThen(xs, rest));
    p := UbThen(|xs|, 2, payload, p, EntriesThen(xs, rest));
    NothingHeld();
    es := EntriesRead([], xs, Entries(map[], 0), payload, p, rest);
    assert [] + xs == xs;
  }

  // ---- Hexadecimal digits and numbers --------------------------------------------------

  function HexChar(n: nat): byte
    requires n < 16
  {
    if n < 10 then 48 + n else 55 + n
  }

  /** Two digits for each byte. */
  function HexOf(d: seq<byte>): seq<byte> {
    if d == [] then [] else [HexChar(d[0] / 16), HexChar(d[0] % 16)] + HexOf(d[1..])
  }

  /** The same value of a digit, in upper or lower case. */
  predicate HexDigitOf(b: byte, n: nat)
    requires n < 16
  {
    b == HexChar(n) || (n >= 10 && b == 87 + n)
  }

  /** Digits are read in either case; an odd number of them, or anything else, is refused. */
  lemma {:induction false} HexEitherCase(h: seq<byte>, d: seq<byte>)
    requires |h| == 2 * |d|
    requires forall i: nat | i < |d| :: HexDigitOf(h[2 * i], d[i] / 16) && HexDigitOf(h[2 * i + 1], d[i] % 16)
    ensures HexDecode(h) == Some(d)
    decreases |d|
  {
    if d != [] {
      assert HexDigitOf(h[2 * 0], d[0] / 16) && HexDigitOf(h[2 * 0 + 1], d[0] % 16);
      forall i: nat | i < |d[1..]|
        ensures HexDigitOf(h[2..][2 * i], d[1..][i] / 16) && HexDigitOf(h[2..][2 * i + 1], d[1..][i] % 16)
      {
        assert HexDigitOf(h[2 * (i + 1)], d[i + 1] / 16) && HexDigitOf(h[2 * (i + 1) + 1], d[i + 1] % 16);
      }
      HexEitherCase(h[2..], d[1..]);
      HexStep(h, d);
    }
  }

  lemma HexDigitBack(b: byte, n: nat)
    requires n < 16 && HexDigitOf(b, n)
    ensures HexDigit(b) == Some(n)
  {
  }

  lemma HexPair(h: seq<byte>, x: nat, y: nat, rest: seq<byte>)
    requires |h| >= 2 && x < 16 && y < 16 && HexDigit(h[0]) == Some(x) && HexDigit(h[1]) == Some(y)
    requires HexDecode(h[2..]) == Some(rest)
    ensures HexDecode(h) == Some([16 * x + y] + rest)
  {
    hide HexDigit;
  }

  lemma HexStep(h: seq<byte>, d: seq<byte>)
    requires |h| >= 2 && d != [] && HexDecode(h[2..]) == Some(d[1..])
    requires HexDigitOf(h[0], d[0] / 16) && HexDigitOf(h[1], d[0] % 16)
    ensures HexDecode(h) == Some(d)
  {
    hide HexDigit, HexDigitOf, HexDecode;
    HexDigitBack(h[0], d[0] / 16);
    HexDigitBack(h[1], d[0] % 16);
    HexPair(h, d[0] / 16, d[0] % 16, d[1..]);
    assert [16 * (d[0] / 16) + d[0] % 16] + d[1..] == d;
  }

  lemma {:induction false} HexBack(d: seq<byte>)
    ensures HexDecode(HexOf(d)) == Some(d)
  {
    hide HexDigit, HexDecode;
    if d == [] {
      HexOfNothing();
    } else {
      HexBack(d[1..]);
      var h := HexOf(d);
      assert h[2..] == HexOf(d[1..]);
      HexStep(h, d);
    }
  }

  lemma HexOfNothing()
    ensures HexDecode([]) == Some([])
  {
  }

  lemma {:induction false} HexRefused(h: seq<byte>)
    requires |h| % 2 == 1 || exists b :: b in h && !(48 <= b < 58 || 65 <= b < 71 || 97 <= b < 103)
    ensures HexDecode(h) == None
    decreases |h|
  {
    if |h| >= 2 {
      assert h == [h[0], h[1]] + h[2..];
      if |h[2..]| % 2 == 1 || exists b :: b in h[2..] && !(48 <= b < 58 || 65 <= b < 71 || 97 <= b < 103) {
        HexRefused(h[2..]);
      }
    }
  }

  lemma LookupHolds(es: Entries, xs: seq<ServerEntry>, key: string)
    requires Holds(es, xs)
    ensures Lookup(es.pairs, key) == Told(xs, Ascii(key))
  {
    hide Ascii;
    assert Told(xs, Ascii(key)) == if Ascii(key) in es.pairs then Some(es.pairs[Ascii(key)]) else None;
  }

  lemma HexTold(es: Entries, xs: seq<ServerEntry>, key: string, d: seq<byte>)
    requires Holds(es, xs) && Told(xs, Ascii(key)) == Some(HexOf(d))
    ensures LookupHex(es.pairs, key) == Some(d)
  {
    hide Ascii, Holds, HexOf;
    LookupHolds(es, xs, key);
    HexBack(d);
  }

  lemma CharsOfAscii(s: string)
    requires forall i | 0 <= i < |s| :: s[i] < '\U{80}'
    ensures Chars(Ascii(s)) == s
  {
  }

  lemma NumberTold(es: Entries, xs: seq<ServerEntry>, key: string, n: u32)
    requires Holds(es, xs) && Told(xs, Ascii(key)) == Some(Ascii(Decimal(n)))
    ensures LookupNumber(es.pairs, key) == Some(n as nat)
  {
    hide Ascii, Holds, Decimal, ParseUnsigned;
    LookupHolds(es, xs, key);
    forall i | 0 <= i < |Decimal(n)|
      ensures Decimal(n)[i] < '\U{80}'
    {
      assert IsDigit(Decimal(n)[i]);
    }
    CharsOfAscii(Decimal(n));
    ParseOfDecimal(n, 0xFFFF_FFFF);
  }

  // ---- The first answer ----------------------------------------------------------------

  /** What a server that follows the protocol has: the salt and the counts it sends, and its part of
      the session key. */
  datatype Server = Server(vfr: seq<byte>, part: seq<byte>, vgen: u32, salt: seq<byte>, sder: u32)

  /** The first answer of a 12c server: its key part under the password hash, and what the hash and
      the combo key are made with. */
  ghost predicate Offers12(c: Crypto, k: Server, xs: seq<ServerEntry>) {
    var key := c.encrypt(true, c.hash12(k.vfr, k.vgen), k.part);
    && ToldVerifier(xs) == 0x4815 && key.Some?
    && Told(xs, Ascii("AUTH_VFR_DATA")) == Some(HexOf(k.vfr))
    && Told(xs, Ascii("AUTH_SESSKEY")) == Some(HexOf(key.value))
    && Told(xs, Ascii("AUTH_PBKDF2_VGEN_COUNT")) == Some(Ascii(Decimal(k.vgen)))
    && Told(xs, Ascii("AUTH_PBKDF2_CSK_SALT")) == Some(HexOf(k.salt))
    && Told(xs, Ascii("AUTH_PBKDF2_SDER_COUNT")) == Some(Ascii(Decimal(k.sder)))
  }

  /** The first answer of an 11g server. */
  ghost predicate Offers11(c: Crypto, k: Server, xs: seq<ServerEntry>) {
    var key := c.encrypt(false, c.hash11(k.vfr), k.part);
    && ToldVerifier(xs) in {0xb152, 0x1b25} && key.Some?
    && Told(xs, Ascii("AUTH_VFR_DATA")) == Some(HexOf(k.vfr))
    && Told(xs, Ascii("AUTH_SESSKEY")) == Some(HexOf(key.value))
  }

  /** What was encrypted can be decrypted under the same key. */
  ghost predicate Invertible(c: Crypto) {
    forall twelve, key, x, y | c.encrypt(twelve, key, x) == Some(y) :: c.decrypt(twelve, key, y) == Some(x)
  }

  /** The password hash, and the combo key of the server's part and the client's. */
  function HashOf(c: Crypto, k: Server, twelve: bool): seq<byte> {
    if twelve then c.hash12(k.vfr, k.vgen) else c.hash11(k.vfr)
  }

  function ComboOf(c: Crypto, k: Server, twelve: bool, client: seq<byte>): seq<byte> {
    if twelve then c.combo12(k.part, client, k.salt, k.sder) else c.combo11(k.part, client)
  }

  /** The two sides have one combo key: `sent` is the client's part under the password hash, and with
      what the server decrypts it to it makes the client's key. */
  ghost predicate Shares(c: Crypto, k: Server, twelve: bool, sent: seq<byte>, combo: seq<byte>) {
    var client := c.decrypt(twelve, HashOf(c, k, twelve), sent);
    client == Some(c.random(|k.part|)) && combo == ComboOf(c, k, twelve, client.value)
  }

  /** The logon behind an honest first answer. */
  ghost predicate Agreed(c: Crypto, k: Server, twelve: bool, a: Auth) {
    && a.phase == Two && a.comboKey.Some? && a.clientKey.Some? && (a.verifier == 0x4815 <==> twelve)
    && Shares(c, k, twelve, a.clientKey.value, a.comboKey.value)
    && (twelve ==> LookupHex(a.pairs, "AUTH_VFR_DATA") == Some(k.vfr)
                   && LookupNumber(a.pairs, "AUTH_PBKDF2_VGEN_COUNT") == Some(k.vgen as nat))
  }

  lemma Keys12Made(c: Crypto, k: Server, es: Entries, xs: seq<ServerEntry>) returns (keys: Keys)
    requires Invertible(c) && Offers12(c, k, xs) && Holds(es, xs)
    requires c.encrypt(true, HashOf(c, k, true), c.random(|k.part|)).Some?
    ensures KeysFrom(c, es.pairs, 0x4815) == Some(keys) && Shares(c, k, true, keys.client, keys.combo)
    ensures LookupHex(es.pairs, "AUTH_VFR_DATA") == Some(k.vfr)
    ensures LookupNumber(es.pairs, "AUTH_PBKDF2_VGEN_COUNT") == Some(k.vgen as nat)
  {
    hide Ascii, Holds, HexOf, LookupHex, LookupNumber, Told, Decimal;
    var hash := c.hash12(k.vfr, k.vgen);
    var key := c.encrypt(true, hash, k.part).value;
    HexTold(es, xs, "AUTH_VFR_DATA", k.vfr);
    HexTold(es, xs, "AUTH_SESSKEY", key);
    HexTold(es, xs, "AUTH_PBKDF2_CSK_SALT", k.salt);
    NumberTold(es, xs, "AUTH_PBKDF2_VGEN_COUNT", k.vgen);
    NumberTold(es, xs, "AUTH_PBKDF2_SDER_COUNT", k.sder);
    assert c.decrypt(true, hash, key) == Some(k.part);
    var sent := c.encrypt(true, hash, c.random(|k.part|)).value;
    assert c.decrypt(true, hash, sent) == Some(c.random(|k.part|));
    keys := Keys(c.combo12(k.part, c.random(|k.part|), k.salt, k.sder), sent);
  }

  lemma Keys11Made(c: Crypto, k: Server, es: Entries, xs: seq<ServerEntry>) returns (keys: Keys)
    requires Invertible(c) && Offers11(c, k, xs) && Holds(es, xs)
    requires c.encrypt(false, HashOf(c, k, false), c.random(|k.part|)).Some?
    ensures KeysFrom(c, es.pairs, ToldVerifier(xs)) == Some(keys) && Shares(c, k, false, keys.client, keys.combo)
  {
    hide Ascii, Holds, HexOf, LookupHex, LookupNumber, Told, ToldVerifier;
    var hash := c.hash11(k.vfr);
    var key := c.encrypt(false, hash, k.part).value;
    HexTold(es, xs, "AUTH_VFR_DATA", k.vfr);
    HexTold(es, xs, "AUTH_SESSKEY", key);
    assert c.decrypt(false, hash, key) == Some(k.part);
    var sent := c.encrypt(false, hash, c.random(|k.part|)).value;
    assert c.decrypt(false, hash, sent) == Some(c.random(|k.part|));
    keys := Keys(c.combo11(k.part, c.random(|k.part|)), sent);
  }

  /** An honest first answer is accepted, and from then on client and server have one combo key. */
  lemma FirstAnswerAgrees(c: Crypto, k: Server, twelve: bool, kind: byte, xs: seq<ServerEntry>, payload: seq<byte>,
                          rest: seq<byte>) returns (a: Auth)
    requires Invertible(c) && if twelve then Offers12(c, k, xs) else Offers11(c, k, xs)
    requires c.encrypt(twelve, HashOf(c, k, twelve), c.random(|k.part|)).Some?
    requires kind != 4 && AllEntriesGood(xs) && Left(payload, 2, AnswerThen(kind, xs, rest))
    ensures Accepted(c, NEW, payload) == Some(a) && Agreed(c, k, twelve, a)
  {
    hide Ascii, Holds, HexOf, LookupHex, LookupNumber, Told, AnswerEntries, AnswerThen, Left, KeysFrom, Shares, HashOf;
    var es := AnswerRead(kind, xs, payload, rest);
    VerifierHeld(es, xs);
    var keys;
    if twelve {
      keys := Keys12Made(c, k, es, xs);
    } else {
      keys := Keys11Made(c, k, es, xs);
    }
    a := Auth(Two, es.pairs, es.verifier, Some(keys.combo), Some(keys.client));
  }

  lemma VerifierHeld(es: Entries, xs: seq<ServerEntry>)
    requires Holds(es, xs)
    ensures es.verifier == ToldVerifier(xs)
  {
  }

  // ---- The second request --------------------------------------------------------------

  /** What the client proves: the server decrypts its key part, the password, and in 12c the speedy
      key, each to what it should be. */
  ghost predicate Proves(c: Crypto, k: Server, twelve: bool, combo: seq<byte>, proof: Proof) {
    && Shares(c, k, twelve, proof.sessionKey, combo)
    && c.decrypt(twelve, combo, proof.password) == Some(c.saltedPassword)
    && (proof.speedy.Some? <==> twelve)
    && (twelve ==> c.decrypt(true, combo, proof.speedy.value) == Some(c.speedyData(k.vfr, k.vgen)))
  }

  /** If the ciphers do not fail, the client sends such a proof. */
  lemma SecondRequestProves(c: Crypto, k: Server, twelve: bool, a: Auth) returns (proof: Proof)
    requires Invertible(c) && Agreed(c, k, twelve, a)
    requires c.encrypt(twelve, a.comboKey.value, c.saltedPassword).Some?
    requires twelve ==> c.encrypt(true, a.comboKey.value, c.speedyData(k.vfr, k.vgen)).Some?
    ensures ClientProof(c, a) == Some(proof) && Proves(c, k, twelve, a.comboKey.value, proof)
  {
    hide LookupHex, LookupNumber, Shares;
    var combo := a.comboKey.value;
    var password := c.encrypt(twelve, combo, c.saltedPassword).value;
    assert c.decrypt(twelve, combo, password) == Some(c.saltedPassword);
    if twelve {
      var data := c.speedyData(k.vfr, k.vgen);
      var speedy := c.encrypt(true, combo, data).value;
      assert c.decrypt(true, combo, speedy) == Some(data);
    }
    proof := ClientProof(c, a).value;
  }

  // ---- The second answer ---------------------------------------------------------------

  /** `SERVER_TO_CLIENT` behind sixteen bytes of any kind, and anything behind it. */
  ghost predicate Marked(x: seq<byte>) {
    exists front: seq<byte>, back: seq<byte> :: |front| == 16
      && x == front + [83, 69, 82, 86, 69, 82, 95, 84, 79, 95, 67, 76, 73, 69, 78, 84] + back
  }

  lemma MarkInPlace(x: seq<byte>)
    ensures Marked(x) <==> |x| >= 32 && x[16..32] == Ascii("SERVER_TO_CLIENT")
  {
    var mark: seq<byte> := [83, 69, 82, 86, 69, 82, 95, 84, 79, 95, 67, 76, 73, 69, 78, 84];
    var text := "SERVER_TO_CLIENT";
    assert |Ascii(text)| == 16 && forall i | 0 <= i < 16 :: Ascii(text)[i] == text[i] as int;
    assert Ascii(text) == mark;
    if |x| >= 32 && x[16..32] == mark {
      assert x == x[..16] + mark + x[32..];
    }
    if Marked(x) {
      var front, back :| |front| == 16 && x == front + mark + back;
      assert x[16..32] == mark;
    }
  }

  /** An answer without a proof is taken as it is; one with a proof exactly if it is hexadecimal, a
      combo key is there, and it decrypts under that key to a text with the mark in its place. */
  lemma ProofExactly(c: Crypto, pairs: Pairs, verifier: nat, combo: Option<seq<byte>>)
    ensures ServerProof(c, pairs, verifier, combo) <==>
      match Lookup(pairs, "AUTH_SVR_RESPONSE")
      case None => true
      case Some(hex) =>
        combo.Some? && HexDecode(hex).Some?
        && exists x :: c.decrypt(verifier == 0x4815, combo.value, HexDecode(hex).value) == Some(x) && Marked(x)
  {
    hide Ascii, HexDecode, Marked;
    match Lookup(pairs, "AUTH_SVR_RESPONSE") {
      case None =>
      case Some(hex) =>
        if combo.Some? && HexDecode(hex).Some? {
          var plain := c.decrypt(verifier == 0x4815, combo.value, HexDecode(hex).value);
          if plain.Some? {
            MarkInPlace(plain.value);
          }
        }
    }
  }

  /** The second answer of an honest server: no verifier data, and sixteen bytes and the mark under
      the combo key. */
  ghost predicate Confirms(c: Crypto, twelve: bool, combo: seq<byte>, xs: seq<ServerEntry>) {
    && ToldVerifier(xs) == 0
    && exists x, y :: Marked(x) && c.encrypt(twelve, combo, x) == Some(y)
                      && Told(xs, Ascii("AUTH_SVR_RESPONSE")) == Some(HexOf(y))
  }

  /** Such an answer completes the logon. */
  lemma SecondAnswerCompletes(c: Crypto, k: Server, twelve: bool, a: Auth, kind: byte, xs: seq<ServerEntry>,
                              payload: seq<byte>, rest: seq<byte>) returns (b: Auth)
    requires Invertible(c) && Agreed(c, k, twelve, a) && Confirms(c, twelve, a.comboKey.value, xs)
    requires kind != 4 && AllEntriesGood(xs) && Left(payload, 2, AnswerThen(kind, xs, rest))
    ensures Accepted(c, a, payload) == Some(b) && b.phase == Complete && b.comboKey == a.comboKey
  {
    hide Ascii, Holds, HexOf, Told, AnswerEntries, AnswerThen, Left, Shares, Marked, ServerProof, LookupHex, LookupNumber,
      HexDecode;
    var es := AnswerRead(kind, xs, payload, rest);
    VerifierHeld(es, xs);
    var x, y :| Marked(x) && c.encrypt(twelve, a.comboKey.value, x) == Some(y)
                && Told(xs, Ascii("AUTH_SVR_RESPONSE")) == Some(HexOf(y));
    LookupHolds(es, xs, "AUTH_SVR_RESPONSE");
    HexBack(y);
    assert c.decrypt(a.verifier == 0x4815, a.comboKey.value, y) == Some(x);
    ProofExactly(c, es.pairs, a.verifier, a.comboKey);
    b := Accepted(c, a, payload).value;
  }

  // ---- There is such a server ----------------------------------------------------------

  /** An entry with nothing special about it. */
  function PlainEntry(key: string, value: seq<byte>, flags: u32): ServerEntry
    requires |value| < 0x1_0000
  {
    ServerEntry(0, Some(Ascii(key)), |value|, Some(value), flags)
  }

  lemma PlainEntryTold(key: string, value: seq<byte>, flags: u32)
    requires |value| < 0x1_0000
    ensures PlainEntry(key, value, flags).Key() == Ascii(key) && PlainEntry(key, value, flags).Value() == value
  {
    hide Ascii;
  }

  lemma {:induction false} AsciiIsUtf8(b: seq<byte>)
    requires forall x | x in b :: x < 0x80
    ensures Utf8(b)
  {
    if b != [] {
      assert b[0] in b && forall x | x in b[1..] :: x in b;
      AsciiIsUtf8(b[1..]);
    }
  }

  lemma {:induction false} HexIsAscii(d: seq<byte>)
    ensures |HexOf(d)| == 2 * |d| && forall x | x in HexOf(d) :: x < 0x80
  {
    if d != [] {
      HexIsAscii(d[1..]);
      forall x | x in HexOf(d)
        ensures x < 0x80
      {
        assert x in [HexChar(d[0] / 16), HexChar(d[0] % 16)] || x in HexOf(d[1..]);
      }
    }
  }

  lemma AsciiBytes(s: string)
    ensures forall x | x in Ascii(s) :: x < 0x80
  {
    forall x | x in Ascii(s)
      ensures x < 0x80
    {
      var i :| 0 <= i < |s| && Ascii(s)[i] == x;
    }
  }

  lemma PlainEntryGood(key: string, value: seq<byte>, flags: u32)
    requires |value| < 0x1_0000 && forall x | x in value :: x < 0x80
    ensures PlainEntry(key, value, flags).Good()
  {
    hide Ascii, Utf8;
    AsciiBytes(key);
    AsciiIsUtf8(Ascii(key));
    AsciiIsUtf8(value);
  }

  lemma ToldFirst(xs: seq<ServerEntry>, x: ServerEntry, key: seq<byte>)
    ensures Told(xs + [x], key) == if x.Key() == key then Some(x.Value()) else Told(xs, key)
    ensures ToldVerifier(xs + [x]) == if x.Key() == Ascii("AUTH_VFR_DATA") then x.flags else ToldVerifier(xs)
  {
    hide Ascii;
    assert (xs + [x])[..|xs|] == xs;
  }

  lemma KeysDiffer()
    ensures var keys := [Ascii("AUTH_VFR_DATA"), Ascii("AUTH_SESSKEY"), Ascii("AUTH_PBKDF2_VGEN_COUNT"),
                         Ascii("AUTH_PBKDF2_CSK_SALT"), Ascii("AUTH_PBKDF2_SDER_COUNT"), Ascii("AUTH_SVR_RESPONSE")];
      forall i, j | 0 <= i < j < 6 :: keys[i] != keys[j]
  {
    assert Ascii("AUTH_PBKDF2_VGEN_COUNT")[12] == 'V' as int && Ascii("AUTH_PBKDF2_SDER_COUNT")[12] == 'S' as int;
  }

  /** The values are short enough for one packet. */
  ghost predicate Short(k: Server, key: seq<byte>) {
    |k.vfr| < 1000 && |k.salt| < 1000 && |key| < 1000
  }

  /** The first answer of a 12c server, in five entries. */
  function Offer(k: Server, key: seq<byte>): seq<ServerEntry>
    requires |HexOf(k.vfr)| < 0x1_0000 && |HexOf(key)| < 0x1_0000 && |HexOf(k.salt)| < 0x1_0000
    requires |Decimal(k.vgen)| < 0x1_0000 && |Decimal(k.sder)| < 0x1_0000
  {
    [] + [PlainEntry("AUTH_VFR_DATA", HexOf(k.vfr), 0x4815)] + [PlainEntry("AUTH_SESSKEY", HexOf(key), 0)]
    + [PlainEntry("AUTH_PBKDF2_VGEN_COUNT", Ascii(Decimal(k.vgen)), 0)]
    + [PlainEntry("AUTH_PBKDF2_CSK_SALT", HexOf(k.salt), 0)]
    + [PlainEntry("AUTH_PBKDF2_SDER_COUNT", Ascii(Decimal(k.sder)), 0)]
  }

  lemma DecimalIsShort(n: u32)
    ensures |Decimal(n)| <= 10
  {
    hide Decimal;
    var a, b, c, d := n / 10, n / 100, n / 1000, n / 1_0000;
    var e, f, g, h, i := n / 10_0000, n / 100_0000, n / 1000_0000, n / 1_0000_0000, n / 10_0000_0000;
    assert a / 10 == b && b / 10 == c && c / 10 == d && d / 10 == e;
    assert e / 10 == f && f / 10 == g && g / 10 == h && h / 10 == i;
    DecimalLength(n);
    DecimalLength(a);
    DecimalLength(b);
    DecimalLength(c);
    DecimalLength(d);
    DecimalLength(e);
    DecimalLength(f);
    DecimalLength(g);
    DecimalLength(h);
    DecimalLength(i);
  }

  lemma DecimalLength(n: nat)
    ensures |Decimal(n)| == if n < 10 then 1 else |Decimal(n / 10)| + 1
  {
  }

  lemma OfferOffers(c: Crypto, k: Server, key: seq<byte>)
    requires c.encrypt(true, c.hash12(k.vfr, k.vgen), k.part) == Some(key) && Short(k, key)
    ensures |HexOf(k.vfr)| < 2000 && |HexOf(key)| < 2000 && |HexOf(k.salt)| < 2000
    ensures |Decimal(k.vgen)| <= 10 && |Decimal(k.sder)| <= 10
    ensures Offers12(c, k, Offer(k, key)) && AllEntriesGood(Offer(k, key))
  {
    HexIsAscii(k.vfr);
    HexIsAscii(key);
    HexIsAscii(k.salt);
    DecimalIsShort(k.vgen);
    DecimalIsShort(k.sder);
    OfferTells(k, key);
    OfferIsGood(k, key);
  }

  lemma OfferIsGood(k: Server, key: seq<byte>)
    requires |HexOf(k.vfr)| < 2000 && |HexOf(key)| < 2000 && |HexOf(k.salt)| < 2000
    requires |Decimal(k.vgen)| <= 10 && |Decimal(k.sder)| <= 10
    ensures AllEntriesGood(Offer(k, key))
  {
    hide Ascii, HexOf, Decimal, PlainEntry;
    HexIsAscii(k.vfr);
    HexIsAscii(key);
    HexIsAscii(k.salt);
    AsciiBytes(Decimal(k.vgen));
    AsciiBytes(Decimal(k.sder));
    PlainEntryGood("AUTH_VFR_DATA", HexOf(k.vfr), 0x4815);
    PlainEntryGood("AUTH_SESSKEY", HexOf(key), 0);
    PlainEntryGood("AUTH_PBKDF2_VGEN_COUNT", Ascii(Decimal(k.vgen)), 0);
    PlainEntryGood("AUTH_PBKDF2_CSK_SALT", HexOf(k.salt), 0);
    PlainEntryGood("AUTH_PBKDF2_SDER_COUNT", Ascii(Decimal(k.sder)), 0);
  }

  lemma OfferTells(k: Server, key: seq<byte>)
    requires |HexOf(k.vfr)| < 2000 && |HexOf(key)| < 2000 && |HexOf(k.salt)| < 2000
    requires |Decimal(k.vgen)| <= 10 && |Decimal(k.sder)| <= 10
    ensures var xs := Offer(k, key);
      && ToldVerifier(xs) == 0x4815
      && Told(xs, Ascii("AUTH_VFR_DATA")) == Some(HexOf(k.vfr)) && Told(xs, Ascii("AUTH_SESSKEY")) == Some(HexOf(key))
      && Told(xs, Ascii("AUTH_PBKDF2_VGEN_COUNT")) == Some(Ascii(Decimal(k.vgen)))
      && Told(xs, Ascii("AUTH_PBKDF2_CSK_SALT")) == Some(HexOf(k.salt))
      && Told(xs, Ascii("AUTH_PBKDF2_SDER_COUNT")) == Some(Ascii(Decimal(k.sder)))
  {
    hide Ascii, HexOf, Decimal, PlainEntry, Told, ToldVerifier;
    KeysDiffer();
    var keys := [Ascii("AUTH_VFR_DATA"), Ascii("AUTH_SESSKEY"), Ascii("AUTH_PBKDF2_VGEN_COUNT"),
                 Ascii("AUTH_PBKDF2_CSK_SALT"), Ascii("AUTH_PBKDF2_SDER_COUNT"), Ascii("AUTH_SVR_RESPONSE")];
    assert forall i, j | 0 <= i < j < 6 :: keys[i] != keys[j];
    var e0, e1 := PlainEntry("AUTH_VFR_DATA", HexOf(k.vfr), 0x4815), PlainEntry("AUTH_SESSKEY", HexOf(key), 0);
    var e2 := PlainEntry("AUTH_PBKDF2_VGEN_COUNT", Ascii(Decimal(k.vgen)), 0);
    var e3 := PlainEntry("AUTH_PBKDF2_CSK_SALT", HexOf(k.salt), 0);
    var e4 := PlainEntry("AUTH_PBKDF2_SDER_COUNT", Ascii(Decimal(k.sder)), 0);
    PlainEntryTold("AUTH_VFR_DATA", HexOf(k.vfr), 0x4815);
    PlainEntryTold("AUTH_SESSKEY", HexOf(key), 0);
    PlainEntryTold("AUTH_PBKDF2_VGEN_COUNT", Ascii(Decimal(k.vgen)), 0);
    PlainEntryTold("AUTH_PBKDF2_CSK_SALT", HexOf(k.salt), 0);
    PlainEntryTold("AUTH_PBKDF2_SDER_COUNT", Ascii(Decimal(k.sder)), 0);
    VerifierOfPlain("AUTH_VFR_DATA", HexOf(k.vfr), 0x4815);
    forall i | 0 <= i < 5
      ensures ToldOfFive(e0, e1, e2, e3, e4, keys[i])
    {
      FiveTold(e0, e1, e2, e3, e4, keys[i]);
    }
    assert ToldOfFive(e0, e1, e2, e3, e4, keys[0]) && ToldOfFive(e0, e1, e2, e3, e4, keys[1]);
    assert ToldOfFive(e0, e1, e2, e3, e4, keys[2]) && ToldOfFive(e0, e1, e2, e3, e4, keys[3]);
    assert ToldOfFive(e0, e1, e2, e3, e4, keys[4]);
  }

  lemma VerifierOfPlain(key: string, value: seq<byte>, flags: u32)
    requires |value| < 0x1_0000
    ensures PlainEntry(key, value, flags).flags == flags
  {
  }

  /** Looking a key up in five entries. */
  ghost predicate ToldOfFive(a: ServerEntry, b: ServerEntry, c: ServerEntry, d: ServerEntry, e: ServerEntry,
                             key: seq<byte>) {
    var xs := [] + [a] + [b] + [c] + [d] + [e];
    && Told(xs, key) == (if e.Key() == key then Some(e.Value()) else if d.Key() == key then Some(d.Value())
                         else if c.Key() == key then Some(c.Value()) else if b.Key() == key then Some(b.Value())
                         else if a.Key() == key then Some(a.Value()) else None)
    && (ToldVerifier(xs) == var v := Ascii("AUTH_VFR_DATA");
          if e.Key() == v then e.flags else if d.Key() == v then d.flags else if c.Key() == v then c.flags
          else if b.Key() == v then b.flags else if a.Key() == v then a.flags else 0)
  }

  lemma FiveTold(a: ServerEntry, b: ServerEntry, c: ServerEntry, d: ServerEntry, e: ServerEntry, key: seq<byte>)
    ensures ToldOfFive(a, b, c, d, e, key)
  {
    hide Ascii, Told, ToldVerifier;
    NothingTold(key);
    ToldFirst([], a, key);
    ToldFirst([] + [a], b, key);
    ToldFirst([] + [a] + [b], c, key);
    ToldFirst([] + [a] + [b] + [c], d, key);
    ToldFirst([] + [a] + [b] + [c] + [d], e, key);
  }

  lemma NothingTold(key: seq<byte>)
    ensures Told([], key) == None && ToldVerifier([]) == 0
  {
  }

  /** The second answer of a server, in one entry. */
  function Confirmation(y: seq<byte>): seq<ServerEntry>
    requires |HexOf(y)| < 0x1_0000
  {
    [] + [PlainEntry("AUTH_SVR_RESPONSE", HexOf(y), 0)]
  }

  lemma ConfirmationConfirms(c: Crypto, twelve: bool, combo: seq<byte>, x: seq<byte>, y: seq<byte>)
    requires Marked(x) && c.encrypt(twelve, combo, x) == Some(y) && |y| < 1000
    ensures |HexOf(y)| < 2000 && Confirms(c, twelve, combo, Confirmation(y)) && AllEntriesGood(Confirmation(y))
  {
    hide Ascii, HexOf, Marked, Told, ToldVerifier;
    HexIsAscii(y);
    PlainEntryGood("AUTH_SVR_RESPONSE", HexOf(y), 0);
    PlainEntryTold("AUTH_SVR_RESPONSE", HexOf(y), 0);
    KeysDiffer();
    var keys := [Ascii("AUTH_VFR_DATA"), Ascii("AUTH_SESSKEY"), Ascii("AUTH_PBKDF2_VGEN_COUNT"),
                 Ascii("AUTH_PBKDF2_CSK_SALT"), Ascii("AUTH_PBKDF2_SDER_COUNT"), Ascii("AUTH_SVR_RESPONSE")];
    assert keys[0] != keys[5];
    NothingTold(Ascii("AUTH_SVR_RESPONSE"));
    ToldFirst([], PlainEntry("AUTH_SVR_RESPONSE", HexOf(y), 0), Ascii("AUTH_SVR_RESPONSE"));
  }
}
