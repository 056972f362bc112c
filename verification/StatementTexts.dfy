/** What a statement is by its text, and what names a colon announces, said of the characters; and
    the bytes that texts are made of. */
module StatementTexts {
  import opened BindScanning
  import opened BindScanner
  import Bytes
  import Reads
  import opened SqlLexing
  import opened Statements
  import Texts

  // ---- The kind of a statement ---------------------------------------------------------

  /** ASCII letters in upper case. */
  function Capitals(s: string): (r: string)
    ensures |r| == |s| && forall i | 0 <= i < |s| :: r[i] == AsciiUpper(s[i])
  {
    seq(|s|, i requires 0 <= i < |s| => AsciiUpper(s[i]))
  }

  lemma {:induction false} UpperJoins(u: Unicode, a: string, b: string)
    ensures Upper(u, a + b) == Upper(u, a) + Upper(u, b)
  {
    if a == "" {
      assert a + b == b;
    } else {
      assert (a + b)[1..] == a[1..] + b;
      UpperJoins(u, a[1..], b);
    }
  }

  lemma {:induction false} UpperOfAscii(u: Unicode, s: string)
    requires Standard(u) && Ascii(s)
    ensures Upper(u, s) == Capitals(s)
  {
    if s != "" {
      UpperOfAscii(u, s[1..]);
      assert Capitals(s) == [AsciiUpper(s[0])] + Capitals(s[1..]);
    }
  }

  /** Nothing but ASCII blanks. */
  ghost predicate Blank(u: Unicode, s: string) {
    forall i | 0 <= i < |s| :: s[i] < '\U{80}' && u.white(s[i])
  }

  /** A word of ASCII characters other than blanks. */
  ghost predicate Word(u: Unicode, s: string) {
    s != "" && forall i | 0 <= i < |s| :: s[i] < '\U{80}' && !u.white(s[i])
  }

  lemma RunEndsAt(p: char -> bool, s: string, i: nat, e: nat)
    requires i <= e <= |s| && (forall k | i <= k < e :: p(s[k])) && (e < |s| ==> !p(s[e]))
    ensures RunEnd(p, s, i) == e
  {
  }

  lemma FirstWordIs(u: Unicode, blanks: string, word: string, rest: string)
    requires (forall i | 0 <= i < |blanks| :: u.white(blanks[i])) && word != ""
    requires (forall i | 0 <= i < |word| :: !u.white(word[i])) && (rest != "" ==> u.white(rest[0]))
    ensures FirstWord(u, blanks + word + rest) == word
  {
    hide RunEnd;
    var s := blanks + word + rest;
    var b, e := |blanks|, |blanks| + |word|;
    forall k | b <= k < e
      ensures !u.white(s[k])
    {
      assert s[k] == word[k - b];
    }
    RunEndsAt(u.white, s, 0, b);
    RunEndsAt(c => !u.white(c), s, b, e);
    assert s[b..e] == word;
  }

  /** The first word of a statement, in whatever case and behind whatever blanks, tells its kind. */
  lemma KindByFirstWord(u: Unicode, blanks: string, word: string, rest: string)
    requires Standard(u) && Blank(u, blanks) && Word(u, word)
    requires rest != "" ==> rest[0] < '\U{80}' && u.white(rest[0])
    ensures var (kind, w) := (KindOf(u, blanks + word + rest), Capitals(word));
      && (kind == Query <==> w == "SELECT" || w == "WITH")
      && (kind == Dml <==> w == "INSERT" || w == "UPDATE" || w == "DELETE" || w == "MERGE")
      && (kind == Ddl <==> w == "CREATE" || w == "ALTER" || w == "DROP" || w == "GRANT" || w == "REVOKE"
                           || w == "ANALYZE" || w == "AUDIT" || w == "COMMENT" || w == "TRUNCATE")
      && (kind == PlSql <==> w == "DECLARE" || w == "BEGIN" || w == "CALL")
  {
    hide FirstWord, Upper;
    UpperJoins(u, blanks + word, rest);
    UpperJoins(u, blanks, word);
    UpperOfAscii(u, blanks);
    UpperOfAscii(u, word);
    UpperOfRest(u, rest);
    CapitalsClass(u, blanks);
    CapitalsClass(u, word);
    FirstWordIs(u, Capitals(blanks), Capitals(word), Upper(u, rest));
  }

  lemma UpperOfRest(u: Unicode, rest: string)
    requires Standard(u) && (rest != "" ==> rest[0] < '\U{80}' && u.white(rest[0]))
    ensures var r := Upper(u, rest); r != "" ==> u.white(r[0])
  {
  }

  /** Upper case changes no blank and makes none. */
  lemma CapitalsClass(u: Unicode, s: string)
    requires Standard(u) && Ascii(s)
    ensures forall i | 0 <= i < |s| :: u.white(Capitals(s)[i]) == u.white(s[i])
  {
  }

  /** Blanks alone are no statement. */
  lemma BlankIsUnknown(u: Unicode, blanks: string)
    requires Standard(u) && Blank(u, blanks)
    ensures KindOf(u, blanks) == Unknown
  {
    hide RunEnd, Upper;
    UpperOfAscii(u, blanks);
    CapitalsClass(u, blanks);
    RunEndsAt(u.white, Capitals(blanks), 0, |blanks|);
    RunEndsAt(c => !u.white(c), Capitals(blanks), |blanks|, |blanks|);
  }

  // ---- Names behind a colon ------------------------------------------------------------

  /** From `start` on there are blanks, then `w`, then `rest`. */
  ghost predicate Reads3(u: Unicode, s: string, start: nat, blanks: string, w: string, rest: string) {
    && start <= |s| && s[start..] == blanks + w + rest
    && forall i | 0 <= i < |blanks| :: u.white(blanks[i])
  }

  lemma BlanksPassed(u: Unicode, s: string, start: nat, blanks: string, w: string, rest: string)
    requires Reads3(u, s, start, blanks, w, rest) && (w != "" ==> !u.white(w[0])) && (w == "" ==> rest == "")
    ensures var i := start + |blanks|;
      RunEnd(u.white, s, start) == i && i + |w| <= |s| && s[i..] == w + rest && s[i..i + |w|] == w
      && |s| == i + |w| + |rest| && (forall k | 0 <= k < |w| :: s[i + k] == w[k]) && (rest != "" ==> s[i + |w|] == rest[0])
  {
    hide RunEnd;
    var i := start + |blanks|;
    var all := blanks + w + rest;
    assert |s| - start == |all|;
    forall k | start <= k < i
      ensures u.white(s[k])
    {
      assert s[k] == s[start..][k - start] == all[k - start] == blanks[k - start];
    }
    assert s[i..] == s[start..][|blanks|..] == w + rest;
    forall k | 0 <= k < |w|
      ensures s[i + k] == w[k]
    {
      assert s[i..][k] == (w + rest)[k];
    }
    if rest != "" {
      assert s[i..][|w|] == (w + rest)[|w|];
    }
    RunEndsAt(u.white, s, start, i);
  }

  /** A regular name: a letter, then letters, digits, `_`, `$` and `#`, in upper case. */
  lemma RegularName(u: Unicode, s: string, start: nat, blanks: string, name: string, rest: string)
    requires Reads3(u, s, start, blanks, name, rest) && name != ""
    requires !u.white(name[0]) && u.alphabetic(name[0]) && name[0] != '"' && !('0' <= name[0] <= '9')
    requires forall i | 0 <= i < |name| :: u.alphanumeric(name[i]) || name[i] == '_' || name[i] == '$' || name[i] == '#'
    requires rest != "" ==> !(u.alphanumeric(rest[0]) || rest[0] == '_' || rest[0] == '$' || rest[0] == '#')
    ensures NameAt(u, s, start) == Upper(u, name)
    ensures Standard(u) && Ascii(name) ==> NameAt(u, s, start) == Capitals(name)
  {
    hide RunEnd, Upper, Standard, Ascii, NameChar, Reads3;
    BlanksPassed(u, s, start, blanks, name, rest);
    var i := start + |blanks|;
    assert s[i + 0] == name[0];
    NameCharsEnd(u, s, i, name, rest);
    if Standard(u) && Ascii(name) {
      UpperOfAscii(u, name);
    }
  }

  lemma NameCharsEnd(u: Unicode, s: string, i: nat, name: string, rest: string)
    requires i + |name| <= |s| && |s| == i + |name| + |rest| && (forall k | 0 <= k < |name| :: s[i + k] == name[k])
    requires rest != "" ==> s[i + |name|] == rest[0]
    requires forall i | 0 <= i < |name| :: u.alphanumeric(name[i]) || name[i] == '_' || name[i] == '$' || name[i] == '#'
    requires rest != "" ==> !(u.alphanumeric(rest[0]) || rest[0] == '_' || rest[0] == '$' || rest[0] == '#')
    ensures RunEnd(NameChar(u), s, i) == i + |name|
  {
    hide RunEnd;
    forall k | i <= k < i + |name|
      ensures NameChar(u)(s[k])
    {
      assert s[i + (k - i)] == name[k - i];
    }
    RunEndsAt(NameChar(u), s, i, i + |name|);
  }

  /** A number. */
  lemma NumericName(u: Unicode, s: string, start: nat, blanks: string, name: string, rest: string)
    requires Reads3(u, s, start, blanks, name, rest) && name != "" && !u.white(name[0])
    requires (forall i | 0 <= i < |name| :: '0' <= name[i] <= '9') && (rest != "" ==> !('0' <= rest[0] <= '9'))
    ensures NameAt(u, s, start) == name
  {
    hide RunEnd;
    BlanksPassed(u, s, start, blanks, name, rest);
    var i := start + |blanks|;
    assert s[i] == name[0];
    forall k | i <= k < i + |name|
      ensures Texts.IsDigit(s[k])
    {
      assert s[i + (k - i)] == name[k - i];
    }
    RunEndsAt(Texts.IsDigit, s, i, i + |name|);
  }

  /** A quoted name is what stands between the quotes, as it is written. */
  lemma QuotedName(u: Unicode, s: string, start: nat, blanks: string, name: string, rest: string)
    requires Reads3(u, s, start, blanks, "\"" + name, rest) && !u.white('"')
    requires (forall i | 0 <= i < |name| :: name[i] != '"') && (rest != "" ==> rest[0] == '"')
    ensures NameAt(u, s, start) == name
  {
    hide RunEnd;
    var w := "\"" + name;
    BlanksPassed(u, s, start, blanks, w, rest);
    var i := start + |blanks|;
    assert s[i] == w[0] && s[i + 1..i + |w|] == s[i..i + |w|][1..] == name;
    forall k | i + 1 <= k < i + |w|
      ensures s[k] != '"'
    {
      assert s[i + (k - i)] == w[k - i] == name[k - i - 1];
    }
    RunEndsAt(c => c != '"', s, i + 1, i + |w|);
  }

  /** Anything else is no name. */
  lemma NoName(u: Unicode, s: string, start: nat, blanks: string, w: string, rest: string)
    requires Reads3(u, s, start, blanks, w, rest) && |w| <= 1 && (w == "" ==> rest == "")
    requires w != "" ==> !u.white(w[0]) && w[0] != '"' && !('0' <= w[0] <= '9') && !u.alphabetic(w[0])
    ensures NameAt(u, s, start) == ""
  {
    hide RunEnd;
    BlanksPassed(u, s, start, blanks, w, rest);
    if w != "" {
      assert s[start + |blanks|] == w[0];
    }
  }

  // ---- UTF-8 ---------------------------------------------------------------------------

  /** A character in UTF-8 (RFC 3629, section 3). */
  function Encoded(c: char): seq<Bytes.byte> {
    var n := c as int;
    if n < 0x80 then [n]
    else if n < 0x800 then [0xC0 + n / 0x40, 0x80 + n % 0x40]
    else if n < 0x1_0000 then [0xE0 + n / 0x1000, 0x80 + n / 0x40 % 0x40, 0x80 + n % 0x40]
    else [0xF0 + n / 0x4_0000, 0x80 + n / 0x1000 % 0x40, 0x80 + n / 0x40 % 0x40, 0x80 + n % 0x40]
  }

  function EncodedText(s: string): seq<Bytes.byte> {
    if s == "" then [] else Encoded(s[0]) + EncodedText(s[1..])
  }

  /** A name is skipped by the length of its encoding. */
  lemma {:induction false} LengthOfEncoding(s: string)
    ensures |EncodedText(s)| == ByteLen(s)
  {
    if s != "" {
      LengthOfEncoding(s[1..]);
    }
  }

  lemma OneEncoded(c: char, more: seq<Bytes.byte>)
    ensures Reads.Utf8(Encoded(c) + more) == Reads.Utf8(more)
  {
    var n: int, w, b := c as int, Encoded(c), Encoded(c) + more;
    assert b[|w|..] == more;
    assert n < 0xD800 || 0xE000 <= n < 0x11_0000;
    if n < 0x80 {
    } else if n < 0x800 {
      TwoParts(n);
    } else if n < 0x1_0000 {
      ThreeParts(n);
    } else {
      FourParts(n);
    }
  }

  lemma TwoParts(n: int)
    requires 0x80 <= n < 0x800
    ensures 2 <= n / 0x40 < 0x20
  {
  }

  lemma ThreeParts(n: int)
    requires 0x800 <= n < 0x1_0000 && (n < 0xD800 || 0xE000 <= n)
    ensures var (a, b) := (n / 0x1000, n / 0x40 % 0x40);
      a < 16 && (a == 0 ==> b >= 0x20) && (a == 13 ==> b < 0x20)
  {
    var m := n / 0x40;
    assert n / 0x1000 == m / 0x40;
  }

  lemma FourParts(n: int)
    requires 0x1_0000 <= n < 0x11_0000
    ensures var (a, b) := (n / 0x4_0000, n / 0x1000 % 0x40);
      a < 5 && (a == 0 ==> b >= 0x10) && (a == 4 ==> b < 0x10)
  {
    var m := n / 0x1000;
    assert n / 0x4_0000 == m / 0x40;
  }

  /** Every text in UTF-8 passes the check. */
  lemma {:induction false} EncodingIsValid(s: string)
    ensures Reads.Utf8(EncodedText(s))
  {
    hide Encoded;
    if s != "" {
      EncodingIsValid(s[1..]);
      OneEncoded(s[0], EncodedText(s[1..]));
    }
  }

  /** What passes the check is some text in UTF-8. */
  lemma {:induction false} ValidIsEncoding(b: seq<Bytes.byte>) returns (s: string)
    requires Reads.Utf8(b)
    ensures b == EncodedText(s)
    decreases |b|
  {
    hide Encoded;
    if b == [] {
      s := "";
    } else {
      var c, n := FirstEncoded(b);
      var rest := ValidIsEncoding(b[n..]);
      s := [c] + rest;
      assert s[1..] == rest && b == b[..n] + b[n..];
    }
  }

  lemma FirstEncoded(b: seq<Bytes.byte>) returns (c: char, n: nat)
    requires b != [] && Reads.Utf8(b)
    ensures 0 < n <= |b| && b[..n] == Encoded(c) && Reads.Utf8(b[n..])
  {
    if b[0] < 0x80 {
      n := 1;
      c := b[0] as char;
    } else if b[0] < 0xE0 {
      n := 2;
      var x: int, y: int := b[0] - 0xC0, b[1] - 0x80;
      var v := x * 0x40 + y;
      c := v as char;
      assert v / 0x40 == x && v % 0x40 == y;
    } else if b[0] < 0xF0 {
      n := 3;
      var x: int, y: int, z: int := b[0] - 0xE0, b[1] - 0x80, b[2] - 0x80;
      ThreeBack(x, y, z);
      c := ((x * 0x40 + y) * 0x40 + z) as char;
    } else {
      n := 4;
      var x: int, y: int, z: int, w: int := b[0] - 0xF0, b[1] - 0x80, b[2] - 0x80, b[3] - 0x80;
      FourBack(x, y, z, w);
      c := (((x * 0x40 + y) * 0x40 + z) * 0x40 + w) as char;
    }
  }

  lemma ThreeBack(a: int, b: int, c: int)
    requires 0 <= a < 16 && 0 <= b < 0x40 && 0 <= c < 0x40
    ensures var v := (a * 0x40 + b) * 0x40 + c;
      v / 0x1000 == a && v / 0x40 % 0x40 == b && v % 0x40 == c
  {
    var v := (a * 0x40 + b) * 0x40 + c;
    assert v / 0x40 == a * 0x40 + b;
    assert v / 0x1000 == (v / 0x40) / 0x40;
  }

  lemma FourBack(a: int, b: int, c: int, d: int)
    requires 0 <= a < 5 && 0 <= b < 0x40 && 0 <= c < 0x40 && 0 <= d < 0x40
    ensures var v := ((a * 0x40 + b) * 0x40 + c) * 0x40 + d;
      v / 0x4_0000 == a && v / 0x1000 % 0x40 == b && v / 0x40 % 0x40 == c && v % 0x40 == d
  {
    var v := ((a * 0x40 + b) * 0x40 + c) * 0x40 + d;
    assert v / 0x40 == (a * 0x40 + b) * 0x40 + c;
    assert v / 0x1000 == (v / 0x40) / 0x40 == a * 0x40 + b;
    assert v / 0x4_0000 == (v / 0x1000) / 0x40;
  }
}
