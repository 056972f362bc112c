/** Which code and which text an error message comes to, said of the bytes alone. */
module ErrorTexts {
  import opened Bytes
  import opened ErrorMessages
  import opened Texts
  import opened Wrappers

  /** `ORA-` stands at `i`. */
  predicate Mentions(s: seq<byte>, i: nat) {
    i + 4 <= |s| && s[i] == 79 && s[i + 1] == 82 && s[i + 2] == 65 && s[i + 3] == 45
  }

  ghost predicate NamesError(s: seq<byte>) {
    exists i: nat :: Mentions(s, i)
  }

  /** What ends a line: a line feed, a group separator or a zero. */
  predicate Stops(b: byte) {
    b == 10 || b == 29 || b == 0
  }

  /** The first `ORA-` stands at `i`, the five digits `d` follow, and the line goes on up to `e`. */
  ghost predicate NamedAt(s: seq<byte>, i: nat, d: seq<nat>, e: nat) {
    && Mentions(s, i) && (forall j: nat | j < i :: !Mentions(s, j))
    && |d| == 5 && i + 9 <= e <= |s|
    && (forall k: nat | k < 5 :: d[k] < 10 && s[i + 4 + k] == 48 + d[k])
    && (forall k: nat | i <= k < e :: !Stops(s[k])) && (e < |s| ==> Stops(s[e]))
  }

  /** The number that five decimal digits denote. */
  function FiveDigits(d: seq<nat>): nat
    requires |d| == 5
  {
    10000 * d[0] + 1000 * d[1] + 100 * d[2] + 10 * d[3] + d[4]
  }

  /** What a failure says, its own code and text being those given, in the response `s`: these, if
      the code is zero or the text names an Oracle error; or else the first Oracle error that is
      named in the response, if there is one and its line is not blank. */
  ghost predicate Tells(t: TextRules, s: seq<byte>, code: nat, text: Option<Text>, c: nat, m: Option<Text>) {
    if code == 0 || (text.Some? && NamesError(text.value)) then c == code && m == text
    else
      && (forall i: nat, d, e: nat | NamedAt(s, i, d, e) ::
            var x := t.trim(t.lossy(s[i..e]));
            if x == [] then c == code && m == text else c == FiveDigits(d) && m == Some(x))
      && ((forall i: nat, d, e: nat :: !NamedAt(s, i, d, e)) ==> c == code && m == text)
  }

  // ---- The search and the predicates ---------------------------------------------------

  lemma MentionIsOra(s: seq<byte>, i: nat)
    ensures Mentions(s, i) <==> i + 4 <= |s| && s[i..i + 4] == ORA
  {
    if i + 4 <= |s| {
      var w := s[i..i + 4];
      assert w[0] == s[i] && w[1] == s[i + 1] && w[2] == s[i + 2] && w[3] == s[i + 3];
      if Mentions(s, i) {
        assert w == ORA;
      }
    }
  }

  lemma {:induction false} FindFrom(s: seq<byte>, i: nat)
    ensures match FindOra(s, i)
      case Some(k) => i <= k && Mentions(s, k) && forall j: nat | i <= j < k :: !Mentions(s, j)
      case None => forall j: nat | i <= j :: !Mentions(s, j)
    decreases |s| - i
  {
    hide Mentions;
    MentionIsOra(s, i);
    if i + 4 > |s| {
      forall j: nat | i <= j
        ensures !Mentions(s, j)
      {
        MentionIsOra(s, j);
      }
    } else if s[i..i + 4] != ORA {
      FindFrom(s, i + 1);
    }
  }

  lemma NamesExactly(text: Option<Text>)
    ensures Names(text) <==> text.Some? && NamesError(text.value)
  {
    hide Mentions, FindOra;
    if text.Some? {
      FindFrom(text.value, 0);
      assert NamesError(text.value) <==> FindOra(text.value, 0).Some?;
    }
  }

  lemma {:induction false} LineStops(s: seq<byte>, i: nat, e: nat)
    requires i <= e <= |s| && (forall k: nat | i <= k < e :: !Stops(s[k])) && (e < |s| ==> Stops(s[e]))
    ensures LineEnd(s, i) == e
    decreases e - i
  {
    if i < e {
      LineStops(s, i + 1, e);
    }
  }

  lemma {:induction false} LineIsStopped(s: seq<byte>, i: nat)
    requires i <= |s|
    ensures var e := LineEnd(s, i);
      (forall k: nat | i <= k < e :: !Stops(s[k])) && (e < |s| ==> Stops(s[e]))
    decreases |s| - i
  {
    if i < |s| && s[i] !in {10, 29, 0} {
      LineIsStopped(s, i + 1);
    }
  }

  lemma DecimalOfFive(s: seq<byte>, p: nat, d: seq<nat>)
    requires |d| == 5 && p + 5 <= |s| && forall k: nat | k < 5 :: d[k] < 10 && s[p + k] == 48 + d[k]
    ensures forall k | p <= k < p + 5 :: IsDecimal(s[k])
    ensures DecimalAt(s, p, 5) == FiveDigits(d)
  {
    forall k | p <= k < p + 5
      ensures IsDecimal(s[k])
    {
      assert d[k - p] < 10 && s[p + (k - p)] == 48 + d[k - p];
    }
    assert DecimalAt(s, p, 1) == d[0];
    assert DecimalAt(s, p, 2) == 10 * d[0] + d[1];
    assert DecimalAt(s, p, 3) == 100 * d[0] + 10 * d[1] + d[2];
    assert DecimalAt(s, p, 4) == 1000 * d[0] + 100 * d[1] + 10 * d[2] + d[3];
  }

  /** The code and the text that are found in a response are those of the first name in it. */
  lemma FoundAt(t: TextRules, s: seq<byte>, i: nat, d: seq<nat>, e: nat)
    requires NamedAt(s, i, d, e)
    ensures OracleText(t, s) ==
      var x := t.trim(t.lossy(s[i..e]));
      if x == [] then None else Some((FiveDigits(d), x))
  {
    hide Mentions, FindOra, LineEnd, DecimalAt, FiveDigits;
    FindFrom(s, 0);
    LineStops(s, i, e);
    DecimalOfFive(s, i + 4, d);
  }

  function DigitsAt(s: seq<byte>, p: nat): (d: seq<nat>)
    requires p + 5 <= |s| && forall k | p <= k < p + 5 :: IsDecimal(s[k])
    ensures |d| == 5 && forall k: nat | k < 5 :: d[k] < 10 && s[p + k] == 48 + d[k]
  {
    assert IsDecimal(s[p]) && IsDecimal(s[p + 1]) && IsDecimal(s[p + 2]) && IsDecimal(s[p + 3]) && IsDecimal(s[p + 4]);
    [s[p] as int - 48, s[p + 1] as int - 48, s[p + 2] as int - 48, s[p + 3] as int - 48, s[p + 4] as int - 48]
  }

  lemma FoundIsNamed(t: TextRules, s: seq<byte>) returns (i: nat, d: seq<nat>, e: nat)
    requires OracleText(t, s).Some?
    ensures NamedAt(s, i, d, e)
  {
    hide FindOra, LineEnd, DecimalAt;
    FindFrom(s, 0);
    i := FindOra(s, 0).value;
    d := DigitsAt(s, i + 4);
    e := LineEnd(s, i);
    LineIsStopped(s, i);
    NineCharacters(s, i, d, e);
  }

  /** The line does not end within the name. */
  lemma NineCharacters(s: seq<byte>, i: nat, d: seq<nat>, e: nat)
    requires Mentions(s, i) && |d| == 5 && i + 9 <= |s| && i <= e <= |s|
    requires forall k: nat | k < 5 :: d[k] < 10 && s[i + 4 + k] == 48 + d[k]
    requires e < |s| ==> Stops(s[e])
    ensures e >= i + 9
  {
    forall k: nat | i <= k < i + 9
      ensures !Stops(s[k])
    {
      if k >= i + 4 {
        assert d[k - i - 4] < 10 && s[i + 4 + (k - i - 4)] == 48 + d[k - i - 4];
      }
    }
  }

  /** The model's choice of code and text is the one described, and no other is. */
  lemma NamedExactly(t: TextRules, s: seq<byte>, code: nat, text: Option<Text>, c: nat, m: Option<Text>)
    ensures Tells(t, s, code, text, c, m) <==> (c, m) == Named(t, s, code, text)
  {
    hide Mentions, OracleText, Names, FiveDigits, NamesError;
    NamesExactly(text);
    forall i: nat, d, e: nat | NamedAt(s, i, d, e)
      ensures OracleText(t, s) ==
        var x := t.trim(t.lossy(s[i..e]));
        if x == [] then None else Some((FiveDigits(d), x))
    {
      FoundAt(t, s, i, d, e);
    }
    if OracleText(t, s).Some? {
      var i, d, e := FoundIsNamed(t, s);
      assert NamedAt(s, i, d, e);
    }
  }

  /** In a response that names no error at all a failure keeps its own code and text. */
  lemma NothingNamed(t: TextRules, s: seq<byte>, code: nat, text: Option<Text>)
    requires !NamesError(s)
    ensures Tells(t, s, code, text, code, text)
  {
  }

  /** A failed row: its own code, row and text if they were sent, and what the message says of the
      batch if not. */
  lemma RowErrorsTold(l: Lists, code: nat, message: Option<Text>)
    ensures var es := RowErrors(l, code, message);
      && (|es| == |l.codes| || |es| == |l.rows| || |es| == |l.texts|)
      && |es| >= |l.codes| && |es| >= |l.rows| && |es| >= |l.texts|
      && (forall i: nat | i < |l.codes| :: es[i].code == l.codes[i])
      && (forall i: nat | |l.codes| <= i < |es| :: es[i].code == code)
      && (forall i: nat | i < |l.rows| :: es[i].row == l.rows[i])
      && (forall i: nat | |l.rows| <= i < |es| :: es[i].row == i)
      && (forall i: nat | i < |l.texts| && l.texts[i] != [] :: es[i].message == l.texts[i])
      && (forall i: nat | i < |es| && (i < |l.texts| ==> l.texts[i] == []) ::
            es[i].message == message.GetOr(OraText(es[i].code)))
  {
    hide OraText;
  }

  /** A number in `k` decimal digits, zeros in front. */
  function Padded(n: nat, k: nat): string {
    var digits := Decimal(n);
    seq(if |digits| < k then k - |digits| else 0, i => '0') + digits
  }

  lemma PaddedStep(n: nat, d: nat, k: nat)
    requires d < 10 && k >= 1
    ensures Padded(10 * n + d, k + 1) == Padded(n, k) + [DigitChar(d)]
  {
    hide DigitChar;
    var m := 10 * n + d;
    assert m / 10 == n && m % 10 == d;
    if m < 10 {
      assert Decimal(m) == [] + [DigitChar(d)] && Decimal(0) == [] + [DigitChar(0)];
      ZeroDigit();
      assert Padded(m, k + 1) == seq(k, i => '0') + [DigitChar(d)];
      assert seq(k - 1, i => '0') + ['0'] == seq(k, i => '0');
    } else {
      assert Decimal(m) == Decimal(n) + [DigitChar(d)];
    }
  }

  lemma ZeroDigit()
    ensures DigitChar(0) == '0'
  {
  }

  lemma PaddedFive(d: seq<nat>)
    requires |d| == 5 && forall k: nat | k < 5 :: d[k] < 10
    ensures Padded(FiveDigits(d), 5)
         == [DigitChar(d[0])] + [DigitChar(d[1])] + [DigitChar(d[2])] + [DigitChar(d[3])] + [DigitChar(d[4])]
  {
    hide Padded, DigitChar;
    PaddedOne(d[0]);
    PaddedStep(d[0], d[1], 1);
    PaddedStep(10 * d[0] + d[1], d[2], 2);
    PaddedStep(100 * d[0] + 10 * d[1] + d[2], d[3], 3);
    PaddedStep(1000 * d[0] + 100 * d[1] + 10 * d[2] + d[3], d[4], 4);
  }

  lemma PaddedOne(d: nat)
    requires d < 10
    ensures Padded(d, 1) == [DigitChar(d)]
  {
    assert Decimal(d) == [] + [DigitChar(d)];
  }

  /** The text that stands in for a missing one: `ORA-` and five digits, for every code of up to
      five. */
  lemma StandInText(d: seq<nat>)
    requires |d| == 5 && forall k: nat | k < 5 :: d[k] < 10
    ensures OraText(FiveDigits(d)) == [79, 82, 65, 45, 48 + d[0], 48 + d[1], 48 + d[2], 48 + d[3], 48 + d[4]]
  {
    hide FiveDigits, Padded, DigitChar;
    var n := FiveDigits(d);
    PaddedFive(d);
    OraOfPadded(n);
    var x := Padded(n, 5);
    forall k: nat | k < 5
      ensures x[k] == DigitChar(d[k]) && x[k] < '\U{80}' && x[k] as int == 48 + d[k]
    {
      DigitCode(d[k]);
    }
    AsciiOra(x);
  }

  lemma DigitCode(d: nat)
    requires d < 10
    ensures DigitChar(d) < '\U{80}' && DigitChar(d) as int == 48 + d
  {
  }

  lemma OraOfPadded(n: nat)
    ensures OraText(n) == Ascii("ORA-" + Padded(n, 5))
  {
    hide Ascii, Decimal;
    var digits := Decimal(n);
    var zeros: string := seq(if |digits| < 5 then 5 - |digits| else 0, i => '0');
    assert "ORA-" + zeros + digits == "ORA-" + (zeros + digits);
  }

  lemma AsciiOra(x: string)
    requires |x| == 5 && forall k: nat | k < 5 :: x[k] < '\U{80}'
    ensures Ascii("ORA-" + x) == [79, 82, 65, 45, x[0] as int, x[1] as int, x[2] as int, x[3] as int, x[4] as int]
  {
    var w := "ORA-" + x;
    assert |w| == 9;
    assert w[4] == x[0] && w[5] == x[1] && w[6] == x[2] && w[7] == x[3] && w[8] == x[4];
  }
}
