/** Decimal numerals and searching in text. */
module Texts {
  import opened Bytes
  import opened Wrappers

  /** The bytes of an ASCII text. */
  function Ascii(s: string): (b: seq<byte>)
    ensures |b| == |s|
  {
    seq(|s|, i requires 0 <= i < |s| => if s[i] < '\U{80}' then s[i] as int else 0)
  }

  predicate IsDigit(c: char) {
    '0' <= c <= '9'
  }

  function DigitValue(c: char): (d: nat)
    requires IsDigit(c)
    ensures d < 10
  {
    (c - '0') as int
  }

  function DigitChar(d: nat): (c: char)
    requires d < 10
    ensures IsDigit(c) && DigitValue(c) == d
  {
    '0' + d as char
  }

  /** A number in decimal, without leading zeros. */
  function Decimal(n: nat): (s: string)
    ensures |s| >= 1 && forall i | 0 <= i < |s| :: IsDigit(s[i])
  {
    (if n < 10 then [] else Decimal(n / 10)) + [DigitChar(n % 10)]
  }

  /** The value of a string of digits. */
  function Value(s: string): (r: Option<nat>) {
    if s == "" then Some(0)
    else
      var c := s[|s| - 1];
      match Value(s[..|s| - 1])
      case None => None
      case Some(n) => if IsDigit(c) then Some(10 * n + DigitValue(c)) else None
  }

  /** `str::parse` for an unsigned type with the given greatest value: digits, after an optional
      plus sign. */
  function ParseUnsigned(s: string, max: nat): (r: Option<nat>)
    ensures r.Some? ==> r.value <= max
  {
    var digits := if s != "" && s[0] == '+' then s[1..] else s;
    match Value(digits)
    case Some(n) => if digits != "" && n <= max then Some(n) else None
    case None => None
  }

  lemma ValueSnoc(front: string, c: char)
    requires Value(front).Some? && IsDigit(c)
    ensures Value(front + [c]) == Some(10 * Value(front).value + DigitValue(c))
  {
    assert (front + [c])[..|front|] == front;
  }

  lemma {:induction false} ValueOfDecimal(n: nat)
    ensures Value(Decimal(n)) == Some(n)
  {
    hide Value, DigitChar, IsDigit, DigitValue;
    var front := if n < 10 then "" else Decimal(n / 10);
    if n >= 10 {
      ValueOfDecimal(n / 10);
    } else {
      ValueOfNothing();
    }
    ValueSnoc(front, DigitChar(n % 10));
  }

  lemma ValueOfNothing()
    ensures Value("") == Some(0)
  {
  }

  lemma ParseOfDecimal(n: nat, max: nat)
    requires n <= max
    ensures ParseUnsigned(Decimal(n), max) == Some(n)
  {
    ValueOfDecimal(n);
    assert IsDigit(Decimal(n)[0]);
  }

  lemma {:induction false} ValueNeedsDigits(s: string, i: nat)
    requires i < |s| && !IsDigit(s[i])
    ensures Value(s) == None
    decreases |s|
  {
    if i < |s| - 1 {
      ValueNeedsDigits(s[..|s| - 1], i);
    }
  }

  /** A number may have one plus sign in front and must fit; anything but digits is refused, and so is
      the empty text. */
  lemma NumbersParsed(n: nat, max: nat, s: string, i: nat)
    ensures ParseUnsigned(Decimal(n), max) == if n <= max then Some(n) else None
    ensures ParseUnsigned("+" + Decimal(n), max) == if n <= max then Some(n) else None
    ensures ParseUnsigned("", max) == None && ParseUnsigned("+", max) == None
    ensures i < |s| && !IsDigit(s[i]) && (i > 0 || s[i] != '+') ==> ParseUnsigned(s, max) == None
  {
    hide Value;
    var d := Decimal(n);
    ValueOfDecimal(n);
    assert IsDigit(d[0]) && ("+" + d)[1..] == d && "+"[1..] == "";
    if i < |s| && !IsDigit(s[i]) && (i > 0 || s[i] != '+') {
      if s[0] == '+' {
        ValueNeedsDigits(s[1..], i - 1);
      } else {
        ValueNeedsDigits(s, i);
      }
    }
  }

  // ---- Searching -----------------------------------------------------------------------

  /** Where `c` first occurs from `i` on. */
  function FindChar(s: string, c: char, i: nat := 0): (r: Option<nat>)
    ensures r.Some? ==> i <= r.value < |s| && s[r.value] == c && forall k | i <= k < r.value :: s[k] != c
    ensures r.None? ==> forall k | i <= k < |s| :: s[k] != c
    decreases |s| - i
  {
    if i >= |s| then None
    else if s[i] == c then Some(i) else FindChar(s, c, i + 1)
  }

  predicate Occurs(s: string, w: string, i: nat) {
    i + |w| <= |s| && s[i..i + |w|] == w
  }

  /** Where `w` first occurs from `i` on. */
  function FindText(s: string, w: string, i: nat := 0): (r: Option<nat>)
    ensures r.Some? ==> i <= r.value && Occurs(s, w, r.value) && forall k | i <= k < r.value :: !Occurs(s, w, k)
    ensures r.None? ==> forall k | i <= k :: !Occurs(s, w, k)
    decreases |s| - i
  {
    if i + |w| > |s| then None
    else if Occurs(s, w, i) then Some(i) else FindText(s, w, i + 1)
  }

  lemma FirstChar(s: string, c: char, i: nat)
    requires i < |s| && s[i] == c && forall k | 0 <= k < i :: s[k] != c
    ensures FindChar(s, c) == Some(i)
  {
  }

  lemma FirstText(s: string, w: string, i: nat)
    requires Occurs(s, w, i) && forall k | 0 <= k < i :: !Occurs(s, w, k)
    ensures FindText(s, w) == Some(i)
  {
  }

  /** The pieces between the separators. */
  function Split(s: string, c: char): (ps: seq<string>)
    ensures |ps| >= 1
    decreases |s|
  {
    match FindChar(s, c)
    case None => [s]
    case Some(i) => [s[..i]] + Split(s[i + 1..], c)
  }
}
