/** Finding the bind variables in a statement: what the scanner does, one round of its loop at a
    time. Positions count characters. */
module BindScanning {
  import opened Statements
  import opened Texts

  type Kind = StatementType

  datatype BindInfo = BindInfo(name: string, isReturnBind: bool)

  /** What the scanner asks of each character. */
  datatype Unicode = Unicode(
    upper: char -> string,
    alphabetic: char -> bool,
    alphanumeric: char -> bool,
    white: char -> bool)

  function Upper(u: Unicode, s: string): string {
    if s == [] then [] else u.upper(s[0]) + Upper(u, s[1..])
  }

  /** Number of bytes of a text in UTF-8. */
  function ByteLen(s: string): (n: nat)
    ensures n >= |s|
  {
    if s == [] then 0
    else
      var c := s[0] as int;
      (if c < 0x80 then 1 else if c < 0x800 then 2 else if c < 0x1_0000 then 3 else 4) + ByteLen(s[1..])
  }

  /** Where the run of characters that satisfy `p` ends. */
  function RunEnd(p: char -> bool, s: string, i: nat): (r: nat)
    requires i <= |s|
    ensures i <= r <= |s|
    ensures forall k | i <= k < r :: p(s[k])
    ensures r < |s| ==> !p(s[r])
    decreases |s| - i
  {
    if i < |s| && p(s[i]) then RunEnd(p, s, i + 1) else i
  }

  function NameChar(u: Unicode): char -> bool {
    c => u.alphanumeric(c) || c == '_' || c == '$' || c == '#'
  }

  /** The bind name that starts at `start`, or nothing. */
  function NameAt(u: Unicode, s: string, start: nat): string
    requires start <= |s|
  {
    var i := RunEnd(u.white, s, start);
    if i >= |s| then ""
    else if s[i] == '"' then s[i + 1..RunEnd(c => c != '"', s, i + 1)]
    else if IsDigit(s[i]) then s[i..RunEnd(IsDigit, s, i)]
    else if !u.alphabetic(s[i]) then ""
    else Upper(u, s[i..RunEnd(NameChar(u), s, i)])
  }

  /** `word` stands at `p` with no letter or digit on either side. */
  predicate Matches(u: Unicode, up: string, p: nat, word: string) {
    && p + |word| <= |up|
    && (p > 0 ==> !u.alphanumeric(up[p - 1]))
    && up[p..p + |word|] == word
    && (p + |word| < |up| ==> !u.alphanumeric(up[p + |word|]))
  }

  predicate Pair(s: string, i: nat, a: char, b: char) {
    i + 1 < |s| && s[i] == a && s[i + 1] == b
  }

  predicate Knows(binds: seq<BindInfo>, name: string) {
    exists k | 0 <= k < |binds| :: binds[k].name == name
  }

  datatype State = State(
    pos: nat,
    text: bool,
    block: bool,
    line: bool,
    returning: bool,
    into: bool,
    binds: seq<BindInfo>)
  {
    predicate Code() {
      !text && !block && !line
    }
  }

  const START := State(0, false, false, false, false, false, [])

  /** A round of the loop in code. */
  function CodeStep(u: Unicode, kind: Kind, s: string, up: string, st: State): (r: State)
    requires st.pos < |s|
    ensures st.pos < r.pos
    ensures r.text == st.text && r.block == st.block && r.line == st.line
  {
    var i := st.pos;
    if kind == Dml && !st.returning && Matches(u, up, i, "RETURNING") then st.(returning := true, pos := i + 9)
    else if st.returning && !st.into && Matches(u, up, i, "INTO") then st.(into := true, pos := i + 4)
    else if s[i] == ':' && i + 1 < |s| && NameAt(u, s, i + 1) != "" then
      var name := NameAt(u, s, i + 1);
      var binds := if kind == PlSql && Knows(st.binds, name) then st.binds else st.binds + [BindInfo(name, st.into)];
      st.(binds := binds, pos := i + 1 + ByteLen(name))
    else st.(pos := i + 1)
  }

  /** A round of the loop. */
  function Step(u: Unicode, kind: Kind, s: string, up: string, st: State): (r: State)
    requires st.pos < |s|
    ensures st.pos < r.pos
  {
    var i := st.pos;
    if s[i] == '\'' && !st.block && !st.line then st.(text := !st.text, pos := i + 1)
    else if st.text then st.(pos := i + 1)
    else if Pair(s, i, '-', '-') then st.(line := true, pos := i + 2)
    else if st.line then st.(line := s[i] != '\n', pos := i + 1)
    else if Pair(s, i, '/', '*') then st.(block := true, pos := i + 2)
    else if st.block then
      if Pair(s, i, '*', '/') then st.(block := false, pos := i + 2) else st.(pos := i + 1)
    else CodeStep(u, kind, s, up, st)
  }

  function Scan(u: Unicode, kind: Kind, s: string, up: string, st: State): (r: State)
    decreases |s| - st.pos
  {
    if st.pos >= |s| then st else Scan(u, kind, s, up, Step(u, kind, s, up, st))
  }

  /** What is kept of a scan: the bind list and whether RETURNING INTO was seen. */
  function Outcome(st: State): (seq<BindInfo>, bool) {
    (st.binds, st.into)
  }

  function Binds(u: Unicode, kind: Kind, s: string): (seq<BindInfo>, bool) {
    if kind == Ddl then ([], false) else Outcome(Scan(u, kind, s, Upper(u, s), START))
  }

  // ---- Laws of the list ----------------------------------------------------------------

  ghost predicate Distinct(binds: seq<BindInfo>) {
    forall i, j | 0 <= i < j < |binds| :: binds[i].name != binds[j].name
  }

  ghost predicate ReturnsLast(binds: seq<BindInfo>) {
    forall i, j | 0 <= i < j < |binds| :: binds[i].isReturnBind ==> binds[j].isReturnBind
  }

  ghost predicate Lawful(kind: Kind, st: State) {
    && (kind == PlSql ==> Distinct(st.binds))
    && ReturnsLast(st.binds)
    && (!st.into ==> forall i | 0 <= i < |st.binds| :: !st.binds[i].isReturnBind)
    && (st.into ==> st.returning)
    && (st.returning ==> kind == Dml)
  }

  lemma StepKeepsLaws(u: Unicode, kind: Kind, s: string, up: string, st: State)
    requires st.pos < |s| && Lawful(kind, st)
    ensures Lawful(kind, Step(u, kind, s, up, st))
  {
    hide Matches, NameAt, Pair, ByteLen;
  }

  lemma {:induction false} ScanKeepsLaws(u: Unicode, kind: Kind, s: string, up: string, st: State)
    requires Lawful(kind, st)
    ensures Lawful(kind, Scan(u, kind, s, up, st))
    decreases |s| - st.pos
  {
    hide Lawful, Step;
    if st.pos < |s| {
      StepKeepsLaws(u, kind, s, up, st);
      ScanKeepsLaws(u, kind, s, up, Step(u, kind, s, up, st));
    }
  }

  /** For every text: a PL/SQL block names each bind once, the binds that receive values come
      after all others, and there are none unless the statement is a DML statement in which
      RETURNING INTO was seen. */
  lemma BindListLaws(u: Unicode, kind: Kind, s: string)
    ensures var (binds, returning) := Binds(u, kind, s);
      && (kind == PlSql ==> Distinct(binds))
      && ReturnsLast(binds)
      && (returning ==> kind == Dml)
      && (!returning ==> forall i | 0 <= i < |binds| :: !binds[i].isReturnBind)
  {
    hide Scan;
    ScanKeepsLaws(u, kind, s, Upper(u, s), START);
  }

  // ---- String literals -----------------------------------------------------------------

  /** A text with its quotes doubled. */
  function Doubled(s: string): string {
    if s == "" then "" else (if s[0] == '\'' then "''" else [s[0]]) + Doubled(s[1..])
  }

  /** The SQL literal for a text. */
  function Literal(s: string): string {
    "'" + Doubled(s) + "'"
  }

  lemma OccursSplit(s: string, p: nat, v: string, w: string)
    requires Occurs(s, v + w, p)
    ensures Occurs(s, v, p) && Occurs(s, w, p + |v|)
  {
    var x := s[p..p + |v + w|];
    assert s[p..p + |v|] == x[..|v|] == v;
    assert s[p + |v|..p + |v| + |w|] == x[|v|..] == w;
  }

  lemma OccursHead(s: string, p: nat, w: string)
    requires Occurs(s, w, p) && w != ""
    ensures p < |s| && s[p] == w[0]
    ensures Occurs(s, w[1..], p + 1)
  {
    assert w == [w[0]] + w[1..];
    OccursSplit(s, p, [w[0]], w[1..]);
    assert s[p..p + 1][0] == s[p];
  }

  /** One round inside a string literal. */
  lemma TextStep(u: Unicode, kind: Kind, s: string, up: string, st: State)
    requires st.pos < |s| && !st.block && !st.line
    requires st.text || s[st.pos] == '\''
    ensures Scan(u, kind, s, up, st)
         == Scan(u, kind, s, up, st.(text := st.text != (s[st.pos] == '\''), pos := st.pos + 1))
  {
    hide CodeStep;
  }

  lemma {:induction false} InsideLiteral(u: Unicode, kind: Kind, s: string, up: string, st: State, v: string)
    requires st.text && !st.block && !st.line && Occurs(s, Doubled(v) + "'", st.pos)
    ensures Scan(u, kind, s, up, st)
         == Scan(u, kind, s, up, st.(text := false, pos := st.pos + |Doubled(v)| + 1))
    decreases |v|
  {
    hide Scan, Occurs;
    var w := Doubled(v) + "'";
    OccursHead(s, st.pos, w);
    TextStep(u, kind, s, up, st);
    if v != "" {
      var rest := Doubled(v[1..]) + "'";
      if v[0] == '\'' {
        assert w[1..] == "'" + rest;
        OccursHead(s, st.pos + 1, w[1..]);
        assert w[1..][1..] == rest;
        TextStep(u, kind, s, up, st.(text := false, pos := st.pos + 1));
        InsideLiteral(u, kind, s, up, st.(pos := st.pos + 2), v[1..]);
      } else {
        assert w[1..] == rest;
        InsideLiteral(u, kind, s, up, st.(pos := st.pos + 1), v[1..]);
      }
    }
  }

  /** Whatever text was made a literal, the scanner reads exactly the literal, is back in code
      behind it, and has found nothing in it. */
  lemma LiteralIsTransparent(u: Unicode, kind: Kind, s: string, up: string, st: State, v: string)
    requires st.Code() && Occurs(s, Literal(v), st.pos)
    ensures Scan(u, kind, s, up, st) == Scan(u, kind, s, up, st.(pos := st.pos + |Literal(v)|))
  {
    hide Scan, Occurs, Doubled;
    assert Literal(v) == "'" + (Doubled(v) + "'");
    OccursHead(s, st.pos, Literal(v));
    assert Literal(v)[1..] == Doubled(v) + "'";
    TextStep(u, kind, s, up, st);
    InsideLiteral(u, kind, s, up, st.(text := true, pos := st.pos + 1), v);
  }

  /** The value an SQL string literal denotes and the position behind it. */
  function LiteralValue(s: string, p: nat): (r: (string, nat))
    decreases |s| - p
  {
    if p >= |s| then ("", p)
    else if s[p] != '\'' then
      var (v, q) := LiteralValue(s, p + 1);
      ([s[p]] + v, q)
    else if p + 1 < |s| && s[p + 1] == '\'' then
      var (v, q) := LiteralValue(s, p + 2);
      ("'" + v, q)
    else ("", p + 1)
  }

  /** The literal made for a text denotes that text, unless another quote follows it. */
  lemma {:induction false} LiteralRoundTrip(s: string, p: nat, v: string)
    requires Occurs(s, Doubled(v) + "'", p)
    requires p + |Doubled(v)| + 1 < |s| ==> s[p + |Doubled(v)| + 1] != '\''
    ensures LiteralValue(s, p) == (v, p + |Doubled(v)| + 1)
    decreases |v|
  {
    hide Occurs;
    var w := Doubled(v) + "'";
    OccursHead(s, p, w);
    if v != "" {
      var rest := Doubled(v[1..]) + "'";
      assert v == [v[0]] + v[1..];
      if v[0] == '\'' {
        assert w[1..] == "'" + rest;
        OccursHead(s, p + 1, w[1..]);
        assert w[1..][1..] == rest;
        LiteralRoundTrip(s, p + 2, v[1..]);
      } else {
        assert w[1..] == rest;
        LiteralRoundTrip(s, p + 1, v[1..]);
      }
    }
  }
}

/** The binds of a statement by the rules of SQL: the text is cut into code, string literals of both
    kinds, quoted identifiers, line comments and block comments, and every colon in code that has
    a name behind it is a bind. Here is when the scanner finds the same. */
module SqlLexing {
  import opened BindScanning
  import opened Statements
  import opened Texts
  import opened Wrappers

  // ---- Block comments ------------------------------------------------------------------

  /** Where a block comment entered at `b` is closed: the position of the first closing mark. */
  function CloseAt(s: string, b: nat): (r: Option<nat>)
    ensures r.Some? ==> b <= r.value && Pair(s, r.value, '*', '/')
    ensures r.Some? ==> forall i | b <= i < r.value :: !Pair(s, i, '*', '/')
    ensures r.None? ==> forall i | b <= i :: !Pair(s, i, '*', '/')
    decreases |s| - b
  {
    if b >= |s| then None
    else if Pair(s, b, '*', '/') then Some(b) else CloseAt(s, b + 1)
  }

  /** Where the scanner leaves a block comment, from a position in it; `line` tells whether it
      takes itself to be in a line comment as well. */
  function Leaves(s: string, i: nat, line: bool): (r: Option<nat>)
    ensures r.Some? ==> i + 2 <= r.value <= |s|
    decreases |s| - i
  {
    if i >= |s| then None
    else if Pair(s, i, '-', '-') then Leaves(s, i + 2, true)
    else if line then Leaves(s, i + 1, s[i] != '\n')
    else if Pair(s, i, '/', '*') then Leaves(s, i + 2, false)
    else if Pair(s, i, '*', '/') then Some(i + 2) else Leaves(s, i + 1, false)
  }

  ghost predicate Newline(s: string, i: nat, c: nat) {
    exists e | i <= e < c && e < |s| :: s[e] == '\n'
  }

  ghost predicate DashesEnd(s: string, i: nat, c: nat) {
    forall d | i <= d < c && Pair(s, d, '-', '-') :: Newline(s, d, c)
  }

  /** The comment from `b` to its closing mark at `c` does not end in a slash, and no two dashes
      stand on its last line. */
  ghost predicate Tame(s: string, b: nat, c: nat) {
    && (b < c <= |s| ==> s[c - 1] != '/')
    && DashesEnd(s, b, c)
  }

  lemma {:induction false} LeavesIffTame(s: string, i: nat, line: bool, c: nat)
    requires i <= c && Pair(s, c, '*', '/')
    requires forall k | i <= k < c :: !Pair(s, k, '*', '/')
    ensures Leaves(s, i, line) == Some(c + 2) <==> Tame(s, i, c) && (line ==> Newline(s, i, c))
    decreases |s| - i
  {
    if i == c {
    } else if Pair(s, i, '-', '-') {
      LeavesIffTame(s, i + 2, true, c);
      assert Newline(s, i, c) <==> Newline(s, i + 2, c);
      assert Newline(s, i + 1, c) <==> Newline(s, i + 2, c);
    } else if line {
      LeavesIffTame(s, i + 1, s[i] != '\n', c);
      assert s[i] != '\n' ==> (Newline(s, i, c) <==> Newline(s, i + 1, c));
    } else if Pair(s, i, '/', '*') {
      if i + 1 < c {
        LeavesIffTame(s, i + 2, false, c);
      }
    } else {
      LeavesIffTame(s, i + 1, false, c);
    }
  }

  /** A comment that is never closed is never left. */
  lemma {:induction false} NeverLeaves(s: string, i: nat, line: bool)
    requires CloseAt(s, i).None?
    ensures Leaves(s, i, line).None?
    decreases |s| - i
  {
    if i < |s| {
      if Pair(s, i, '-', '-') {
        CloseAtLater(s, i, i + 2);
        NeverLeaves(s, i + 2, true);
      } else if line {
        NeverLeaves(s, i + 1, s[i] != '\n');
      } else if Pair(s, i, '/', '*') {
        CloseAtLater(s, i, i + 2);
        NeverLeaves(s, i + 2, false);
      } else {
        NeverLeaves(s, i + 1, false);
      }
    }
  }

  lemma CloseAtLater(s: string, i: nat, j: nat)
    requires CloseAt(s, i).None? && i <= j
    ensures CloseAt(s, j).None?
  {
  }

  /** The scanner leaves a block comment where the comment ends if and only if the comment is
      never closed, or does not end in a slash and has no two dashes on its last line. */
  lemma CommentsAgree(s: string, b: nat)
    ensures Leaves(s, b, false) == (match CloseAt(s, b) case Some(c) => Some(c + 2) case None => None)
       <==> (CloseAt(s, b).Some? ==> Tame(s, b, CloseAt(s, b).value))
  {
    match CloseAt(s, b)
    case Some(c) => LeavesIffTame(s, b, false, c);
    case None => NeverLeaves(s, b, false);
  }

  /** One round inside a block comment. */
  lemma BlockStep(u: Unicode, kind: Kind, s: string, up: string, st: State)
    requires st.block && !st.text && st.pos < |s|
    ensures var r := Step(u, kind, s, up, st);
      if !st.line && Pair(s, st.pos, '*', '/')
      then r == st.(block := false, pos := st.pos + 2) && Leaves(s, st.pos, st.line) == Some(r.pos)
      else r == st.(line := r.line, pos := r.pos) && Leaves(s, st.pos, st.line) == Leaves(s, r.pos, r.line)
  {
    hide CodeStep;
  }

  /** What `Leaves` says of a comment is what the scan does with it. */
  lemma {:induction false} ScanLeaves(u: Unicode, kind: Kind, s: string, up: string, st: State)
    requires st.block && !st.text
    ensures match Leaves(s, st.pos, st.line)
      case Some(q) =>
        Scan(u, kind, s, up, st) == Scan(u, kind, s, up, st.(block := false, line := false, pos := q))
      case None => Outcome(Scan(u, kind, s, up, st)) == Outcome(st)
    decreases |s| - st.pos
  {
    hide Step, Pair;
    if st.pos < |s| {
      BlockStep(u, kind, s, up, st);
      if st.line || !Pair(s, st.pos, '*', '/') {
        ScanLeaves(u, kind, s, up, Step(u, kind, s, up, st));
      }
    }
  }

  // ---- Literals and line comments ------------------------------------------------------

  /** Behind the first `c` from `i` on, or the end of the text. */
  function Behind(s: string, i: nat, c: char): (r: nat)
    ensures i <= r <= |s| || r == i
    decreases |s| - i
  {
    if i >= |s| then i
    else if s[i] == c then i + 1 else Behind(s, i + 1, c)
  }

  lemma {:induction false} ScanText(u: Unicode, kind: Kind, s: string, up: string, st: State)
    requires st.text && !st.block && !st.line
    ensures Outcome(Scan(u, kind, s, up, st))
         == Outcome(Scan(u, kind, s, up, st.(text := false, pos := Behind(s, st.pos, '\''))))
    decreases |s| - st.pos
  {
    hide CodeStep;
    if st.pos < |s| && s[st.pos] != '\'' {
      ScanText(u, kind, s, up, Step(u, kind, s, up, st));
    }
  }

  /** One round inside a line comment. */
  lemma LineStep(u: Unicode, kind: Kind, s: string, up: string, st: State)
    requires st.line && !st.block && !st.text && st.pos < |s|
    ensures var r := Step(u, kind, s, up, st);
      && r == st.(line := s[st.pos] != '\n', pos := r.pos)
      && st.pos < r.pos <= |s|
      && Behind(s, st.pos, '\n') == if r.line then Behind(s, r.pos, '\n') else r.pos
  {
    hide CodeStep;
  }

  lemma {:induction false} ScanLine(u: Unicode, kind: Kind, s: string, up: string, st: State)
    requires st.line && !st.block && !st.text
    ensures Outcome(Scan(u, kind, s, up, st))
         == Outcome(Scan(u, kind, s, up, st.(line := false, pos := Behind(s, st.pos, '\n'))))
    decreases |s| - st.pos
  {
    hide Step;
    if st.pos < |s| {
      LineStep(u, kind, s, up, st);
      if s[st.pos] != '\n' {
        ScanLine(u, kind, s, up, Step(u, kind, s, up, st));
      }
    }
  }

  // ---- The reference -------------------------------------------------------------------

  /** The character before `p` belongs to the same word or bind. */
  predicate Glued(u: Unicode, s: string, p: nat) {
    0 < p <= |s| && (NameChar(u)(s[p - 1]) || s[p - 1] == ':')
  }

  /** Where the quote of a literal with a delimiter of its own is, as in `q'[it's]'` or `nq'[it's]'`,
      if one starts at `i`. */
  function AlternativeQuote(u: Unicode, s: string, i: nat): (r: Option<nat>)
    ensures r.Some? ==> i < r.value <= i + 2 && r.value < |s| && s[r.value] == '\''
  {
    if Glued(u, s, i) then None
    else if i + 1 < |s| && s[i] in "qQ" && s[i + 1] == '\'' then Some(i + 1)
    else if i + 2 < |s| && s[i] in "nN" && s[i + 1] in "qQ" && s[i + 2] == '\'' then Some(i + 2)
    else None
  }

  function Closing(open: char): char {
    match open
    case '[' => ']'
    case '{' => '}'
    case '(' => ')'
    case '<' => '>'
    case c => c
  }

  /** Behind the first closing delimiter and quote from `i` on, or the end of the text. */
  function BehindPair(s: string, i: nat, close: char): (r: nat)
    ensures i <= r <= |s| || r == i
    decreases |s| - i
  {
    if i >= |s| then i
    else if Pair(s, i, close, '\'') then i + 2 else BehindPair(s, i + 1, close)
  }

  /** Behind the literal whose quote is at `q`. */
  function AlternativeEnd(s: string, q: nat): (r: nat)
    requires q < |s|
    ensures q < r <= |s|
  {
    if q + 1 == |s| then q + 1 else BehindPair(s, q + 2, Closing(s[q + 1]))
  }

  /** The positions of the code of a text, in order, from a position in code on. */
  function Code(u: Unicode, s: string, i: nat): (ps: seq<nat>)
    ensures forall k | 0 <= k < |ps| :: i <= ps[k] < |s|
    decreases |s| - i
  {
    if i >= |s| then []
    else if s[i] == '\'' then Code(u, s, Behind(s, i + 1, '\''))
    else if s[i] == '"' then Code(u, s, Behind(s, i + 1, '"'))
    else if Pair(s, i, '-', '-') then Code(u, s, Behind(s, i + 2, '\n'))
    else if Pair(s, i, '/', '*') then
      match CloseAt(s, i + 2)
      case Some(c) => Code(u, s, c + 2)
      case None => []
    else
      match AlternativeQuote(u, s, i)
      case Some(q) => Code(u, s, AlternativeEnd(s, q))
      case None => [i] + Code(u, s, i + 1)
  }

  /** Nothing but code starts at `i`. */
  predicate InCode(u: Unicode, s: string, i: nat) {
    && i < |s| && s[i] != '\'' && s[i] != '"'
    && !Pair(s, i, '-', '-') && !Pair(s, i, '/', '*') && AlternativeQuote(u, s, i).None?
  }

  /** A colon with a name behind it. */
  predicate Opens(u: Unicode, s: string, p: nat) {
    p + 1 < |s| && s[p] == ':' && NameAt(u, s, p + 1) != ""
  }

  /** `p` is inside a name that a colon in code before it opened. */
  ghost predicate InName(u: Unicode, s: string, before: seq<nat>, p: nat) {
    exists k | 0 <= k < |before| ::
      Opens(u, s, before[k]) && before[k] < p <= before[k] + |NameAt(u, s, before[k] + 1)|
  }

  ghost predicate Keyword(u: Unicode, s: string, before: seq<nat>, p: nat, word: string) {
    !InName(u, s, before, p) && Matches(u, Upper(u, s), p, word)
  }

  /** RETURNING occurs in this code. */
  ghost predicate HasReturning(u: Unicode, s: string, code: seq<nat>) {
    code != []
    && var before, p := code[..|code| - 1], code[|code| - 1];
      HasReturning(u, s, before) || Keyword(u, s, before, p, "RETURNING")
  }

  /** INTO occurs in this code after RETURNING. */
  ghost predicate HasInto(u: Unicode, s: string, code: seq<nat>) {
    code != []
    && var before, p := code[..|code| - 1], code[|code| - 1];
      HasInto(u, s, before) || (HasReturning(u, s, before) && Keyword(u, s, before, p, "INTO"))
  }

  /** The binds of this code: every name behind a colon, once each in PL/SQL; those after
      RETURNING INTO receive values. */
  ghost function Named(u: Unicode, kind: Kind, s: string, code: seq<nat>): seq<BindInfo> {
    if code == [] then []
    else
      var before, p := code[..|code| - 1], code[|code| - 1];
      var binds := Named(u, kind, s, before);
      if Opens(u, s, p) && (kind == PlSql ==> !Knows(binds, NameAt(u, s, p + 1)))
      then binds + [BindInfo(NameAt(u, s, p + 1), kind == Dml && HasInto(u, s, before))]
      else binds
  }

  ghost function SqlBinds(u: Unicode, kind: Kind, s: string): (seq<BindInfo>, bool) {
    (Named(u, kind, s, Code(u, s, 0)), kind == Dml && HasInto(u, s, Code(u, s, 0)))
  }

  // ---- When the two agree --------------------------------------------------------------

  predicate Letter(c: char) {
    'a' <= c <= 'z' || 'A' <= c <= 'Z'
  }

  function AsciiUpper(c: char): char {
    if 'a' <= c <= 'z' then c - 'a' + 'A' else c
  }

  /** The character classes are those of Unicode as far as ASCII goes. */
  ghost predicate Standard(u: Unicode) {
    forall c: char | c < '\U{80}' ::
      && u.upper(c) == [AsciiUpper(c)]
      && u.alphabetic(c) == Letter(c)
      && u.alphanumeric(c) == (Letter(c) || IsDigit(c))
      && u.white(c) == (c == ' ' || '\t' <= c <= '\r')
  }

  ghost predicate Ascii(s: string) {
    forall i | 0 <= i < |s| :: s[i] < '\U{80}'
  }

  /** No colon in this code has a blank or a double quote behind it. */
  ghost predicate TightColons(u: Unicode, s: string, code: seq<nat>) {
    forall k | 0 <= k < |code| && code[k] + 1 < |s| && s[code[k]] == ':' ::
      s[code[k] + 1] != '"' && !u.white(s[code[k] + 1])
  }

  /** In a quoted identifier from `b` to `e` there is nothing that the scanner would notice. */
  ghost predicate Calm(u: Unicode, s: string, b: nat, e: nat) {
    forall k | b <= k < e && k < |s| ::
      && s[k] != '\'' && !Pair(s, k, '-', '-') && !Pair(s, k, '/', '*') && !Opens(u, s, k)
      && !Matches(u, Upper(u, s), k, "RETURNING") && !Matches(u, Upper(u, s), k, "INTO")
  }

  /** Every block comment that is closed is tame, every quoted identifier is calm, and a literal with
      a delimiter of its own has no quote before its end. */
  ghost predicate Tidy(u: Unicode, s: string, i: nat)
    decreases |s| - i
  {
    if i >= |s| then true
    else if s[i] == '\'' then Tidy(u, s, Behind(s, i + 1, '\''))
    else if s[i] == '"' then
      var e := Behind(s, i + 1, '"');
      Calm(u, s, i + 1, e) && Tidy(u, s, e)
    else if Pair(s, i, '-', '-') then Tidy(u, s, Behind(s, i + 2, '\n'))
    else if Pair(s, i, '/', '*') then
      match CloseAt(s, i + 2)
      case Some(c) => Tame(s, i + 2, c) && Tidy(u, s, c + 2)
      case None => true
    else
      match AlternativeQuote(u, s, i)
      case Some(q) =>
        var e := AlternativeEnd(s, q);
        Behind(s, q + 1, '\'') == e && Tidy(u, s, e)
      case None => Tidy(u, s, i + 1)
  }

  lemma {:induction false} UpperOfAscii(u: Unicode, s: string)
    requires Standard(u) && Ascii(s)
    ensures |Upper(u, s)| == |s| && forall k | 0 <= k < |s| :: Upper(u, s)[k] == AsciiUpper(s[k])
  {
    if s != [] {
      UpperOfAscii(u, s[1..]);
      assert u.upper(s[0]) == [AsciiUpper(s[0])];
    }
  }

  lemma {:induction false} ByteLenOfAscii(s: string)
    requires Ascii(s)
    ensures ByteLen(s) == |s|
  {
    if s != [] {
      ByteLenOfAscii(s[1..]);
    }
  }

  /** A character that neither ends code nor opens a bind. */
  predicate Plain(c: char) {
    c != '\'' && c != '"' && c != '-' && c != '/' && c != ':'
  }

  lemma LetterNameFacts(u: Unicode, s: string, i: nat)
    requires Standard(u) && Ascii(s) && i < |s| && Letter(s[i])
    ensures var n := |NameAt(u, s, i)|;
      && NameAt(u, s, i) == Upper(u, s[i..RunEnd(NameChar(u), s, i)])
      && n == RunEnd(NameChar(u), s, i) - i
      && ByteLen(NameAt(u, s, i)) == n
  {
    hide ByteLen, Upper;
    var w := s[i..RunEnd(NameChar(u), s, i)];
    assert RunEnd(u.white, s, i) == i;
    UpperOfAscii(u, w);
    ByteLenOfAscii(Upper(u, w));
  }

  lemma NumberNameFacts(u: Unicode, s: string, i: nat)
    requires Standard(u) && Ascii(s) && i < |s| && IsDigit(s[i])
    ensures NameAt(u, s, i) == s[i..RunEnd(IsDigit, s, i)] && ByteLen(NameAt(u, s, i)) == RunEnd(IsDigit, s, i) - i
  {
    hide ByteLen;
    assert RunEnd(u.white, s, i) == i;
    ByteLenOfAscii(s[i..RunEnd(IsDigit, s, i)]);
  }

  lemma NameStart(u: Unicode, s: string, p: nat)
    requires Standard(u) && Ascii(s) && Opens(u, s, p) && s[p + 1] != '"' && !u.white(s[p + 1])
    ensures IsDigit(s[p + 1]) || Letter(s[p + 1])
  {
    hide Upper;
    assert RunEnd(u.white, s, p + 1) == p + 1;
  }

  /** A name right behind a colon takes up as many characters of the text as it has itself. */
  lemma NameFacts(u: Unicode, s: string, p: nat)
    requires Standard(u) && Ascii(s) && Opens(u, s, p)
    requires s[p + 1] != '"' && !u.white(s[p + 1])
    ensures var n := |NameAt(u, s, p + 1)|;
      && p + 1 + n <= |s|
      && ByteLen(NameAt(u, s, p + 1)) == n
      && forall k | p < k <= p + n :: Plain(s[k]) && NameChar(u)(s[k])
  {
    hide NameAt, ByteLen, Upper;
    NameStart(u, s, p);
    if IsDigit(s[p + 1]) {
      NumberNameFacts(u, s, p + 1);
    } else {
      LetterNameFacts(u, s, p + 1);
    }
  }

  /** What one more position of code adds. */
  lemma Snoc(u: Unicode, kind: Kind, s: string, before: seq<nat>, p: nat)
    ensures HasReturning(u, s, before + [p]) == (HasReturning(u, s, before) || Keyword(u, s, before, p, "RETURNING"))
    ensures HasInto(u, s, before + [p])
         == (HasInto(u, s, before) || (HasReturning(u, s, before) && Keyword(u, s, before, p, "INTO")))
    ensures Named(u, kind, s, before + [p]) ==
      if Opens(u, s, p) && (kind == PlSql ==> !Knows(Named(u, kind, s, before), NameAt(u, s, p + 1)))
      then Named(u, kind, s, before) + [BindInfo(NameAt(u, s, p + 1), kind == Dml && HasInto(u, s, before))]
      else Named(u, kind, s, before)
  {
    hide Keyword, NameAt, Knows;
    assert (before + [p])[..|before|] == before;
  }

  /** Code behind which the scan stands at `pos`, all names closed. */
  ghost predicate Before(u: Unicode, s: string, pre: seq<nat>, pos: nat) {
    && pos <= |s| && Code(u, s, 0) == pre + Code(u, s, pos)
    && (forall k | 0 <= k < |pre| :: pre[k] < pos)
    && (forall k | 0 <= k < |pre| && Opens(u, s, pre[k]) :: pre[k] + |NameAt(u, s, pre[k] + 1)| < pos)
  }

  ghost predicate Tracks(u: Unicode, kind: Kind, s: string, pre: seq<nat>, st: State) {
    && st.Code()
    && st.binds == Named(u, kind, s, pre)
    && st.returning == (kind == Dml && HasReturning(u, s, pre))
    && st.into == (kind == Dml && HasInto(u, s, pre))
  }

  ghost predicate SameMarks(u: Unicode, kind: Kind, s: string, pre: seq<nat>, pre': seq<nat>) {
    && Named(u, kind, s, pre') == Named(u, kind, s, pre)
    && HasReturning(u, s, pre') == HasReturning(u, s, pre)
    && HasInto(u, s, pre') == HasInto(u, s, pre)
  }

  /** At `p` no bind and no keyword can start. */
  ghost predicate Quiet(u: Unicode, s: string, pre: seq<nat>, p: nat) {
    && p < |s| && Plain(s[p]) && Glued(u, s, p)
    && (InName(u, s, pre, p) || (0 < p <= |Upper(u, s)| && u.alphanumeric(Upper(u, s)[p - 1])))
  }

  lemma QuietStep(u: Unicode, kind: Kind, s: string, pre: seq<nat>, p: nat)
    requires Quiet(u, s, pre, p)
    ensures SameMarks(u, kind, s, pre, pre + [p])
  {
    hide NameAt, Upper;
    Snoc(u, kind, s, pre, p);
  }

  lemma InNameGrows(u: Unicode, s: string, pre: seq<nat>, q: nat, p: nat)
    requires InName(u, s, pre, p)
    ensures InName(u, s, pre + [q], p)
  {
    hide NameAt;
    var k :| 0 <= k < |pre| && Opens(u, s, pre[k]) && pre[k] < p <= pre[k] + |NameAt(u, s, pre[k] + 1)|;
    assert (pre + [q])[k] == pre[k];
  }

  lemma QuietGrows(u: Unicode, s: string, pre: seq<nat>, q: nat, p: nat)
    requires Quiet(u, s, pre, p)
    ensures Quiet(u, s, pre + [q], p)
  {
    hide InName, Plain, Upper;
    if InName(u, s, pre, p) {
      InNameGrows(u, s, pre, q, p);
    }
  }

  /** A run of quiet characters adds nothing. */
  lemma {:induction false} Walk(u: Unicode, kind: Kind, s: string, pre: seq<nat>, i: nat, n: nat)
    returns (pre': seq<nat>)
    requires i + n <= |s| && Code(u, s, 0) == pre + Code(u, s, i)
    requires forall k | 0 <= k < |pre| :: pre[k] < i
    requires forall k | 0 <= k < |pre| && Opens(u, s, pre[k]) :: pre[k] + |NameAt(u, s, pre[k] + 1)| < i + n
    requires forall p | i <= p < i + n :: Quiet(u, s, pre, p)
    ensures Before(u, s, pre', i + n) && SameMarks(u, kind, s, pre, pre')
    decreases n
  {
    hide Code, Quiet, Named, HasReturning, HasInto, NameAt;
    pre' := pre;
    if n > 0 {
      assert Quiet(u, s, pre, i);
      PlainIsCode(u, s, pre, i);
      QuietStep(u, kind, s, pre, i);
      assert pre + ([i] + Code(u, s, i + 1)) == (pre + [i]) + Code(u, s, i + 1);
      forall p | i + 1 <= p < i + n
        ensures Quiet(u, s, pre + [i], p)
      {
        QuietGrows(u, s, pre, i, p);
      }
      pre' := Walk(u, kind, s, pre + [i], i + 1, n - 1);
    }
  }

  lemma PlainIsCode(u: Unicode, s: string, pre: seq<nat>, i: nat)
    requires Quiet(u, s, pre, i)
    ensures Code(u, s, i) == [i] + Code(u, s, i + 1) && !Opens(u, s, i)
  {
    hide InName, NameAt, Upper;
  }

  /** The texts on which scanner and reference are compared. */
  ghost predicate Fair(u: Unicode, s: string) {
    Standard(u) && Ascii(s) && TightColons(u, s, Code(u, s, 0))
  }

  /** A word of ASCII letters at `i`: quiet behind its first letter. */
  lemma WordIsQuiet(u: Unicode, s: string, pre: seq<nat>, i: nat, word: string, p: nat)
    requires Standard(u) && Ascii(s) && i < p < i + |word|
    requires forall k | 0 <= k < |word| :: 'A' <= word[k] <= 'Z'
    requires Matches(u, Upper(u, s), i, word)
    ensures Quiet(u, s, pre, p)
  {
    hide InName, Upper;
    var up := Upper(u, s);
    UpperOfAscii(u, s);
    assert up[i..i + |word|][p - i] == up[p];
    assert up[i..i + |word|][p - 1 - i] == up[p - 1];
  }

  lemma WordStarts(u: Unicode, s: string, i: nat, word: string)
    requires Standard(u) && Ascii(s) && word != "" && 'A' <= word[0] <= 'Z'
    requires Matches(u, Upper(u, s), i, word)
    ensures i + |word| <= |s| && s[i] != ':'
  {
    hide Upper;
    UpperOfAscii(u, s);
    assert Upper(u, s)[i..i + |word|][0] == Upper(u, s)[i];
  }

  lemma NotInName(u: Unicode, s: string, pre: seq<nat>, pos: nat)
    requires Before(u, s, pre, pos)
    ensures !InName(u, s, pre, pos)
  {
    hide Code, NameAt;
  }

  /** A name is quiet. */
  lemma NameIsQuiet(u: Unicode, s: string, pre: seq<nat>, i: nat, p: nat)
    requires Opens(u, s, i) && i < p <= i + |NameAt(u, s, i + 1)| && p < |s| && Plain(s[p])
    requires p - 1 > i ==> NameChar(u)(s[p - 1])
    ensures Quiet(u, s, pre + [i], p)
  {
    hide NameAt, Upper;
    assert (pre + [i])[|pre|] == i;
  }

  /** A round of the loop in code, told apart. */
  datatype Round = OnReturning | OnInto | OnBind | OnOther

  function RoundAt(u: Unicode, kind: Kind, s: string, st: State): Round
    requires st.pos < |s|
  {
    if kind == Dml && !st.returning && Matches(u, Upper(u, s), st.pos, "RETURNING") then OnReturning
    else if st.returning && !st.into && Matches(u, Upper(u, s), st.pos, "INTO") then OnInto
    else if Opens(u, s, st.pos) then OnBind
    else OnOther
  }

  /** In code the scan goes on by the round the position calls for. */
  lemma CodeRound(u: Unicode, kind: Kind, s: string, st: State)
    requires st.Code() && st.pos < |s|
    requires s[st.pos] != '\'' && !Pair(s, st.pos, '-', '-') && !Pair(s, st.pos, '/', '*')
    ensures var r := CodeStep(u, kind, s, Upper(u, s), st);
      && Scan(u, kind, s, Upper(u, s), st) == Scan(u, kind, s, Upper(u, s), r)
      && r == match RoundAt(u, kind, s, st)
        case OnReturning => st.(returning := true, pos := st.pos + 9)
        case OnInto => st.(into := true, pos := st.pos + 4)
        case OnBind =>
          var name := NameAt(u, s, st.pos + 1);
          st.(binds := if kind == PlSql && Knows(st.binds, name) then st.binds
                       else st.binds + [BindInfo(name, st.into)],
              pos := st.pos + 1 + ByteLen(name))
        case OnOther => st.(pos := st.pos + 1)
  {
    hide Matches, NameAt, Upper, ByteLen, Knows;
  }

  /** One position of code, as the reference counts it. */
  lemma Marked(u: Unicode, kind: Kind, s: string, pre: seq<nat>, st: State) returns (st': State)
    requires Fair(u, s) && Before(u, s, pre, st.pos) && Tracks(u, kind, s, pre, st) && st.pos < |s|
    ensures st' == (match RoundAt(u, kind, s, st)
      case OnReturning => st.(returning := true)
      case OnInto => st.(into := true)
      case OnBind =>
        var name := NameAt(u, s, st.pos + 1);
        st.(binds := if kind == PlSql && Knows(st.binds, name) then st.binds else st.binds + [BindInfo(name, st.into)])
      case OnOther => st)
    ensures Tracks(u, kind, s, pre + [st.pos], st')
  {
    hide Matches, NameAt, Upper, Knows, Code, Named, HasReturning, HasInto, InName, TightColons, Standard, Ascii;
    var i := st.pos;
    Snoc(u, kind, s, pre, i);
    NotInName(u, s, pre, i);
    if Matches(u, Upper(u, s), i, "RETURNING") {
      WordStarts(u, s, i, "RETURNING");
    }
    if Matches(u, Upper(u, s), i, "INTO") {
      WordStarts(u, s, i, "INTO");
      NotBoth(u, Upper(u, s), i);
    }
    match RoundAt(u, kind, s, st)
    case OnReturning => st' := st.(returning := true);
    case OnInto => st' := st.(into := true);
    case OnBind =>
      var name := NameAt(u, s, i + 1);
      st' := st.(binds := if kind == PlSql && Knows(st.binds, name) then st.binds
                          else st.binds + [BindInfo(name, st.into)]);
    case OnOther => st' := st;
  }

  lemma FirstLetter(u: Unicode, up: string, i: nat, word: string)
    requires Matches(u, up, i, word) && word != ""
    ensures up[i] == word[0]
  {
    assert up[i..i + |word|][0] == up[i];
  }

  lemma NotBoth(u: Unicode, up: string, i: nat)
    requires Matches(u, up, i, "INTO")
    ensures !Matches(u, up, i, "RETURNING")
  {
    hide Matches;
    FirstLetter(u, up, i, "INTO");
    if Matches(u, up, i, "RETURNING") {
      FirstLetter(u, up, i, "RETURNING");
    }
  }

  lemma CodeHead(u: Unicode, s: string, i: nat)
    requires InCode(u, s, i)
    ensures Code(u, s, i) == [i] + Code(u, s, i + 1)
    ensures Tidy(u, s, i) == Tidy(u, s, i + 1)
  {
    hide Tame;
  }

  lemma {:induction false} TidyRun(u: Unicode, s: string, i: nat, n: nat)
    requires i + n <= |s| && forall p | i <= p < i + n :: Plain(s[p]) && Glued(u, s, p)
    ensures Tidy(u, s, i) == Tidy(u, s, i + n)
    decreases n
  {
    hide Tidy, Code;
    if n > 0 {
      assert Plain(s[i]) && Glued(u, s, i);
      CodeHead(u, s, i);
      TidyRun(u, s, i + 1, n - 1);
    }
  }

  /** How many characters behind its first one a round in code passes over, all of them quiet. */
  lemma RoundLength(u: Unicode, kind: Kind, s: string, pre: seq<nat>, st: State) returns (n: nat)
    requires Fair(u, s) && Before(u, s, pre, st.pos) && st.pos < |s|
    requires Code(u, s, st.pos) == [st.pos] + Code(u, s, st.pos + 1)
    ensures n == match RoundAt(u, kind, s, st)
      case OnReturning => 8
      case OnInto => 3
      case OnBind => ByteLen(NameAt(u, s, st.pos + 1))
      case OnOther => 0
    ensures st.pos + 1 + n <= |s|
    ensures forall p | st.pos < p <= st.pos + n :: Quiet(u, s, pre + [st.pos], p)
    ensures Opens(u, s, st.pos) ==> |NameAt(u, s, st.pos + 1)| <= n
  {
    hide Matches, NameAt, Upper, Code, InName, Standard, Ascii, ByteLen, Quiet;
    var i := st.pos;
    match RoundAt(u, kind, s, st)
    case OnReturning =>
      n := 8;
      WordStarts(u, s, i, "RETURNING");
      forall p | i < p <= i + n ensures Quiet(u, s, pre + [i], p) { WordIsQuiet(u, s, pre + [i], i, "RETURNING", p); }
    case OnInto =>
      n := 3;
      WordStarts(u, s, i, "INTO");
      forall p | i < p <= i + n ensures Quiet(u, s, pre + [i], p) { WordIsQuiet(u, s, pre + [i], i, "INTO", p); }
    case OnBind =>
      assert Code(u, s, 0)[|pre|] == i;
      NameFacts(u, s, i);
      n := |NameAt(u, s, i + 1)|;
      forall p | i < p <= i + n ensures Quiet(u, s, pre + [i], p) { NameIsQuiet(u, s, pre, i, p); }
    case OnOther => n := 0;
  }

  /** A round of the scan in code passes over as much code as the reference finds quiet. */
  lemma CodeAgrees(u: Unicode, kind: Kind, s: string, pre: seq<nat>, st: State)
    returns (pre': seq<nat>, st': State)
    requires Fair(u, s) && Before(u, s, pre, st.pos) && Tracks(u, kind, s, pre, st) && st.pos < |s|
    requires InCode(u, s, st.pos)
    ensures Before(u, s, pre', st'.pos) && Tracks(u, kind, s, pre', st') && st.pos < st'.pos
    ensures Tidy(u, s, st.pos) ==> Tidy(u, s, st'.pos)
    ensures Scan(u, kind, s, Upper(u, s), st) == Scan(u, kind, s, Upper(u, s), st')
  {
    hide Matches, NameAt, Upper, Knows, Code, Named, HasReturning, HasInto, InName, Standard, Ascii, ByteLen, Scan,
      CodeStep, Tidy, Tame, Opens, Plain, Quiet, Glued, AlternativeQuote, Tracks, SameMarks;
    var i := st.pos;
    TracksCode(u, kind, s, pre, st);
    CodeRound(u, kind, s, st);
    st' := CodeStep(u, kind, s, Upper(u, s), st);
    var marked := Marked(u, kind, s, pre, st);
    CodeHead(u, s, i);
    var n := RoundLength(u, kind, s, pre, st);
    assert pre + ([i] + Code(u, s, i + 1)) == (pre + [i]) + Code(u, s, i + 1);
    WalkReady(u, s, pre, i, n);
    pre' := Walk(u, kind, s, pre + [i], i + 1, n);
    TracksOn(u, kind, s, pre + [i], pre', marked, st');
    QuietIsPlain(u, s, pre + [i], i + 1, n);
    TidyRun(u, s, i + 1, n);
  }

  lemma WalkReady(u: Unicode, s: string, pre: seq<nat>, i: nat, n: nat)
    requires Before(u, s, pre, i) && (Opens(u, s, i) ==> |NameAt(u, s, i + 1)| <= n)
    ensures forall k | 0 <= k < |pre + [i]| :: (pre + [i])[k] < i + 1
    ensures forall k | 0 <= k < |pre + [i]| && Opens(u, s, (pre + [i])[k]) ::
      (pre + [i])[k] + |NameAt(u, s, (pre + [i])[k] + 1)| < i + 1 + n
  {
    hide NameAt, Opens, Code;
  }

  lemma TracksCode(u: Unicode, kind: Kind, s: string, pre: seq<nat>, st: State)
    requires Tracks(u, kind, s, pre, st)
    ensures st.Code()
  {
    hide Named, HasReturning, HasInto;
  }

  lemma TracksOn(u: Unicode, kind: Kind, s: string, pre: seq<nat>, pre': seq<nat>, st: State, st': State)
    requires Tracks(u, kind, s, pre, st) && SameMarks(u, kind, s, pre, pre') && st' == st.(pos := st'.pos)
    ensures Tracks(u, kind, s, pre', st')
  {
    hide Named, HasReturning, HasInto;
  }

  lemma QuietIsPlain(u: Unicode, s: string, pre: seq<nat>, i: nat, n: nat)
    requires i + n <= |s| && forall p | i <= p < i + n :: Quiet(u, s, pre, p)
    ensures forall p | i <= p < i + n :: Plain(s[p]) && Glued(u, s, p)
  {
    hide InName, Upper, Plain, Glued;
    forall p | i <= p < i + n ensures Plain(s[p]) && Glued(u, s, p) { assert Quiet(u, s, pre, p); }
  }

  lemma AtEnd(u: Unicode, kind: Kind, s: string, pre: seq<nat>, st: State)
    requires Before(u, s, pre, st.pos) && Tracks(u, kind, s, pre, st) && st.pos >= |s|
    ensures Outcome(Scan(u, kind, s, Upper(u, s), st)) == SqlBinds(u, kind, s)
  {
    hide Named, HasReturning, HasInto, Upper, Opens, NameAt, Step;
    assert pre + [] == pre;
  }

  lemma AtUnclosed(u: Unicode, kind: Kind, s: string, pre: seq<nat>, st: State)
    requires Before(u, s, pre, st.pos) && Tracks(u, kind, s, pre, st)
    requires Pair(s, st.pos, '/', '*') && CloseAt(s, st.pos + 2).None?
    ensures Outcome(Scan(u, kind, s, Upper(u, s), st)) == SqlBinds(u, kind, s)
  {
    hide Named, HasReturning, HasInto, Opens, NameAt, Step, Upper, Leaves, Scan, CloseAt;
    assert pre + [] == pre;
    CommentsAgree(s, st.pos + 2);
    OpensBlock(u, kind, s, Upper(u, s), st);
    ScanLeaves(u, kind, s, Upper(u, s), st.(block := true, pos := st.pos + 2));
  }

  lemma OpensBlock(u: Unicode, kind: Kind, s: string, up: string, st: State)
    requires st.Code() && Pair(s, st.pos, '/', '*')
    ensures Scan(u, kind, s, up, st) == Scan(u, kind, s, up, st.(block := true, pos := st.pos + 2))
  {
    hide CodeStep;
  }

  /** The scan has reached other code with nothing found on the way. */
  ghost predicate Reached(u: Unicode, kind: Kind, s: string, pre: seq<nat>, st: State, st': State) {
    && st' == st.(pos := st'.pos) && st.pos < st'.pos
    && Before(u, s, pre, st'.pos) && Tidy(u, s, st'.pos)
    && Outcome(Scan(u, kind, s, Upper(u, s), st)) == Outcome(Scan(u, kind, s, Upper(u, s), st'))
  }

  /** What is not code is passed over by the reference in one step. */
  lemma Passing(u: Unicode, s: string, pre: seq<nat>, i: nat, e: nat)
    requires Before(u, s, pre, i) && i < e <= |s| && Code(u, s, i) == Code(u, s, e)
    ensures Before(u, s, pre, e)
  {
    hide Code, Opens, NameAt;
  }

  lemma QuoteHead(u: Unicode, s: string, i: nat)
    requires i < |s| && s[i] == '\''
    ensures var e := Behind(s, i + 1, '\''); i < e <= |s| && Code(u, s, i) == Code(u, s, e) && Tidy(u, s, i) == Tidy(u, s, e)
  {
    hide Behind, AlternativeQuote, Calm, Tame, CloseAt;
  }

  lemma IdentifierHead(u: Unicode, s: string, i: nat)
    requires i < |s| && s[i] == '"'
    ensures var e := Behind(s, i + 1, '"');
      i < e <= |s| && Code(u, s, i) == Code(u, s, e) && Tidy(u, s, i) == (Calm(u, s, i + 1, e) && Tidy(u, s, e))
  {
    hide Behind, AlternativeQuote, Calm, Tame, CloseAt;
  }

  lemma LineHead(u: Unicode, s: string, i: nat)
    requires Pair(s, i, '-', '-')
    ensures var e := Behind(s, i + 2, '\n'); i < e <= |s| && Code(u, s, i) == Code(u, s, e) && Tidy(u, s, i) == Tidy(u, s, e)
  {
    hide Behind, AlternativeQuote, Calm, Tame, CloseAt;
  }

  lemma AlternativeHead(u: Unicode, s: string, i: nat)
    requires i < |s| && s[i] != '\'' && s[i] != '"' && !Pair(s, i, '-', '-') && !Pair(s, i, '/', '*')
    requires AlternativeQuote(u, s, i).Some?
    ensures var q := AlternativeQuote(u, s, i).value;
      var e := AlternativeEnd(s, q);
      i < e <= |s| && Code(u, s, i) == Code(u, s, e) && Tidy(u, s, i) == (Behind(s, q + 1, '\'') == e && Tidy(u, s, e))
  {
    hide Behind, AlternativeQuote, Calm, Tame, CloseAt, AlternativeEnd;
  }

  lemma TextAgrees(u: Unicode, kind: Kind, s: string, pre: seq<nat>, st: State) returns (st': State)
    requires Before(u, s, pre, st.pos) && Tidy(u, s, st.pos)
    requires st.Code() && st.pos < |s| && s[st.pos] == '\''
    ensures Reached(u, kind, s, pre, st, st')
  {
    hide CodeStep, Upper, Behind, Outcome, Code, Tidy, Before;
    QuoteHead(u, s, st.pos);
    st' := st.(pos := Behind(s, st.pos + 1, '\''));
    Passing(u, s, pre, st.pos, st'.pos);
    ScanText(u, kind, s, Upper(u, s), st.(text := true, pos := st.pos + 1));
  }

  lemma LineAgrees(u: Unicode, kind: Kind, s: string, pre: seq<nat>, st: State) returns (st': State)
    requires Before(u, s, pre, st.pos) && Tidy(u, s, st.pos)
    requires st.Code() && Pair(s, st.pos, '-', '-')
    ensures Reached(u, kind, s, pre, st, st')
  {
    hide CodeStep, Upper, Behind, Outcome, Code, Tidy, Before;
    LineHead(u, s, st.pos);
    st' := st.(pos := Behind(s, st.pos + 2, '\n'));
    Passing(u, s, pre, st.pos, st'.pos);
    ScanLine(u, kind, s, Upper(u, s), st.(line := true, pos := st.pos + 2));
  }

  lemma BlockAgrees(u: Unicode, kind: Kind, s: string, pre: seq<nat>, st: State) returns (st': State)
    requires Before(u, s, pre, st.pos) && Tidy(u, s, st.pos)
    requires st.Code() && Pair(s, st.pos, '/', '*') && CloseAt(s, st.pos + 2).Some?
    ensures Reached(u, kind, s, pre, st, st')
  {
    hide Step, Upper, Behind, Outcome, Tame, CloseAt, Opens, NameAt, Leaves;
    var c := CloseAt(s, st.pos + 2).value;
    st' := st.(pos := c + 2);
    CommentsAgree(s, st.pos + 2);
    OpensBlock(u, kind, s, Upper(u, s), st);
    ScanLeaves(u, kind, s, Upper(u, s), st.(block := true, pos := st.pos + 2));
  }

  /** A character in code at which no bind and no keyword starts is passed over. */
  lemma PassedChar(u: Unicode, kind: Kind, s: string, st: State)
    requires st.Code() && st.pos < |s| && s[st.pos] != '\''
    requires !Pair(s, st.pos, '-', '-') && !Pair(s, st.pos, '/', '*') && !Opens(u, s, st.pos)
    requires !Matches(u, Upper(u, s), st.pos, "RETURNING") && !Matches(u, Upper(u, s), st.pos, "INTO")
    ensures Scan(u, kind, s, Upper(u, s), st) == Scan(u, kind, s, Upper(u, s), st.(pos := st.pos + 1))
  {
    hide Matches, NameAt, Upper;
  }

  lemma {:induction false} PassedIdentifier(u: Unicode, kind: Kind, s: string, st: State)
    requires st.Code() && Calm(u, s, st.pos, Behind(s, st.pos, '"'))
    ensures Scan(u, kind, s, Upper(u, s), st) == Scan(u, kind, s, Upper(u, s), st.(pos := Behind(s, st.pos, '"')))
    decreases |s| - st.pos
  {
    hide Scan, Upper, Matches, Opens;
    if st.pos < |s| {
      PassedChar(u, kind, s, st);
      if s[st.pos] != '"' {
        PassedIdentifier(u, kind, s, st.(pos := st.pos + 1));
      }
    }
  }

  /** A character that starts neither keyword. */
  lemma NoKeyword(u: Unicode, s: string, p: nat)
    requires Standard(u) && Ascii(s) && p < |s| && AsciiUpper(s[p]) != 'R' && AsciiUpper(s[p]) != 'I'
    ensures !Matches(u, Upper(u, s), p, "RETURNING") && !Matches(u, Upper(u, s), p, "INTO")
  {
    hide Upper, Matches;
    UpperOfAscii(u, s);
    if Matches(u, Upper(u, s), p, "RETURNING") {
      FirstLetter(u, Upper(u, s), p, "RETURNING");
    }
    if Matches(u, Upper(u, s), p, "INTO") {
      FirstLetter(u, Upper(u, s), p, "INTO");
    }
  }

  lemma IdentifierAgrees(u: Unicode, kind: Kind, s: string, pre: seq<nat>, st: State) returns (st': State)
    requires Fair(u, s) && Before(u, s, pre, st.pos) && Tidy(u, s, st.pos)
    requires st.Code() && st.pos < |s| && s[st.pos] == '"'
    ensures Reached(u, kind, s, pre, st, st')
  {
    hide Scan, Upper, Behind, Outcome, NameAt, Calm, Standard, Ascii, TightColons, Matches, Code, Tidy, Before;
    IdentifierHead(u, s, st.pos);
    st' := st.(pos := Behind(s, st.pos + 1, '"'));
    Passing(u, s, pre, st.pos, st'.pos);
    NoKeyword(u, s, st.pos);
    PassedChar(u, kind, s, st);
    PassedIdentifier(u, kind, s, st.(pos := st.pos + 1));
  }

  lemma AlternativeAgrees(u: Unicode, kind: Kind, s: string, pre: seq<nat>, st: State) returns (st': State)
    requires Fair(u, s) && Before(u, s, pre, st.pos) && Tidy(u, s, st.pos)
    requires st.Code() && st.pos < |s| && s[st.pos] != '\'' && s[st.pos] != '"'
    requires !Pair(s, st.pos, '-', '-') && !Pair(s, st.pos, '/', '*') && AlternativeQuote(u, s, st.pos).Some?
    ensures Reached(u, kind, s, pre, st, st')
  {
    hide Scan, Upper, Behind, Outcome, Standard, Ascii, TightColons, AlternativeEnd, AlternativeQuote, Code, Tidy, Before;
    AlternativeHead(u, s, st.pos);
    var q := AlternativeQuote(u, s, st.pos).value;
    st' := st.(pos := AlternativeEnd(s, q));
    Passing(u, s, pre, st.pos, st'.pos);
    PassedPrefix(u, kind, s, st, q);
    IntoText(u, kind, s, st.(pos := q));
    ScanText(u, kind, s, Upper(u, s), st.(text := true, pos := q + 1));
  }

  lemma PassedPrefix(u: Unicode, kind: Kind, s: string, st: State, q: nat)
    requires Standard(u) && Ascii(s) && st.Code() && AlternativeQuote(u, s, st.pos) == Some(q)
    ensures Scan(u, kind, s, Upper(u, s), st) == Scan(u, kind, s, Upper(u, s), st.(pos := q))
  {
    hide Scan, Upper, NameAt, Standard, Ascii, Matches;
    NoKeyword(u, s, st.pos);
    PassedChar(u, kind, s, st);
    if q == st.pos + 2 {
      NoKeyword(u, s, st.pos + 1);
      PassedChar(u, kind, s, st.(pos := st.pos + 1));
    }
  }

  lemma IntoText(u: Unicode, kind: Kind, s: string, st: State)
    requires st.Code() && st.pos < |s| && s[st.pos] == '\''
    ensures Scan(u, kind, s, Upper(u, s), st) == Scan(u, kind, s, Upper(u, s), st.(text := true, pos := st.pos + 1))
  {
    hide CodeStep, Upper;
  }

  lemma {:induction false} Agree(u: Unicode, kind: Kind, s: string, pre: seq<nat>, st: State)
    requires Fair(u, s) && Before(u, s, pre, st.pos) && Tracks(u, kind, s, pre, st) && Tidy(u, s, st.pos)
    ensures Outcome(Scan(u, kind, s, Upper(u, s), st)) == SqlBinds(u, kind, s)
    decreases |s| - st.pos
  {
    hide Fair, Scan, Upper, Outcome, SqlBinds, Before, Tidy, CloseAt;
    var i := st.pos;
    if i >= |s| {
      AtEnd(u, kind, s, pre, st);
    } else if s[i] == '\'' {
      var st' := TextAgrees(u, kind, s, pre, st);
      Agree(u, kind, s, pre, st');
    } else if s[i] == '"' {
      var st' := IdentifierAgrees(u, kind, s, pre, st);
      Agree(u, kind, s, pre, st');
    } else if Pair(s, i, '-', '-') {
      var st' := LineAgrees(u, kind, s, pre, st);
      Agree(u, kind, s, pre, st');
    } else if Pair(s, i, '/', '*') {
      if CloseAt(s, i + 2).Some? {
        var st' := BlockAgrees(u, kind, s, pre, st);
        Agree(u, kind, s, pre, st');
      } else {
        AtUnclosed(u, kind, s, pre, st);
      }
    } else if AlternativeQuote(u, s, i).Some? {
      var st' := AlternativeAgrees(u, kind, s, pre, st);
      Agree(u, kind, s, pre, st');
    } else {
      var pre', st' := CodeAgrees(u, kind, s, pre, st);
      Agree(u, kind, s, pre', st');
    }
  }

  /** The scanner finds the binds of the statement. */
  lemma ScannerFindsTheBinds(u: Unicode, kind: Kind, s: string)
    requires kind != Ddl && Fair(u, s) && Tidy(u, s, 0)
    ensures Binds(u, kind, s) == SqlBinds(u, kind, s)
  {
    hide Fair, Tidy, Scan, Named, HasReturning, HasInto;
    assert [] + Code(u, s, 0) == Code(u, s, 0);
    NoCode(u, kind, s);
    Agree(u, kind, s, [], START);
  }

  lemma NoCode(u: Unicode, kind: Kind, s: string)
    ensures Tracks(u, kind, s, [], START)
  {
  }

  // ---- What the conditions are for -----------------------------------------------------

  const HIDING := "/*--*/:x"

  lemma NameOfHidden(u: Unicode)
    requires Standard(u)
    ensures Opens(u, HIDING, 6) && NameAt(u, HIDING, 7) == "X" && Code(u, HIDING, 0) == [6, 7]
  {
    var s := HIDING;
    assert RunEnd(u.white, s, 7) == 7 && RunEnd(NameChar(u), s, 7) == 8 && s[7..8] == "x";
    assert Upper(u, "x") == "X";
  }

  lemma BindOfHidden(u: Unicode)
    requires Standard(u)
    ensures Named(u, Query, HIDING, [6, 7]) == [BindInfo("X", false)]
  {
    hide HasInto, HasReturning, Upper, NameAt, Code, Keyword, Knows;
    NameOfHidden(u);
    Snoc(u, Query, HIDING, [], 6);
    Snoc(u, Query, HIDING, [6], 7);
    assert [] + [6] == [6] && [6] + [7] == [6, 7];
    assert Named(u, Query, HIDING, []) == [];
    assert !Opens(u, HIDING, 7);
  }

  /** Two dashes in a block comment hide its end, and the bind behind it. */
  lemma DashesHideABind(u: Unicode)
    requires Standard(u)
    ensures Binds(u, Query, HIDING) == ([], false)
    ensures SqlBinds(u, Query, HIDING) == ([BindInfo("X", false)], false)
  {
    hide HasInto, HasReturning, Upper, NameAt, Named, Code, CodeStep;
    NameOfHidden(u);
    BindOfHidden(u);
    var up := Upper(u, HIDING);
    var inside := START.(block := true, pos := 2);
    assert Step(u, Query, HIDING, up, START) == inside;
    ScanLeaves(u, Query, HIDING, up, inside);
  }

  const IDENTIFIER := "\"a:b\""

  lemma NameInIdentifier(u: Unicode)
    requires Standard(u)
    ensures Opens(u, IDENTIFIER, 2) && NameAt(u, IDENTIFIER, 3) == "B" && Code(u, IDENTIFIER, 0) == []
  {
    var s := IDENTIFIER;
    assert s[3] == 'b' && s[4] == '"';
    assert RunEnd(u.white, s, 3) == 3 && RunEnd(NameChar(u), s, 3) == 4 && s[3..4] == "b";
    assert Upper(u, "b") == "B";
    assert Behind(s, 4, '"') == 5 && Behind(s, 3, '"') == 5 && Behind(s, 2, '"') == 5 && Behind(s, 1, '"') == 5;
  }

  /** A quoted identifier with a colon in it is taken for a bind. */
  lemma IdentifierTakenForBind(u: Unicode)
    requires Standard(u)
    ensures Binds(u, Query, IDENTIFIER) == ([BindInfo("B", false)], false)
    ensures SqlBinds(u, Query, IDENTIFIER) == ([], false)
  {
    hide Upper, NameAt, Matches, Scan, ByteLen, RunEnd, Code, Standard;
    NameInIdentifier(u);
    var s := IDENTIFIER;
    var up := Upper(u, s);
    OneByte();
    var binds := [BindInfo("B", false)];
    assert CodeStep(u, Query, s, up, START) == START.(pos := 1);
    OneRound(u, Query, s, up, START, START.(pos := 1));
    OneRound(u, Query, s, up, START.(pos := 1), START.(pos := 2));
    OneRound(u, Query, s, up, START.(pos := 2), START.(pos := 4, binds := binds));
    OneRound(u, Query, s, up, START.(pos := 4, binds := binds), START.(pos := 5, binds := binds));
    ScanDone(u, Query, s, up, START.(pos := 5, binds := binds));
  }

  lemma OneByte()
    ensures ByteLen("B") == 1
  {
    assert ByteLen("B"[1..]) == 0;
  }

  lemma OneRound(u: Unicode, kind: Kind, s: string, up: string, st: State, next: State)
    requires st.pos < |s| && Step(u, kind, s, up, st) == next
    ensures Scan(u, kind, s, up, st) == Scan(u, kind, s, up, next)
  {
    hide Step;
  }

  lemma ScanDone(u: Unicode, kind: Kind, s: string, up: string, st: State)
    requires st.pos >= |s|
    ensures Scan(u, kind, s, up, st) == st
  {
  }
}

/** The scanner itself, and the maker of literals. */
module BindScanner {
  import opened BindScanning
  import opened Statements
  import opened Texts

  /** The first word of a text, if there is one. */
  function FirstWord(u: Unicode, s: string): string {
    var i := RunEnd(u.white, s, 0);
    s[i..RunEnd(c => !u.white(c), s, i)]
  }

  function KindOf(u: Unicode, s: string): Kind {
    var word := FirstWord(u, Upper(u, s));
    if word in {"SELECT", "WITH"} then Query
    else if word in {"INSERT", "UPDATE", "DELETE", "MERGE"} then Dml
    else if word in {"CREATE", "ALTER", "DROP", "GRANT", "REVOKE", "ANALYZE", "AUDIT", "COMMENT", "TRUNCATE"} then Ddl
    else if word in {"DECLARE", "BEGIN", "CALL"} then PlSql
    else Unknown
  }

  method MatchKeyword(u: Unicode, chars: string, pos: nat, keyword: string) returns (r: bool)
    ensures r == Matches(u, chars, pos, keyword)
  {
    if pos + |keyword| > |chars| {
      return false;
    }
    if pos > 0 && u.alphanumeric(chars[pos - 1]) {
      return false;
    }
    for i := 0 to |keyword|
      invariant chars[pos..pos + i] == keyword[..i]
    {
      if chars[pos + i] != keyword[i] {
        assert chars[pos..pos + |keyword|][i] == chars[pos + i];
        return false;
      }
    }
    var end := pos + |keyword|;
    return !(end < |chars| && u.alphanumeric(chars[end]));
  }

  /** Runs over characters that satisfy `p`. */
  method SkipWhile(p: char -> bool, chars: string, start: nat) returns (i: nat)
    requires start <= |chars|
    ensures i == RunEnd(p, chars, start)
  {
    i := start;
    while i < |chars| && p(chars[i])
      invariant start <= i <= |chars|
      invariant RunEnd(p, chars, i) == RunEnd(p, chars, start)
    {
      i := i + 1;
    }
  }

  method ExtractBindName(u: Unicode, chars: string, start: nat) returns (name: string)
    requires start <= |chars|
    ensures name == NameAt(u, chars, start)
  {
    var i := SkipWhile(u.white, chars, start);
    if i >= |chars| {
      return "";
    }
    if chars[i] == '"' {
      var end := SkipWhile(c => c != '"', chars, i + 1);
      return chars[i + 1..end];
    }
    if IsDigit(chars[i]) {
      var end := SkipWhile(IsDigit, chars, i);
      return chars[i..end];
    }
    if !u.alphabetic(chars[i]) {
      return "";
    }
    var end := SkipWhile(NameChar(u), chars, i);
    return Upper(u, chars[i..end]);
  }

  /** A statement while its text is parsed, before the cache and the calls hold copies of it. */
  class ParsedStatement {
    const sql: string
    var statementType: Kind
    var bindInfoList: seq<BindInfo>
    var isReturning: bool

    constructor (u: Unicode, sql: string)
      ensures this.sql == sql && statementType == KindOf(u, sql)
      ensures (bindInfoList, isReturning) == Binds(u, KindOf(u, sql), sql)
    {
      this.sql := sql;
      statementType := KindOf(u, sql);
      bindInfoList := [];
      isReturning := false;
      new;
      if statementType != Ddl {
        ParseBindVariables(u);
      }
    }

    method ParseBindVariables(u: Unicode)
      requires bindInfoList == [] && !isReturning
      modifies this`bindInfoList, this`isReturning
      ensures (bindInfoList, isReturning) == Outcome(Scan(u, statementType, sql, Upper(u, sql), START))
    {
      hide Scan, Matches, NameAt, Upper, ByteLen;
      var upper := Upper(u, sql);
      var i, inString, inComment, inLineComment, returningFound, intoFound := 0, false, false, false, false, false;
      while i < |sql|
        invariant Scan(u, statementType, sql, upper, START) == Scan(u, statementType, sql, upper,
          State(i, inString, inComment, inLineComment, returningFound, intoFound, bindInfoList))
        invariant isReturning == intoFound
        decreases |sql| - i
      {
        ghost var st := State(i, inString, inComment, inLineComment, returningFound, intoFound, bindInfoList);
        ScanStep(u, statementType, sql, upper, st);
        var ch := sql[i];
        if ch == '\'' && !inComment && !inLineComment {
          inString := !inString;
          i := i + 1;
          continue;
        }
        if inString {
          i := i + 1;
          continue;
        }
        if ch == '-' && i + 1 < |sql| && sql[i + 1] == '-' {
          inLineComment := true;
          i := i + 2;
          continue;
        }
        if inLineComment {
          if ch == '\n' {
            inLineComment := false;
          }
          i := i + 1;
          continue;
        }
        if ch == '/' && i + 1 < |sql| && sql[i + 1] == '*' {
          inComment := true;
          i := i + 2;
          continue;
        }
        if inComment {
          if ch == '*' && i + 1 < |sql| && sql[i + 1] == '/' {
            inComment := false;
            i := i + 2;
          } else {
            i := i + 1;
          }
          continue;
        }
        if statementType == Dml && !returningFound {
          var found := MatchKeyword(u, upper, i, "RETURNING");
          if found {
            returningFound := true;
            i := i + 9;
            continue;
          }
        }
        if returningFound && !intoFound {
          var found := MatchKeyword(u, upper, i, "INTO");
          if found {
            intoFound := true;
            isReturning := true;
            i := i + 4;
            continue;
          }
        }
        if ch == ':' && i + 1 < |sql| {
          var name := ExtractBindName(u, sql, i + 1);
          if name != "" {
            var shouldAdd := !(statementType == PlSql && Knows(bindInfoList, name));
            if shouldAdd {
              bindInfoList := bindInfoList + [BindInfo(name, intoFound)];
            }
            i := i + 1 + ByteLen(name);
            continue;
          }
        }
        i := i + 1;
      }
      ScanEnd(u, statementType, sql, upper,
              State(i, inString, inComment, inLineComment, returningFound, intoFound, bindInfoList));
    }
  }

  lemma ScanStep(u: Unicode, kind: Kind, s: string, up: string, st: State)
    requires st.pos < |s|
    ensures Scan(u, kind, s, up, st) == Scan(u, kind, s, up, Step(u, kind, s, up, st))
  {
    hide Step;
  }

  lemma ScanEnd(u: Unicode, kind: Kind, s: string, up: string, st: State)
    requires st.pos >= |s|
    ensures Scan(u, kind, s, up, st) == st
  {
  }

  method SqlLiteral(value: string) returns (out: string)
    ensures out == Literal(value)
  {
    out := "'";
    for i := 0 to |value|
      invariant out + Doubled(value[i..]) == "'" + Doubled(value)
    {
      assert value[i..][1..] == value[i + 1..];
      if value[i] == '\'' {
        out := out + "'";
      }
      out := out + [value[i]];
    }
    out := out + "'";
  }
}
