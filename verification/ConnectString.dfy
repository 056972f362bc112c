/** Where to connect to, as a connect string, as a descriptor, and read back from either. */
module ConnectStrings {
  import opened Texts
  import opened Wrappers

  const DEFAULT_PORT: nat := 1521
  const DEFAULT_SERVICE := "FREEPDB1"

  type Port = n: nat | n < 0x1_0000

  datatype Service = ServiceName(name: string) | Sid(sid: string)

  datatype Target = Target(host: string, port: Port, service: Service)

  datatype ParseError = Empty | Descriptor | MissingService | BadPort | TooManyColons | MissingHost

  /** The connect string of a target. */
  function Print(t: Target): string {
    match t.service
    case ServiceName(name) => t.host + ":" + Decimal(t.port) + "/" + name
    case Sid(sid) => t.host + ":" + Decimal(t.port) + ":" + sid
  }

  /** How many characters at the start of `s`, from `i` on, satisfy `p`. */
  function Leading(s: string, p: char -> bool, i: nat := 0): (n: nat)
    requires i <= |s|
    ensures i <= n <= |s|
    ensures forall k | i <= k < n :: p(s[k])
    ensures n < |s| ==> !p(s[n])
    decreases |s| - i
  {
    if i < |s| && p(s[i]) then Leading(s, p, i + 1) else i
  }

  /** Where the characters at the end of `s` that satisfy `p` begin. */
  function Trailing(s: string, p: char -> bool): (n: nat)
    ensures n <= |s|
    ensures forall k | n <= k < |s| :: p(s[k])
    ensures n > 0 ==> !p(s[n - 1])
  {
    TrailingFrom(s, p, |s|)
  }

  function TrailingFrom(s: string, p: char -> bool, i: nat): (n: nat)
    requires i <= |s|
    ensures n <= i
    ensures forall k | n <= k < i :: p(s[k])
    ensures n > 0 ==> !p(s[n - 1])
  {
    if i > 0 && p(s[i - 1]) then TrailingFrom(s, p, i - 1) else i
  }

  function TrimStart(s: string, p: char -> bool): string {
    s[Leading(s, p)..]
  }

  function TrimEnd(s: string, p: char -> bool): string {
    s[..Trailing(s, p)]
  }

  /** The text that is parsed: without blanks around it, then without leading slashes. */
  function Bare(s: string, white: char -> bool): string {
    TrimStart(TrimEnd(TrimStart(s, white), white), c => c == '/')
  }

  function ReadPort(s: string): Result<Port, ParseError> {
    match ParseUnsigned(s, 0xFFFF)
    case Some(n) => Success(n)
    case None => Failure(BadPort)
  }

  function Located(host: string, port: Port, service: Service): Result<Target, ParseError> {
    if host == "" then Failure(MissingHost) else Success(Target(host, port, service))
  }

  /** `host[:port]/service`, cut at the first slash. */
  function ParseWithService(hostPort: string, name: string): Result<Target, ParseError> {
    if name == "" then Failure(MissingService)
    else
      match FindChar(hostPort, ':')
      case None => Located(hostPort, DEFAULT_PORT, ServiceName(name))
      case Some(colon) =>
        var port := ReadPort(hostPort[colon + 1..]);
        if port.Failure? then Failure(port.error) else Located(hostPort[..colon], port.value, ServiceName(name))
  }

  /** `host[:port[:sid]]`, cut at the colons. */
  function ParseParts(parts: seq<string>): Result<Target, ParseError>
    requires |parts| >= 1
  {
    if |parts| > 3 then Failure(TooManyColons)
    else
      var port := if |parts| == 1 then Success(DEFAULT_PORT) else ReadPort(parts[1]);
      if port.Failure? then Failure(port.error)
      else Located(parts[0], port.value, if |parts| == 3 then Sid(parts[2]) else ServiceName(DEFAULT_SERVICE))
  }

  function ParseBare(s: string): Result<Target, ParseError> {
    if s == "" then Failure(Empty)
    else if s[0] == '(' then Failure(Descriptor)
    else
      match FindChar(s, '/')
      case Some(slash) => ParseWithService(s[..slash], s[slash + 1..])
      case None => ParseParts(Split(s, ':'))
  }

  function Parse(s: string, white: char -> bool): Result<Target, ParseError> {
    ParseBare(Bare(s, white))
  }

  // ---- Printing and parsing ------------------------------------------------------------

  /** The characters of a connect string that carry its structure are not blanks. */
  predicate Blanks(white: char -> bool) {
    !white(':') && !white('/') && forall c: char | IsDigit(c) :: !white(c)
  }

  predicate Free(s: string, c: char) {
    forall i | 0 <= i < |s| :: s[i] != c
  }

  predicate EndsBlank(s: string, white: char -> bool) {
    s != "" && white(s[|s| - 1])
  }

  predicate GoodHost(host: string, white: char -> bool) {
    host != "" && host[0] != '(' && !white(host[0]) && Free(host, '/') && Free(host, ':')
  }

  /** What a target must satisfy for its connect string to lead back to it. */
  predicate Printable(t: Target, white: char -> bool) {
    && GoodHost(t.host, white)
    && match t.service
       case ServiceName(name) => name != "" && !EndsBlank(name, white)
       case Sid(sid) => Free(sid, '/') && Free(sid, ':') && !EndsBlank(sid, white)
  }

  lemma TrimsKeep(s: string, p: char -> bool)
    ensures s != "" && !p(s[0]) ==> TrimStart(s, p) == s
    ensures s != "" && !p(s[|s| - 1]) ==> TrimEnd(s, p) == s
  {
  }

  /** A text with nothing to trim is parsed as it is. */
  lemma BareKeeps(s: string, white: char -> bool)
    requires s != "" && !white(s[0]) && s[0] != '/' && !white(s[|s| - 1])
    ensures Bare(s, white) == s
  {
    hide Leading, Trailing;
    TrimsKeep(s, white);
    TrimsKeep(s, c => c == '/');
  }

  lemma SplitOne(a: string, rest: string)
    requires Free(a, ':')
    ensures Split(a + ":" + rest, ':') == [a] + Split(rest, ':')
  {
    var s := a + ":" + rest;
    FirstChar(s, ':', |a|);
    assert s[..|a|] == a && s[|a| + 1..] == rest;
  }

  lemma SplitNone(a: string)
    requires Free(a, ':')
    ensures Split(a, ':') == [a]
  {
  }

  lemma DigitsFree(n: nat)
    ensures Free(Decimal(n), '/') && Free(Decimal(n), ':')
  {
    var s := Decimal(n);
    forall i | 0 <= i < |s| ensures s[i] != '/' && s[i] != ':' { assert IsDigit(s[i]); }
  }

  /** A text that starts with `host:port/`. */
  lemma ServiceText(host: string, port: Port, name: string)
    requires Free(host, '/') && Free(host, ':')
    ensures var s, slash := host + ":" + Decimal(port) + "/" + name, |host| + 1 + |Decimal(port)|;
      && FindChar(s, '/') == Some(slash) && s[slash + 1..] == name
      && FindChar(s[..slash], ':') == Some(|host|)
      && s[..slash][..|host|] == host && s[..slash][|host| + 1..] == Decimal(port)
  {
    hide Decimal;
    var digits := Decimal(port);
    var front := host + ":" + digits;
    var s := front + "/" + name;
    DigitsFree(port);
    FirstChar(s, '/', |front|);
    assert s[..|front|] == front;
    FirstChar(front, ':', |host|);
  }

  lemma ServiceTextParses(host: string, port: Port, name: string)
    requires Free(host, '/') && Free(host, ':') && host != "" && host[0] != '('
    ensures ParseBare(host + ":" + Decimal(port) + "/" + name)
         == if name == "" then Failure(MissingService) else Success(Target(host, port, ServiceName(name)))
  {
    hide Decimal, FindChar, Free, ParseUnsigned;
    ServiceText(host, port, name);
    ParseOfDecimal(port, 0xFFFF);
    assert (host + ":" + Decimal(port) + "/" + name)[0] == host[0];
  }

  lemma SidTextParts(host: string, port: Port, sid: string)
    requires Free(host, '/') && Free(host, ':') && Free(sid, '/') && Free(sid, ':')
    ensures var s := host + ":" + Decimal(port) + ":" + sid;
      Free(s, '/') && Split(s, ':') == [host, Decimal(port), sid]
  {
    hide Decimal, FindChar, Split;
    var digits := Decimal(port);
    DigitsFree(port);
    assert host + ":" + digits + ":" + sid == host + ":" + (digits + ":" + sid);
    SplitOne(host, digits + ":" + sid);
    SplitOne(digits, sid);
    SplitNone(sid);
  }

  lemma SidTextParses(host: string, port: Port, sid: string)
    requires Free(host, '/') && Free(host, ':') && Free(sid, '/') && Free(sid, ':') && host != "" && host[0] != '('
    ensures ParseBare(host + ":" + Decimal(port) + ":" + sid) == Success(Target(host, port, Sid(sid)))
  {
    hide Decimal, Split, ParseUnsigned;
    SidTextParts(host, port, sid);
    ParseOfDecimal(port, 0xFFFF);
    assert (host + ":" + Decimal(port) + ":" + sid)[0] == host[0];
  }

  lemma PrintedEnds(t: Target)
    requires t.host != ""
    ensures var s := Print(t);
      && s != "" && s[0] == t.host[0]
      && s[|s| - 1] == match t.service
           case ServiceName(name) => if name == "" then '/' else name[|name| - 1]
           case Sid(sid) => if sid == "" then ':' else sid[|sid| - 1]
  {
    hide Decimal;
  }

  lemma PrintedParses(t: Target, white: char -> bool)
    requires Blanks(white) && Printable(t, white)
    ensures Parse(Print(t), white) == Success(t)
  {
    hide Bare, ParseBare, Decimal;
    PrintedEnds(t);
    BareKeeps(Print(t), white);
    match t.service
    case ServiceName(name) => ServiceTextParses(t.host, t.port, name);
    case Sid(sid) => SidTextParses(t.host, t.port, sid);
  }

  // ---- And nothing less will do --------------------------------------------------------

  lemma {:induction false} SplitPieces(s: string, c: char, d: char)
    requires Free(s, d)
    ensures forall k | 0 <= k < |Split(s, c)| :: Free(Split(s, c)[k], c) && Free(Split(s, c)[k], d)
    decreases |s|
  {
    match FindChar(s, c)
    case None =>
    case Some(i) =>
      var first, rest := s[..i], s[i + 1..];
      assert Free(first, c) && Free(first, d) && Free(rest, d);
      hide Free, FindChar;
      SplitPieces(rest, c, d);
      assert Split(s, c) == [first] + Split(rest, c);
  }

  lemma SplitFirst(s: string, c: char)
    ensures Split(s, c)[0] <= s
  {
  }

  /** What parsing never yields, and where it finds the host. */
  lemma ParsedShape(b: string)
    requires ParseBare(b).Success?
    ensures var t := ParseBare(b).value;
      && t.host != "" && t.host <= b && b[0] != '(' && Free(t.host, '/') && Free(t.host, ':')
      && match t.service
         case ServiceName(name) => name != "" && (Free(b, '/') ==> name == DEFAULT_SERVICE)
         case Sid(sid) => Free(b, '/') && Free(sid, '/') && Free(sid, ':')
  {
    hide Split, ParseUnsigned;
    match FindChar(b, '/')
    case Some(slash) =>
    case None =>
      SplitPieces(b, ':', '/');
      SplitFirst(b, ':');
  }

  /** The parsed text is the given one without its first `k` characters and the blanks at its
      end. */
  lemma BareFront(s: string, white: char -> bool) returns (k: nat)
    ensures var b := Bare(s, white);
      && k + |b| <= |s| && b == s[k..k + |b|]
      && (forall i | 0 <= i < k :: white(s[i]) || s[i] == '/')
      && (forall i | k + |b| <= i < |s| :: white(s[i]))
      && (b != "" ==> !white(b[|b| - 1]))
      && (b != "" && white(s[0]) ==> k > 0)
  {
    hide Leading, Trailing;
    var s1 := TrimStart(s, white);
    var s2 := TrimEnd(s1, white);
    var b := TrimStart(s2, c => c == '/');
    var k1, k2 := Leading(s, white), Leading(s2, c => c == '/');
    k := k1 + k2;
    SliceOfSlice(s, s1, k1, s2, k2, b);
    forall i | k1 <= i < k
      ensures s[i] == '/'
    {
      assert s[i] == s1[i - k1] == s2[i - k1];
    }
    forall i | k + |b| <= i < |s|
      ensures white(s[i])
    {
      assert s[i] == s1[i - k1];
    }
    if b != "" {
      assert b[|b| - 1] == s2[|s2| - 1];
    }
  }

  lemma SliceOfSlice(s: string, s1: string, k1: nat, s2: string, k2: nat, b: string)
    requires k1 <= |s| && s1 == s[k1..] && s2 <= s1 && k2 <= |s2| && b == s2[k2..]
    ensures k1 + k2 + |b| <= |s| && b == s[k1 + k2..k1 + k2 + |b|]
  {
    var c := s[k1 + k2..k1 + k2 + |b|];
    forall i | 0 <= i < |b|
      ensures b[i] == c[i]
    {
      assert s2[k2 + i] == s1[k2 + i];
    }
  }

  /** A colon in front of any slash ends the host. */
  lemma ParsedHostEnds(b: string, colon: nat)
    requires ParseBare(b).Success? && colon < |b| && b[colon] == ':'
    requires forall i | 0 <= i < colon :: b[i] != ':' && b[i] != '/'
    ensures |ParseBare(b).value.host| == colon
  {
    hide Split, ParseUnsigned;
    FirstChar(b, ':', colon);
    match FindChar(b, '/')
    case Some(slash) =>
      FirstChar(b[..slash], ':', colon);
    case None =>
      SplitAt(b, colon);
  }

  lemma SplitAt(b: string, colon: nat)
    requires FindChar(b, ':') == Some(colon)
    ensures Split(b, ':')[0] == b[..colon]
  {
  }

  /** Nothing is lost at the front of a connect string that leads back to its target. */
  lemma NothingTrimmed(t: Target, white: char -> bool)
    requires Blanks(white) && Parse(Print(t), white) == Success(t)
    ensures var s, b := Print(t), Bare(Print(t), white);
      && GoodHost(t.host, white)
      && |t.host| < |b| <= |s| && b == s[..|b|] && !white(b[|b| - 1])
      && forall i | |b| <= i < |s| :: white(s[i])
  {
    hide ParseBare, Bare, Decimal;
    var s, b := Print(t), Bare(Print(t), white);
    ParsedShape(b);
    PrintedEnds(t);
    var n := |t.host|;
    assert s[n] == ':' && forall i | 0 <= i < n :: s[i] == t.host[i];
    var k := BareFront(s, white);
    assert b[n - k] == s[n];
    ParsedHostEnds(b, n - k);
  }

  lemma ParsedServicePrintable(t: Target, white: char -> bool, b: string)
    requires GoodHost(t.host, white) && t.service.ServiceName? && ParseBare(b) == Success(t)
    requires b <= Print(t) && |t.host| + 1 + |Decimal(t.port)| < |b| && !white(b[|b| - 1])
    ensures Printable(t, white)
  {
    hide ParseBare, Decimal;
    ParsedShape(b);
    var front, name := t.host + ":" + Decimal(t.port) + "/", t.service.name;
    var rest := name[..|b| - |front|];
    assert Print(t) == front + name && b == front + rest;
    ServiceTextParses(t.host, t.port, rest);
    assert name == rest;
  }

  lemma ParsedSidPrintable(t: Target, white: char -> bool, b: string)
    requires GoodHost(t.host, white) && t.service.Sid? && ParseBare(b) == Success(t)
    requires b <= Print(t) && |t.host| + 1 + |Decimal(t.port)| < |b| && !white(b[|b| - 1])
    ensures Printable(t, white)
  {
    hide ParseBare, Decimal;
    ParsedShape(b);
    var front, sid := t.host + ":" + Decimal(t.port) + ":", t.service.sid;
    var rest := sid[..|b| - |front|];
    assert Print(t) == front + sid && b == front + rest;
    SidTextParses(t.host, t.port, rest);
    assert sid == rest;
  }

  /** The blanks trimmed at the end do not reach the port. */
  lemma PortKept(t: Target, white: char -> bool, b: string)
    requires Blanks(white) && b <= Print(t) && |t.host| < |b|
    requires forall i | |b| <= i < |Print(t)| :: white(Print(t)[i])
    ensures |t.host| + 1 + |Decimal(t.port)| < |b|
  {
    hide Decimal;
    var s, n := Print(t), |t.host| + 1 + |Decimal(t.port)|;
    assert s[n] == if t.service.Sid? then ':' else '/';
  }

  lemma ParsedIsPrintable(t: Target, white: char -> bool)
    requires Blanks(white) && Parse(Print(t), white) == Success(t)
    ensures Printable(t, white)
  {
    hide ParseBare, Bare, Decimal, Print, GoodHost, Printable;
    var b := Bare(Print(t), white);
    NothingTrimmed(t, white);
    PortKept(t, white, b);
    match t.service
    case ServiceName(_) => ParsedServicePrintable(t, white, b);
    case Sid(_) => ParsedSidPrintable(t, white, b);
  }

  /** The connect string of a target leads back to it exactly if the host is not empty, starts
      with neither a blank nor a parenthesis and has no slash or colon in it, the service name is
      neither empty nor ends in a blank, or the SID has no slash or colon and does not end in a
      blank. */
  lemma PrintThenParse(t: Target, white: char -> bool)
    requires Blanks(white)
    ensures Parse(Print(t), white) == Success(t) <==> Printable(t, white)
  {
    hide Parse, Print, Printable;
    if Printable(t, white) {
      PrintedParses(t, white);
    }
    if Parse(Print(t), white) == Success(t) {
      ParsedIsPrintable(t, white);
    }
  }

  /** What was parsed is printed so that it parses to the same again, unless the text, taken out
      of the blanks around it and the slashes in front, starts with a blank: that one became the
      start of the host. */
  lemma ParseThenPrint(s: string, white: char -> bool)
    requires Blanks(white) && Parse(s, white).Success?
    ensures var t := Parse(s, white).value;
      Bare(s, white) != "" && (Parse(Print(t), white) == Success(t) <==> !white(Bare(s, white)[0]))
  {
    hide ParseBare, Bare, Print;
    var t, b := Parse(s, white).value, Bare(s, white);
    var k := BareFront(s, white);
    ParsedShape(b);
    ParsedTail(b);
    PrintThenParse(t, white);
  }

  lemma BareBlankHost(white: char -> bool)
    requires Blanks(white) && white(' ') && !white('s')
    ensures Bare("/ h/s", white) == " h/s"
  {
    hide Leading, Trailing;
    var s, slash := "/ h/s", (c: char) => c == '/';
    assert s[0] == '/' && s[1] == ' ' && s[4] == 's';
    assert Leading(s, white) == 0 && s[0..] == s;
    assert Trailing(s, white) == 5 && s[..5] == s;
    assert Leading(s, slash) == 1;
    assert s[1..] == " h/s";
    assert TrimStart(s, slash) == " h/s";
  }

  /** Such a text, whose host loses its blank on the way. */
  lemma BlankHostIsLost(white: char -> bool)
    requires Blanks(white) && white(' ') && !white('s')
    ensures var t := Target(" h", DEFAULT_PORT, ServiceName("s"));
      Parse("/ h/s", white) == Success(t) && Parse(Print(t), white) != Success(t)
  {
    hide Bare, Print;
    var t, b := Target(" h", DEFAULT_PORT, ServiceName("s")), " h/s";
    BareBlankHost(white);
    assert FindChar(b, '/') == Some(2) && b[..2] == " h" && b[3..] == "s";
    PrintThenParse(t, white);
  }

  /** A service name or SID that was given is the end of the text. */
  lemma ParsedTail(b: string)
    requires ParseBare(b).Success?
    ensures b != "" && match ParseBare(b).value.service
      case ServiceName(name) => name == DEFAULT_SERVICE || (name != "" && name[|name| - 1] == b[|b| - 1])
      case Sid(sid) => sid == "" || sid[|sid| - 1] == b[|b| - 1]
  {
    hide Split, ParseUnsigned;
    match FindChar(b, '/')
    case Some(slash) =>
    case None => SplitTail(b, ':');
  }

  lemma {:induction false} SplitTail(s: string, c: char)
    ensures var last := Split(s, c)[|Split(s, c)| - 1];
      |last| <= |s| && last == s[|s| - |last|..]
    decreases |s|
  {
    match FindChar(s, c)
    case None =>
    case Some(i) => SplitTail(s[i + 1..], c);
  }

  // ---- Descriptors ---------------------------------------------------------------------

  function Protocol(tls: bool): string {
    if tls then "TCPS" else "TCP"
  }

  function Address(t: Target, tls: bool): string {
    "(ADDRESS=(PROTOCOL=" + Protocol(tls) + ")(HOST=" + t.host + ")(PORT=" + Decimal(t.port) + "))"
  }

  function ServicePart(t: Target): string {
    match t.service
    case ServiceName(name) => "(SERVICE_NAME=" + name + ")"
    case Sid(sid) => "(SID=" + sid + ")"
  }

  function ConnectData(t: Target): string {
    "(CONNECT_DATA=" + ServicePart(t) + ")"
  }

  /** The descriptor sent to the listener. */
  function Describe(t: Target, tls: bool): string {
    "(DESCRIPTION=" + Address(t, tls) + ConnectData(t) + ")"
  }

  /** What stands behind the first `key`, up to the next closing parenthesis. */
  function Field(s: string, key: string): Option<string> {
    match FindText(s, key)
    case None => None
    case Some(i) =>
      var rest := s[i + |key|..];
      match FindChar(rest, ')')
      case None => None
      case Some(end) => Some(rest[..end])
  }

  function ExtractHostPort(s: string): (Option<string>, Option<nat>) {
    (Field(s, "HOST="),
     match Field(s, "PORT=")
     case Some(digits) => ParseUnsigned(digits, 0xFFFF)
     case None => None)
  }

  lemma SuffixBehind(u: string, v: string, s: string)
    requires s == u + v
    ensures s[|u|..] == v
  {
  }

  /** A field is found if its key occurs nowhere before it, also not across the seam. */
  lemma FieldAt(before: string, key: string, value: string, after: string)
    requires Free(value, ')') && key != ""
    requires forall i | 0 <= i < |before| :: !Occurs(before + key + value + ")" + after, key, i)
    ensures Field(before + key + value + ")" + after, key) == Some(value)
  {
    hide FindChar, FindText;
    var s := before + key + value + ")" + after;
    assert s == (before + key) + (value + ")" + after);
    assert before + key <= s && s[|before|..|before| + |key|] == key;
    FirstText(s, key, |before|);
    assert |before + key| == |before| + |key|;
    var rest := s[|before| + |key|..];
    SuffixBehind(before + key, value + ")" + after, s);
    assert rest[..|value|] == value && rest[|value|] == ')';
    FirstChar(rest, ')', |value|);
  }

  /** What precedes the host of an address, on its own or in a descriptor. */
  function Lead(described: bool, tls: bool): string {
    (if described then "(DESCRIPTION=" else "") + "(ADDRESS=(PROTOCOL=" + Protocol(tls) + ")("
  }

  /** No key starts at `i`: neither an H nor a P with an O behind it. */
  predicate NoKeyAt(s: string, i: nat)
    requires i < |s|
  {
    s[i] != 'H' && (s[i] == 'P' ==> i + 1 < |s| && s[i + 1] != 'O')
  }

  predicate NoKeys(s: string) {
    forall i | 0 <= i < |s| :: NoKeyAt(s, i)
  }

  lemma NoKeysTogether(u: string, v: string)
    requires NoKeys(u) && NoKeys(v)
    ensures NoKeys(u + v)
  {
    var s := u + v;
    forall i | 0 <= i < |s|
      ensures NoKeyAt(s, i)
    {
      assert if i < |u| then NoKeyAt(u, i) else NoKeyAt(v, i - |u|);
    }
  }

  lemma LeadHasNoKeys(described: bool, tls: bool)
    ensures NoKeys(Lead(described, tls))
  {
    var a, b, c := if described then "(DESCRIPTION=" else "", "(ADDRESS=(PROTOCOL=", Protocol(tls) + ")(";
    LiteralsHaveNoKeys(described, tls);
    hide NoKeys, Protocol;
    NoKeysTogether(b, c);
    NoKeysTogether(a, b + c);
    assert a + (b + c) == Lead(described, tls);
  }

  lemma LiteralsHaveNoKeys(described: bool, tls: bool)
    ensures NoKeys(if described then "(DESCRIPTION=" else "")
    ensures NoKeys("(ADDRESS=(PROTOCOL=") && NoKeys(Protocol(tls) + ")(")
  {
  }

  /** A text in which an address stands first, possibly in a descriptor. */
  function Text(t: Target, described: bool, tls: bool, after: string): string {
    Lead(described, tls) + "HOST=" + t.host + ")" + ("(PORT=" + Decimal(t.port) + "))" + after)
  }

  lemma Regroup(a: string, b: string, c: string, d: string, e: string, f: string, g: string, h: string)
    ensures a + (b + c) + d + (e + f) + g + h == (a + b) + c + d + e + (f + g + h)
  {
    assert a + (b + c) == (a + b) + c;
    var x := (a + b) + c + d;
    assert x + (e + f) == (x + e) + f;
    assert ((x + e) + f) + g + h == (x + e) + (f + g + h);
  }

  lemma AddressIsText(t: Target, tls: bool)
    ensures Address(t, tls) == Text(t, false, tls, "")
  {
    hide Decimal, Protocol;
    var d, a := Decimal(t.port), "(ADDRESS=(PROTOCOL=" + Protocol(tls);
    assert ")(HOST=" == ")(" + "HOST=" && ")(PORT=" == ")" + "(PORT=";
    Regroup(a, ")(", "HOST=", t.host, ")", "(PORT=", d, "))");
    assert Lead(false, tls) == a + ")(";
    assert "(PORT=" + d + "))" + "" == "(PORT=" + d + "))";
  }

  lemma LeadOfDescription(tls: bool)
    ensures Lead(true, tls) == "(DESCRIPTION=" + Lead(false, tls)
  {
    hide Protocol;
    assert "" + "(ADDRESS=(PROTOCOL=" == "(ADDRESS=(PROTOCOL=";
  }

  lemma TextExtends(t: Target, tls: bool, after: string)
    ensures Text(t, true, tls, after) == "(DESCRIPTION=" + Text(t, false, tls, "") + after
  {
    hide Decimal, Lead;
    LeadOfDescription(tls);
    var l, x, d := Lead(false, tls), "HOST=" + t.host + ")", "(PORT=" + Decimal(t.port) + "))";
    assert l + "HOST=" + t.host + ")" == l + x && d + "" == d;
    assert Lead(true, tls) + "HOST=" + t.host + ")" == "(DESCRIPTION=" + (l + x);
    assert ("(DESCRIPTION=" + (l + x)) + (d + after) == "(DESCRIPTION=" + ((l + x) + d) + after;
  }

  lemma DescribeIsText(t: Target, tls: bool)
    ensures Describe(t, tls) == Text(t, true, tls, ConnectData(t) + ")")
    ensures Address(t, tls) == Text(t, false, tls, "")
  {
    hide Text, Address, ConnectData;
    AddressIsText(t, tls);
    TextExtends(t, tls, ConnectData(t) + ")");
    var x := "(DESCRIPTION=" + Address(t, tls);
    assert (x + ConnectData(t)) + ")" == x + (ConnectData(t) + ")");
  }

  lemma OccursFirst(s: string, w: string, i: nat)
    requires w != "" && Occurs(s, w, i)
    ensures i < |s| && s[i] == w[0]
  {
    assert s[i..i + |w|][0] == s[i];
  }

  lemma OccursChars(s: string, w: string, i: nat)
    requires Occurs(s, w, i) && w != ""
    ensures forall k | 0 <= k < |w| :: i + k < |s| && s[i + k] == w[k]
  {
    forall k | 0 <= k < |w|
      ensures s[i + k] == w[k]
    {
      assert s[i..i + |w|][k] == s[i + k];
    }
  }

  /** The host read back stops at its first closing parenthesis. */
  lemma HostReadBack(t: Target, described: bool, tls: bool, after: string)
    ensures Field(Text(t, described, tls, after), "HOST=")
         == Some(match FindChar(t.host, ')') case Some(i) => t.host[..i] case None => t.host)
  {
    hide Lead, Decimal, FindText, FindChar, Field, Occurs;
    var s, lead := Text(t, described, tls, after), Lead(described, tls);
    var tail := "(PORT=" + Decimal(t.port) + "))" + after;
    LeadHasNoKeys(described, tls);
    assert lead <= s;
    forall i | 0 <= i < |lead|
      ensures !Occurs(s, "HOST=", i)
    {
      assert s[i] == lead[i] && NoKeyAt(lead, i);
      if Occurs(s, "HOST=", i) {
        OccursFirst(s, "HOST=", i);
      }
    }
    match FindChar(t.host, ')')
    case None => FieldAt(lead, "HOST=", t.host, tail);
    case Some(i) =>
      var rest := t.host[i + 1..] + ")" + tail;
      assert t.host == t.host[..i] + ")" + t.host[i + 1..];
      assert s == lead + "HOST=" + t.host[..i] + ")" + rest;
      FieldAt(lead, "HOST=", t.host[..i], rest);
  }

  /** What stands where in such a text. */
  lemma TextLayout(t: Target, described: bool, tls: bool, after: string)
    ensures var s, lead := Text(t, described, tls, after), Lead(described, tls);
      var n := |lead| + 5;
      && n + |t.host| + 2 <= |s|
      && lead <= s && s[|lead|..n] == "HOST=" && s[n..n + |t.host|] == t.host
      && s[n + |t.host|] == ')' && s[n + |t.host| + 1] == '('
  {
    hide Lead, Decimal;
  }

  /** No port key starts before the host's own. */
  lemma NoPortBefore(t: Target, described: bool, tls: bool, after: string, i: nat)
    requires Free(t.host, ')')
    ensures var s, n := Text(t, described, tls, after), |Lead(described, tls)| + 5;
      Occurs(s, "PORT=", i) && i < n + |t.host| + 2 ==> n <= i && Occurs(t.host, "PORT=", i - n)
  {
    hide Lead, Text, NoKeys;
    var s, lead := Text(t, described, tls, after), Lead(described, tls);
    TextLayout(t, described, tls, after);
    LeadHasNoKeys(described, tls);
    if Occurs(s, "PORT=", i) && i < |lead| + 5 + |t.host| + 2 {
      PortInHost(s, lead, t.host, i);
    }
  }

  lemma PortInHost(s: string, lead: string, host: string, i: nat)
    requires NoKeys(lead) && lead <= s && Free(host, ')') && Occurs(s, "PORT=", i)
    requires i < |lead| + 5 + |host| + 2 <= |s| && s[|lead|..|lead| + 5] == "HOST="
    requires var n := |lead| + 5; s[n..n + |host|] == host && s[n + |host|] == ')' && s[n + |host| + 1] == '('
    ensures |lead| + 5 <= i && Occurs(host, "PORT=", i - (|lead| + 5))
  {
    hide Occurs, NoKeys;
    var n := |lead| + 5;
    KeyBehind(s, |lead|, "HOST=");
    OccursChars(s, "PORT=", i);
    var w := "PORT=";
    assert w[0] == 'P' && w[1] == 'O' && w[2] == 'R' && w[3] == 'T' && w[4] == '=';
    var key := "HOST=";
    assert key[0] == 'H' && key[1] == 'O' && key[2] == 'S' && key[3] == 'T' && key[4] == '=';
    if i < |lead| {
      LeadStart(s, lead, i);
    }
    assert n <= i && i + 5 <= n + |host|;
    PartOfPart(s, n, host, i, "PORT=");
  }

  lemma LeadStart(s: string, lead: string, i: nat)
    requires NoKeys(lead) && lead <= s && i < |lead|
    ensures s[i] == 'P' ==> i + 1 < |s| && s[i + 1] != 'O'
  {
    assert NoKeyAt(lead, i);
  }

  lemma KeyBehind(s: string, n: nat, key: string)
    requires n + |key| <= |s| && s[n..n + |key|] == key
    ensures forall k | 0 <= k < |key| :: s[n + k] == key[k]
  {
    forall k | 0 <= k < |key| ensures s[n + k] == key[k] { assert s[n..n + |key|][k] == s[n + k]; }
  }

  lemma PartOfPart(s: string, n: nat, part: string, i: nat, w: string)
    requires n + |part| <= |s| && s[n..n + |part|] == part && n <= i && i + |w| <= n + |part| && Occurs(s, w, i) && w != ""
    ensures Occurs(part, w, i - n)
  {
    var j := i - n;
    var x := part[j..j + |w|];
    OccursChars(s, w, i);
    forall k | 0 <= k < |w|
      ensures x[k] == w[k]
    {
      assert x[k] == part[j + k] == s[n..n + |part|][j + k] == s[i + k];
    }
  }

  /** The port read back is that of the address, unless the host has a port key of its own. */
  lemma PortReadBack(t: Target, described: bool, tls: bool, after: string)
    requires Free(t.host, ')')
    ensures Field(Text(t, described, tls, after), "PORT=")
         == Some(match FindText(t.host, "PORT=") case Some(i) => t.host[i + 5..] case None => Decimal(t.port))
  {
    hide Lead, Decimal, FindText, FindChar, Field, Text;
    var s, lead, digits := Text(t, described, tls, after), Lead(described, tls), Decimal(t.port);
    var n := |lead| + 5;
    match FindText(t.host, "PORT=")
    case None =>
      var before := lead + "HOST=" + t.host + ")(";
      TextByPort(t, described, tls, after);
      forall i | 0 <= i < |before|
        ensures !Occurs(s, "PORT=", i)
      {
        NoPortBefore(t, described, tls, after, i);
      }
      DigitsAreNotParens(t.port);
      FieldAt(before, "PORT=", digits, ")" + after);
    case Some(j) =>
      var before := lead + "HOST=" + t.host[..j];
      TextByOwnPort(t, described, tls, after, j);
      forall i | 0 <= i < |before|
        ensures !Occurs(s, "PORT=", i)
      {
        NoPortBefore(t, described, tls, after, i);
      }
      FieldAt(before, "PORT=", t.host[j + 5..], "(PORT=" + digits + "))" + after);
  }

  lemma DigitsAreNotParens(n: nat)
    ensures Free(Decimal(n), ')')
  {
    var s := Decimal(n);
    forall i | 0 <= i < |s| ensures s[i] != ')' { assert IsDigit(s[i]); }
  }

  lemma TextByPort(t: Target, described: bool, tls: bool, after: string)
    ensures Text(t, described, tls, after)
         == Lead(described, tls) + "HOST=" + t.host + ")(" + "PORT=" + Decimal(t.port) + ")" + (")" + after)
  {
    hide Lead, Decimal;
    var d := Decimal(t.port);
    assert "(PORT=" == "(" + "PORT=" && "))" == ")" + ")" && ")(" == ")" + "(";
    assert "(PORT=" + d + "))" + after == "(" + ("PORT=" + d + ")" + (")" + after));
  }

  lemma TextByOwnPort(t: Target, described: bool, tls: bool, after: string, j: nat)
    requires Occurs(t.host, "PORT=", j)
    ensures Text(t, described, tls, after)
         == Lead(described, tls) + "HOST=" + t.host[..j] + "PORT=" + t.host[j + 5..] + ")"
            + ("(PORT=" + Decimal(t.port) + "))" + after)
  {
    hide Lead, Decimal;
    assert t.host == t.host[..j] + "PORT=" + t.host[j + 5..];
  }

  /** Host and port are read back from a descriptor, or from a bare address, exactly if the host
      has no closing parenthesis in it and no port key that leads elsewhere. */
  lemma AddressReadBack(t: Target, tls: bool)
    ensures var exact := Free(t.host, ')') && match FindText(t.host, "PORT=")
              case Some(i) => ParseUnsigned(t.host[i + 5..], 0xFFFF) == Some(t.port)
              case None => true;
      && (ExtractHostPort(Describe(t, tls)) == (Some(t.host), Some(t.port)) <==> exact)
      && (ExtractHostPort(Address(t, tls)) == (Some(t.host), Some(t.port)) <==> exact)
  {
    hide Text, Field, Decimal, FindText, FindChar, Describe, Address, ParseUnsigned;
    DescribeIsText(t, tls);
    HostReadBack(t, true, tls, ConnectData(t) + ")");
    HostReadBack(t, false, tls, "");
    if Free(t.host, ')') {
      PortReadBack(t, true, tls, ConnectData(t) + ")");
      PortReadBack(t, false, tls, "");
      ParseOfDecimal(t.port, 0xFFFF);
    }
  }

  // ---- The documented forms ------------------------------------------------------------

  lemma BareIsKept(s: string, white: char -> bool)
    requires s != "" && !white(s[0]) && s[0] != '/' && !EndsBlank(s, white)
    ensures Parse(s, white) == ParseBare(s)
  {
    hide Bare, ParseBare;
    BareKeeps(s, white);
  }

  lemma DigitsEnd(front: string, n: nat, white: char -> bool)
    requires Blanks(white)
    ensures !EndsBlank(front + Decimal(n), white)
  {
    hide Decimal;
    var d := Decimal(n);
    assert IsDigit(d[|d| - 1]) && (front + d)[|front + d| - 1] == d[|d| - 1];
  }

  lemma PartsOfHost(host: string, rest: string)
    requires Free(host, '/') && Free(host, ':')
    ensures Split(host, ':') == [host] && FindChar(host, '/') == None && FindChar(host, ':') == None
    ensures FindChar(host + "/" + rest, '/') == Some(|host|)
  {
    SplitNone(host);
    FirstChar(host + "/" + rest, '/', |host|);
  }

  lemma HostParses(host: string)
    requires Free(host, '/') && Free(host, ':') && host != "" && host[0] != '('
    ensures ParseBare(host) == Success(Target(host, 1521, ServiceName("FREEPDB1")))
  {
    hide Split, FindChar;
    PartsOfHost(host, "");
  }

  lemma HostAndServiceParse(host: string, name: string)
    requires Free(host, '/') && Free(host, ':') && host != "" && host[0] != '(' && name != ""
    ensures ParseBare(host + "/" + name) == Success(Target(host, 1521, ServiceName(name)))
  {
    hide Split, FindChar;
    PartsOfHost(host, name);
    var s := host + "/" + name;
    assert s[..|host|] == host && s[|host| + 1..] == name && s[0] == host[0];
  }

  lemma HostAndPortParse(host: string, port: nat)
    requires Free(host, '/') && Free(host, ':') && host != "" && host[0] != '('
    ensures ParseBare(host + ":" + Decimal(port)) ==
      if port < 65536 then Success(Target(host, port, ServiceName("FREEPDB1"))) else Failure(BadPort)
  {
    hide Split, FindChar, Decimal, ParseUnsigned;
    var d := Decimal(port);
    DigitsFree(port);
    SplitOne(host, d);
    SplitNone(d);
    NoSlash(host, d);
    ReadDecimal(port);
    assert (host + ":" + d)[0] == host[0];
  }

  lemma NoSlash(a: string, b: string)
    requires Free(a, '/') && Free(b, '/')
    ensures FindChar(a + ":" + b, '/') == None
  {
    var s := a + ":" + b;
    forall k | 0 <= k < |s|
      ensures s[k] != '/'
    {
    }
  }

  lemma ReadDecimal(n: nat)
    ensures ParseUnsigned(Decimal(n), 0xFFFF) == if n < 65536 then Some(n) else None
  {
    ValueOfDecimal(n);
    assert IsDigit(Decimal(n)[0]);
  }

  /** The forms that the parser's documentation lists: a host alone, with a service, with a port, and
      with both behind two slashes. The port that is left out is 1521, the service FREEPDB1. */
  lemma ShortForms(host: string, port: nat, name: string, white: char -> bool)
    requires Blanks(white) && GoodHost(host, white) && !EndsBlank(host, white) && name != "" && !EndsBlank(name, white)
    ensures Parse(host, white) == Success(Target(host, 1521, ServiceName("FREEPDB1")))
    ensures Parse(host + "/" + name, white) == Success(Target(host, 1521, ServiceName(name)))
    ensures Parse(host + ":" + Decimal(port), white) ==
      if port < 65536 then Success(Target(host, port, ServiceName("FREEPDB1"))) else Failure(BadPort)
    ensures port < 65536 ==>
      Parse("//" + (host + ":" + Decimal(port) + "/" + name), white) == Success(Target(host, port, ServiceName(name)))
    ensures Parse(host + "/", white) == Failure(MissingService)
  {
    hide ParseBare, Decimal, Parse, Free, FindChar;
    HostStarts(host, white);
    BareIsKept(host, white);
    HostParses(host);
    BareIsKept(host + "/" + name, white);
    HostAndServiceParse(host, name);
    DigitsEnd(host + ":", port, white);
    BareIsKept(host + ":" + Decimal(port), white);
    HostAndPortParse(host, port);
    BareIsKept(host + "/", white);
    NoServiceParses(host);
    if port < 65536 {
      SlashesParse(host, port, name, white);
    }
  }

  lemma HostStarts(host: string, white: char -> bool)
    requires GoodHost(host, white)
    ensures host != "" && host[0] != '(' && !white(host[0]) && host[0] != '/' && Free(host, '/') && Free(host, ':')
  {
  }

  lemma NoServiceParses(host: string)
    requires Free(host, '/') && Free(host, ':') && host != "" && host[0] != '('
    ensures ParseBare(host + "/") == Failure(MissingService)
  {
    hide Split, FindChar;
    PartsOfHost(host, "");
    var s := host + "/";
    assert s == host + "/" + "" && s[|host| + 1..] == "" && s[0] == host[0];
  }

  lemma SlashesParse(host: string, port: Port, name: string, white: char -> bool)
    requires Blanks(white) && GoodHost(host, white) && name != "" && !EndsBlank(name, white)
    ensures Parse("//" + (host + ":" + Decimal(port) + "/" + name), white)
         == Success(Target(host, port, ServiceName(name)))
  {
    hide ParseBare, Decimal, Leading, Trailing, Free;
    HostStarts(host, white);
    var x := host + ":" + Decimal(port) + "/" + name;
    var s := "//" + x;
    assert x[0] == host[0] && x[|x| - 1] == name[|name| - 1];
    assert s[0] == '/' && s[|s| - 1] == x[|x| - 1];
    TrimsKeep(s, white);
    SlashesOff(x);
    ServiceTextParses(host, port, name);
  }

  lemma SlashesOff(x: string)
    requires x != "" && x[0] != '/'
    ensures TrimStart("//" + x, c => c == '/') == x
  {
    hide Leading;
    var s := "//" + x;
    assert s[2] == x[0] && s[2..] == x;
    LeadingIs(s, c => c == '/', 2);
  }

  lemma LeadingIs(s: string, p: char -> bool, n: nat)
    requires n <= |s| && (forall k | 0 <= k < n :: p(s[k])) && (n < |s| ==> !p(s[n]))
    ensures Leading(s, p) == n
  {
  }

  lemma Joined6(a: string, b: string, c: string, d: string, e: string, f: string, g: string)
    ensures a + b + c + d + e + f + g == a + (b + c + d + e + f + g)
  {
  }

  lemma JoinedParts(d: string, a: string, x: string, c: string, s: string, name: string, e: string)
    ensures d + (a + x) + (c + (s + name + e) + e) + e == (d + a) + x + ((c + s) + name + (e + e + e))
  {
  }

  lemma JoinedKeys()
    ensures "(DESCRIPTION=" + "(ADDRESS=(PROTOCOL=" == "(DESCRIPTION=(ADDRESS=(PROTOCOL="
    ensures "(CONNECT_DATA=" + "(SERVICE_NAME=" == "(CONNECT_DATA=(SERVICE_NAME="
    ensures "(CONNECT_DATA=" + "(SID=" == "(CONNECT_DATA=(SID=" && ")" + ")" + ")" == ")))"
  {
  }

  /** What is refused, and as what: nothing but blanks, a descriptor, a port that is no number, too many
      colons, and no host. */
  lemma RefusedForms(a: string, b: string, c: string, d: string, white: char -> bool)
    requires Blanks(white) && !white('(') && Free(a, '/') && Free(a, ':') && Free(b, '/') && Free(b, ':')
    requires Free(c, '/') && Free(c, ':') && d != "" && Free(d, '/') && !EndsBlank(d, white)
    requires a != "" ==> !white(a[0]) && a[0] != '('
    ensures Parse("", white) == Failure(Empty)
    ensures Parse("(" + d, white) == Failure(Descriptor)
    ensures Parse(a + ":" + (b + ":" + (c + ":" + d)), white) == Failure(TooManyColons)
    ensures b != "" && !EndsBlank(b, white) && ParseUnsigned(b, 0xFFFF).None? ==>
      Parse(a + ":" + b, white) == Failure(BadPort)
    ensures Parse(":" + Decimal(1521), white) == Failure(MissingHost)
  {
    hide Parse, Split, FindChar, Free, Decimal, ParseUnsigned;
    NothingParses(white);
    DescriptorParses(d, white);
    ManyColonsParse(a, b, c, d, white);
    if b != "" && !EndsBlank(b, white) {
      BadPortParses(a, b, white);
    }
    NoHostParses(white);
  }

  lemma NothingParses(white: char -> bool)
    ensures Parse("", white) == Failure(Empty)
  {
  }

  lemma LastOf(a: string, b: string)
    requires b != ""
    ensures (a + b)[|a + b| - 1] == b[|b| - 1]
  {
  }

  lemma DescriptorParses(d: string, white: char -> bool)
    requires !white('(') && d != "" && !EndsBlank(d, white)
    ensures Parse("(" + d, white) == Failure(Descriptor)
  {
    hide Bare, Split, FindChar;
    LastOf("(", d);
    BareIsKept("(" + d, white);
  }

  lemma StartsClean(a: string, rest: string, white: char -> bool)
    requires Blanks(white) && Free(a, '/') && (a != "" ==> !white(a[0]) && a[0] != '(')
    ensures var s := a + ":" + rest; s != "" && !white(s[0]) && s[0] != '/' && s[0] != '('
  {
    var s := a + ":" + rest;
    assert s[0] == if a != "" then a[0] else ':';
  }

  lemma ManyColonsParse(a: string, b: string, c: string, d: string, white: char -> bool)
    requires Blanks(white) && Free(a, '/') && Free(a, ':') && Free(b, '/') && Free(b, ':')
    requires Free(c, '/') && Free(c, ':') && d != "" && Free(d, '/') && !EndsBlank(d, white)
    requires a != "" ==> !white(a[0]) && a[0] != '('
    ensures Parse(a + ":" + (b + ":" + (c + ":" + d)), white) == Failure(TooManyColons)
  {
    hide Bare, Split, FindChar, Parse;
    var w2 := c + ":" + d;
    var w1 := b + ":" + w2;
    var s := a + ":" + w1;
    StartsClean(a, w1, white);
    LastOf(c + ":", d);
    LastOf(b + ":", w2);
    LastOf(a + ":", w1);
    BareIsKept(s, white);
    SplitOne(a, w1);
    SplitOne(b, w2);
    SplitOne(c, d);
    FreeJoined(c, d);
    FreeJoined(b, w2);
    FreeJoined(a, w1);
    NoneFound(s, '/');
  }

  lemma FreeJoined(a: string, b: string)
    requires Free(a, '/') && Free(b, '/')
    ensures Free(a + ":" + b, '/')
  {
  }

  lemma NoneFound(s: string, c: char)
    requires Free(s, c)
    ensures FindChar(s, c) == None
  {
  }

  lemma BadPortParses(a: string, b: string, white: char -> bool)
    requires Blanks(white) && Free(a, '/') && Free(a, ':')
    requires Free(b, '/') && Free(b, ':') && b != "" && !EndsBlank(b, white)
    requires a != "" ==> !white(a[0]) && a[0] != '('
    ensures ParseUnsigned(b, 0xFFFF).None? ==> Parse(a + ":" + b, white) == Failure(BadPort)
  {
    hide Bare, Split, FindChar, Parse, ParseUnsigned;
    StartsClean(a, b, white);
    LastOf(a + ":", b);
    BareIsKept(a + ":" + b, white);
    SplitOne(a, b);
    SplitNone(b);
    FreeJoined(a, b);
    NoneFound(a + ":" + b, '/');
  }

  lemma NoHostParses(white: char -> bool)
    requires Blanks(white)
    ensures Parse(":" + Decimal(1521), white) == Failure(MissingHost)
  {
    hide Bare, Split, FindChar, Parse, ParseUnsigned, Decimal;
    var d := Decimal(1521);
    StartsClean("", d, white);
    DigitsEnd(":", 1521, white);
    BareIsKept(":" + d, white);
    DigitsFree(1521);
    assert "" + ":" + d == ":" + d;
    SplitOne("", d);
    SplitNone(d);
    FreeJoined("", d);
    NoneFound(":" + d, '/');
    ReadDecimal(1521);
  }

  /** The descriptor of a service name, and of a SID. */
  lemma DescriptorTexts(host: string, port: Port, name: string, tls: bool)
    ensures var front := "(DESCRIPTION=(ADDRESS=(PROTOCOL=" + (if tls then "TCPS" else "TCP") + ")(HOST=" + host
                         + ")(PORT=" + Decimal(port) + "))";
      && Describe(Target(host, port, ServiceName(name)), tls) == front + ("(CONNECT_DATA=(SERVICE_NAME=" + name + ")))")
      && Describe(Target(host, port, Sid(name)), tls) == front + ("(CONNECT_DATA=(SID=" + name + ")))")
  {
    hide Decimal;
    var proto, d := if tls then "TCPS" else "TCP", Decimal(port);
    var x := proto + ")(HOST=" + host + ")(PORT=" + d + "))";
    JoinedKeys();
    Joined6("(ADDRESS=(PROTOCOL=", proto, ")(HOST=", host, ")(PORT=", d, "))");
    Joined6("(DESCRIPTION=(ADDRESS=(PROTOCOL=", proto, ")(HOST=", host, ")(PORT=", d, "))");
    JoinedParts("(DESCRIPTION=", "(ADDRESS=(PROTOCOL=", x, "(CONNECT_DATA=", "(SERVICE_NAME=", name, ")");
    JoinedParts("(DESCRIPTION=", "(ADDRESS=(PROTOCOL=", x, "(CONNECT_DATA=", "(SID=", name, ")");
  }

  lemma SameMiddle(a: string, x: string, y: string, z: string)
    requires a + x + z == a + y + z
    ensures x == y
  {
    assert |x| == |y|;
    forall k | 0 <= k < |x|
      ensures x[k] == y[k]
    {
      assert (a + x + z)[|a| + k] == x[k] && (a + y + z)[|a| + k] == y[k];
    }
  }

  /** From the descriptor the listener can tell the target: host, port and whether a service name or
      a SID was meant, if the hosts have no parenthesis and no port key in them. */
  lemma DescriptorTellsTarget(a: Target, b: Target, tls: bool)
    requires Describe(a, tls) == Describe(b, tls)
    requires Free(a.host, ')') && Free(b.host, ')')
    requires FindText(a.host, "PORT=").None? && FindText(b.host, "PORT=").None?
    ensures a == b
  {
    hide Address, ExtractHostPort, FindText, Free;
    AddressReadBack(a, tls);
    AddressReadBack(b, tls);
    AddressByParts(a, b, tls);
    SameMiddle("(DESCRIPTION=" + Address(a, tls), ConnectData(a), ConnectData(b), ")");
    SameMiddle("(CONNECT_DATA=", ServicePart(a), ServicePart(b), ")");
    SameService(a, b);
  }

  lemma AddressByParts(a: Target, b: Target, tls: bool)
    requires a.host == b.host && a.port == b.port
    ensures Address(a, tls) == Address(b, tls)
  {
  }

  lemma SameService(a: Target, b: Target)
    requires ServicePart(a) == ServicePart(b)
    ensures a.service == b.service
  {
    assert a.service.ServiceName? <==> ServicePart(a)[2] == 'E';
    assert b.service.ServiceName? <==> ServicePart(b)[2] == 'E';
    match (a.service, b.service) {
      case (ServiceName(x), ServiceName(y)) => SameMiddle("(SERVICE_NAME=", x, y, ")");
      case (Sid(x), Sid(y)) => SameMiddle("(SID=", x, y, ")");
      case _ =>
    }
  }
}

/** The printer, the parser and the two descriptor routines as they are written. */
module ConnectStringCode {
  import opened ConnectStrings
  import opened Texts
  import opened Wrappers

  /** `from_str`: a configuration with the defaults is filled in field by field. */
  method FromStr(text: string, white: char -> bool) returns (r: Result<Target, ParseError>)
    ensures r == Parse(text, white)
  {
    hide ParseUnsigned, Split, Bare;
    var s := Bare(text, white);
    if s == "" {
      return Failure(Empty);
    }
    if s[0] == '(' {
      return Failure(Descriptor);
    }
    var config := Target("localhost", DEFAULT_PORT, ServiceName(DEFAULT_SERVICE));
    var slash := FindChar(s, '/');
    if slash.Some? {
      var hostPort, name := s[..slash.value], s[slash.value + 1..];
      if name == "" {
        return Failure(MissingService);
      }
      config := config.(service := ServiceName(name));
      var colon := FindChar(hostPort, ':');
      if colon.Some? {
        config := config.(host := hostPort[..colon.value]);
        var port :- ReadPort(hostPort[colon.value + 1..]);
        config := config.(port := port);
      } else {
        config := config.(host := hostPort);
        config := config.(port := DEFAULT_PORT);
      }
    } else {
      var parts := Split(s, ':');
      if |parts| == 1 {
        config := config.(host := parts[0]);
      } else if |parts| == 2 {
        config := config.(host := parts[0]);
        var port :- ReadPort(parts[1]);
        config := config.(port := port);
      } else if |parts| == 3 {
        config := config.(host := parts[0]);
        var port :- ReadPort(parts[1]);
        config := config.(port := port);
        config := config.(service := Sid(parts[2]));
      } else {
        return Failure(TooManyColons);
      }
    }
    if config.host == "" {
      return Failure(MissingHost);
    }
    return Success(config);
  }

  /** `build_connect_string`: the parts are pushed one after the other and then joined. */
  method BuildConnectString(t: Target, tls: bool) returns (s: string)
    ensures s == Describe(t, tls)
  {
    hide Decimal;
    var parts: seq<string> := [];
    parts := parts + ["(ADDRESS=(PROTOCOL=" + Protocol(tls) + ")(HOST=" + t.host + ")(PORT=" + Decimal(t.port) + "))"];
    var servicePart := match t.service
      case ServiceName(name) => "(SERVICE_NAME=" + name + ")"
      case Sid(sid) => "(SID=" + sid + ")";
    parts := parts + ["(CONNECT_DATA=" + servicePart + ")"];
    var joined := parts[0] + parts[1];
    s := "(DESCRIPTION=" + joined + ")";
    assert "(DESCRIPTION=" + (parts[0] + parts[1]) == "(DESCRIPTION=" + parts[0] + parts[1];
  }

  method ExtractAddress(address: string) returns (host: Option<string>, port: Option<nat>)
    ensures (host, port) == ExtractHostPort(address)
  {
    hide FindText, FindChar, ParseUnsigned;
    host, port := None, None;
    var hostStart := FindText(address, "HOST=");
    if hostStart.Some? {
      var rest := address[hostStart.value + 5..];
      var end := FindChar(rest, ')');
      if end.Some? {
        host := Some(rest[..end.value]);
      }
    }
    var portStart := FindText(address, "PORT=");
    if portStart.Some? {
      var rest := address[portStart.value + 5..];
      var end := FindChar(rest, ')');
      if end.Some? {
        port := ParseUnsigned(rest[..end.value], 0xFFFF);
      }
    }
  }
}
