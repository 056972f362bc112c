/** What the answers to DML statements, batches, fetches and LOB operations come to, said of the
    messages a server wrote. */
module Answers {
  import opened Bytes
  import opened ErrorMessages
  import LobReplies
  import opened Reads
  import opened Responses
  import Rows
  import opened ServerMessages
  import Texts
  import opened Wrappers
  import opened Writes

  /** A message of a response to a DML statement or a batch. */
  datatype Said = Silent(note: Quiet) | Ended(end: ServerEnd)

  /** The messages of a response one after the other, and what follows them. */
  ghost function SaidThen(ms: seq<Said>, rest: seq<byte>): seq<byte>
    requires AllGood(ms)
  {
    if ms == [] then rest else FirstThen(ms[0], SaidThen(ms[1..], rest))
  }

  ghost predicate GoodSaid(m: Said) {
    match m
    case Silent(note) => note.Good()
    case Ended(e) => e.Good()
  }

  ghost predicate AllGood(ms: seq<Said>) {
    forall m | m in ms :: GoodSaid(m)
  }

  ghost function FirstThen(m: Said, rest: seq<byte>): seq<byte>
    requires GoodSaid(m)
  {
    match m
    case Silent(note) => QuietThen(note, rest)
    case Ended(e) => [4] + EndThen(e, true, rest)
  }

  /** The silent messages are ones that the loop takes. */
  ghost predicate Taken(ms: seq<Said>, want: bool, rest: seq<byte>)
    requires AllGood(ms)
  {
    ms == [] || ((ms[0].Silent? ==> InDml(ms[0].note, want, SaidThen(ms[1..], rest))) && Taken(ms[1..], want, rest))
  }

  /** What closes a response: an end message, with anything behind it, or nothing. */
  predicate Closes(rest: seq<byte>) {
    rest == [] || rest[0] == 29
  }

  /** A response as the loops see it. */
  ghost predicate Responds(payload: seq<byte>, ms: seq<Said>, want: bool, rest: seq<byte>) {
    && AllGood(ms) && Taken(ms, want, rest)
    && |payload| >= 3 && Left(payload, 2, SaidThen(ms, rest))
  }

  /** The last error message of the response. */
  function LastEnd(ms: seq<Said>): (r: Option<ServerEnd>)
    ensures r.None? ==> forall m | m in ms :: m.Silent?
    ensures r.Some? ==> exists k ::
      0 <= k < |ms| && ms[k] == Ended(r.value) && forall j | k < j < |ms| :: ms[j].Silent?
  {
    if ms == [] then None
    else
      var m := ms[|ms| - 1];
      if m.Ended? then Some(m.end) else LastEnd(ms[..|ms| - 1])
  }

  lemma SaidThenTail(ms: seq<Said>)
    requires AllGood(ms) && ms != []
    ensures AllGood(ms[1..]) && GoodSaid(ms[0])
  {
    assert ms[0] in ms && forall m | m in ms[1..] :: m in ms;
  }

  // ---- DML statements ------------------------------------------------------------------

  lemma DmlSilent(t: TextRules, n: Quiet, s: seq<byte>, p: nat, rest: seq<byte>, a: DmlAnswer) returns (q: nat)
    requires InDml(n, false, rest) && Left(s, p, QuietThen(n, rest))
    ensures p < q <= |s| && Left(s, q, rest) && DmlFrom(t, s, p, a) == DmlFrom(t, s, q, a)
  {
    hide QuietThen, Left, Message, CountsLeft;
    q := QuietMessage(t, n, false, s, p, rest);
  }

  lemma DmlEnded(t: TextRules, e: ServerEnd, s: seq<byte>, p: nat, rest: seq<byte>, a: DmlAnswer)
    returns (q: nat, code: nat, text: Option<Text>)
    requires e.Good() && Left(s, p, [4] + EndThen(e, true, rest))
    ensures p < q <= |s| && Left(s, q, rest) && Says(t, s, e, code, text)
    ensures forall c, x | Says(t, s, e, c, x) :: c == code && x == text
    ensures DmlFrom(t, s, p, a) ==
      if code != 0 && code != 1403 then Failure(Oracle(code, text.GetOr([])))
      else DmlFrom(t, s, q, DmlAnswer(e.rowCount, e.head.cursorId))
  {
    hide EndThen, Left, ErrorMessage, Says, RowErrors;
    q := ByteThen(4, s, p, EndThen(e, true, rest));
    q, code, text := ErrorRead(t, e, true, s, q, rest);
  }

  /** What the messages make of an answer. */
  function DmlAfter(ms: seq<Said>, a: DmlAnswer): DmlAnswer {
    match LastEnd(ms)
    case None => a
    case Some(e) => DmlAnswer(e.rowCount, e.head.cursorId)
  }

  lemma {:induction false} LastEndFirst(m: Said, ms: seq<Said>)
    ensures LastEnd([m] + ms) ==
      if LastEnd(ms).Some? then LastEnd(ms) else if m.Ended? then Some(m.end) else None
    decreases |ms|
  {
    var all := [m] + ms;
    if ms == [] {
      assert all[..|all| - 1] == [];
    } else {
      assert all[..|all| - 1] == [m] + ms[..|ms| - 1] && all[|all| - 1] == ms[|ms| - 1];
      LastEndFirst(m, ms[..|ms| - 1]);
    }
  }

  ghost predicate AllMild(t: TextRules, s: seq<byte>, ms: seq<Said>) {
    forall m | m in ms && m.Ended? :: Mild(t, s, m.end)
  }

  lemma {:induction false} DmlThrough(t: TextRules, ms: seq<Said>, s: seq<byte>, p: nat, rest: seq<byte>, a: DmlAnswer)
    returns (q: nat)
    requires AllGood(ms) && Taken(ms, false, rest) && AllMild(t, s, ms) && Left(s, p, SaidThen(ms, rest))
    ensures p <= q <= |s| && Left(s, q, rest) && DmlFrom(t, s, p, a) == DmlFrom(t, s, q, DmlAfter(ms, a))
    decreases |ms|
  {
    hide Left, DmlFrom, QuietThen, EndThen, InDml, GoodSaid, Says, LastEnd;
    if ms == [] {
      q := p;
      LeftBound(s, p, rest);
      NoneEnded();
    } else {
      var tail := SaidThen(ms[1..], rest);
      SaidThenTail(ms);
      LastEndFirst(ms[0], ms[1..]);
      assert [ms[0]] + ms[1..] == ms && ms[0] in ms && forall m | m in ms[1..] :: m in ms;
      var r := DmlFirst(t, ms[0], s, p, tail, a);
      q := DmlThrough(t, ms[1..], s, r, rest,
                      if ms[0].Ended? then DmlAnswer(ms[0].end.rowCount, ms[0].end.head.cursorId) else a);
    }
  }

  lemma NoneEnded()
    ensures LastEnd([]) == None
  {
  }

  lemma DmlFirst(t: TextRules, m: Said, s: seq<byte>, p: nat, tail: seq<byte>, a: DmlAnswer) returns (q: nat)
    requires GoodSaid(m) && (m.Silent? ==> InDml(m.note, false, tail)) && (m.Ended? ==> Mild(t, s, m.end))
    requires Left(s, p, FirstThen(m, tail))
    ensures p < q <= |s| && Left(s, q, tail)
    ensures DmlFrom(t, s, p, a)
         == DmlFrom(t, s, q, if m.Ended? then DmlAnswer(m.end.rowCount, m.end.head.cursorId) else a)
  {
    hide Left, DmlFrom, QuietThen, EndThen, InDml, Says;
    match m {
      case Silent(n) => q := DmlSilent(t, n, s, p, tail, a);
      case Ended(e) =>
        var code, text;
        q, code, text := DmlEnded(t, e, s, p, tail, a);
    }
  }

  lemma DmlClosed(t: TextRules, s: seq<byte>, p: nat, rest: seq<byte>, a: DmlAnswer)
    requires Left(s, p, rest) && Closes(rest)
    ensures DmlFrom(t, s, p, a) == Success(a)
  {
    hide ErrorMessage, ReturnParameters, PiggybackEnd;
    if rest != [] {
      assert s[p] == s[p..][0] == 29;
    }
  }

  /** A DML statement none of whose error messages reports a failure succeeds with the row count and
      the cursor of the last of them, and with none of either if there is no such message. */
  lemma DmlSucceeds(t: TextRules, payload: seq<byte>, ms: seq<Said>, rest: seq<byte>)
    requires Responds(payload, ms, false, rest) && Closes(rest) && AllMild(t, payload, ms)
    ensures Dml(t, payload) == Success(match LastEnd(ms)
      case Some(e) => DmlAnswer(e.rowCount, e.head.cursorId)
      case None => DmlAnswer(0, 0))
  {
    hide Left, DmlFrom, AllMild, LastEnd, AllGood, Taken, SaidThen;
    var q := DmlThrough(t, ms, payload, 2, rest, DmlAnswer(0, 0));
    DmlClosed(t, payload, q, rest, DmlAfter(ms, DmlAnswer(0, 0)));
  }

  /** The first error message that reports a failure fails it, with the code and the text that the
      message says, whatever is behind it. */
  lemma DmlFails(t: TextRules, payload: seq<byte>, ms: seq<Said>, e: ServerEnd, rest: seq<byte>, code: nat,
                 text: Option<Text>)
    requires e.Good() && Responds(payload, ms, false, [4] + EndThen(e, true, rest)) && AllMild(t, payload, ms)
    requires Says(t, payload, e, code, text) && code != 0 && code != 1403
    ensures Dml(t, payload) == Failure(Oracle(code, text.GetOr([])))
  {
    hide Left, DmlFrom, AllMild, LastEnd, AllGood, Taken, SaidThen, EndThen, Says;
    var q := DmlThrough(t, ms, payload, 2, [4] + EndThen(e, true, rest), DmlAnswer(0, 0));
    var r, c, x := DmlEnded(t, e, payload, q, rest, DmlAfter(ms, DmlAnswer(0, 0)));
  }

  // ---- Return parameters that make no sense --------------------------------------------

  /** Bytes that cannot be read as return parameters, since the first announces a number of more than
      two bytes, and that hold no 4. */
  predicate Garbled(junk: seq<byte>) {
    junk != [] && junk[0] % 0x80 > 2 && forall i | 0 <= i < |junk| :: junk[i] != 4
  }

  /** An error message that a response ends with, or that a status or an end message follows, is one
      that the search settles on; with anything else behind it it is not. */
  lemma AlignedExactly(t: TextRules, rem: seq<byte>, o: nat, e: ServerEnd, rest: seq<byte>)
    requires e.Good() && Left(rem, o, [4] + EndThen(e, true, rest))
    ensures o < |rem| && (Aligned(t, rem, o) <==> rest == [] || rest[0] == 9 || rest[0] == 29)
  {
    hide EndThen, FieldsAt;
    var p := ByteThen(4, rem, o, EndThen(e, true, rest));
    var q := EndRead(t, e, true, rem, p, rest);
    LeftBound(rem, q, rest);
    if rest != [] {
      assert rem[q] == rem[q..][0];
    }
  }

  /** The other errors that are looked for: a 4 and two numbers, with an end message somewhere
      behind. */
  lemma LikelyExactly(rem: seq<byte>, o: nat, a: u32, b: u16, rest: seq<byte>)
    requires Left(rem, o, [4] + (UbBytes(a) + (UbBytes(b) + rest)))
    ensures o < |rem| && (Likely(rem, o) <==> 29 in UbBytes(a) + (UbBytes(b) + rest))
  {
    hide UbBytes, Ub;
    var w := UbBytes(a) + (UbBytes(b) + rest);
    var p := ByteThen(4, rem, o, w);
    var q := StatusRead(a, b, rem, p, rest);
    assert rem[o + 1..] == w;
  }

  lemma GarbledIsSearched(t: TextRules, s: seq<byte>, p: nat, junk: seq<byte>, e: ServerEnd, rest: seq<byte>)
    requires Garbled(junk) && e.Good() && Left(s, p, junk + ([4] + EndThen(e, true, rest)))
    requires rest == [] || rest[0] == 9 || rest[0] == 29
    ensures ReturnParameters(t, s, p, false) == Some((None, p + |junk|)) && p + |junk| < |s|
    ensures Left(s, p + |junk|, [4] + EndThen(e, true, rest))
  {
    hide EndThen, Aligned, Likely, Search;
    var w := [4] + EndThen(e, true, rest);
    var q := Past(junk, s, p, w);
    var rem := s[p..];
    assert rem == junk + w;
    NotStandard(s, p, junk);
    assert rem[|junk|..] == w;
    AlignedExactly(t, rem, |junk|, e, rest);
    forall i | 0 < i < |junk|
      ensures !Aligned(t, rem, i)
    {
      assert rem[i] == junk[i];
      NotAligned(t, rem, i);
    }
    SearchFinds(t, rem);
    assert Found(t, rem, Some(|junk|));
    FoundOnce(t, rem, Some(|junk|), Search(t, rem));
  }

  lemma NotAligned(t: TextRules, rem: seq<byte>, i: nat)
    requires i < |rem| && rem[i] != 4
    ensures !Aligned(t, rem, i)
  {
    hide ErrorEnd;
  }

  lemma NotStandard(s: seq<byte>, p: nat, junk: seq<byte>)
    requires Garbled(junk) && At(s, p, junk) && p + |junk| <= |s|
    ensures StandardParameters(s, p, false) == None
  {
    assert s[p] == junk[0];
    assert !Ub(s, p, 2).Ok();
  }

  /** Return parameters that make no sense do not lose the row count: it is that of the error message
      behind them. */
  lemma GarbledParameters(t: TextRules, payload: seq<byte>, ms: seq<Said>, junk: seq<byte>, e: ServerEnd, rest: seq<byte>)
    requires Garbled(junk) && e.Good() && Mild(t, payload, e) && (rest == [] || rest[0] == 29)
    requires Responds(payload, ms, false, [8] + (junk + ([4] + EndThen(e, true, rest)))) && AllMild(t, payload, ms)
    ensures Dml(t, payload) == Success(DmlAnswer(e.rowCount, e.head.cursorId))
  {
    hide Left, DmlFrom, AllMild, LastEnd, AllGood, Taken, SaidThen, EndThen, Says, Garbled, ReturnParameters;
    var w := [4] + EndThen(e, true, rest);
    var a := DmlAfter(ms, DmlAnswer(0, 0));
    var q := DmlThrough(t, ms, payload, 2, [8] + (junk + w), DmlAnswer(0, 0));
    var p := ByteThen(8, payload, q, junk + w);
    GarbledIsSearched(t, payload, p, junk, e, rest);
    SearchedOn(t, payload, q, p + |junk|, a);
    var r, code, text := DmlEnded(t, e, payload, p + |junk|, rest, a);
    DmlClosed(t, payload, r, rest, DmlAnswer(e.rowCount, e.head.cursorId));
  }

  lemma SearchedOn(t: TextRules, s: seq<byte>, p: nat, q: nat, a: DmlAnswer)
    requires p < |s| && s[p] == 8 && ReturnParameters(t, s, p + 1, false) == Some((None, q))
    ensures DmlFrom(t, s, p, a) == DmlFrom(t, s, q, a)
  {
    hide ReturnParameters, ErrorMessage;
  }

  // ---- Batches -------------------------------------------------------------------------

  /** The lists are equally long and no text is blank. */
  ghost predicate Even(t: TextRules, e: ServerEnd) {
    |e.codes| == |e.rows| == |e.texts| && forall x | x in e.texts :: t.trim(x.text.GetOr([])) != []
  }

  /** The failed rows of a message: to each row belongs the code and the text in the same place. */
  function FailedRows(t: TextRules, e: ServerEnd): seq<BatchError>
    requires |e.codes| == |e.rows| == |e.texts|
  {
    seq(|e.rows|, i requires 0 <= i < |e.rows| => BatchError(e.rows[i], e.codes[i], t.trim(e.texts[i].text.GetOr([]))))
  }

  ghost predicate AllEven(t: TextRules, ms: seq<Said>) {
    forall m | m in ms && m.Ended? :: Even(t, m.end)
  }

  function AllFailed(t: TextRules, ms: seq<Said>): seq<BatchError>
    requires forall m | m in ms && m.Ended? :: |m.end.codes| == |m.end.rows| == |m.end.texts|
  {
    if ms == [] then []
    else
      assert ms[0] in ms && forall m | m in ms[1..] :: m in ms;
      (if ms[0].Ended? then FailedRows(t, ms[0].end) else []) + AllFailed(t, ms[1..])
  }

  /** The row counts told last. */
  function LastCounts(ms: seq<Said>, before: Option<seq<nat>>): Option<seq<nat>> {
    if ms == [] then before
    else
      var told := if ms[0].Silent? then CountsTold(ms[0].note) else None;
      LastCounts(ms[1..], if told.Some? then told else before)
  }

  /** A message that reports a failure is borne if errors of rows are, and there are some by then. */
  ghost predicate Borne(t: TextRules, s: seq<byte>, ms: seq<Said>, tolerant: bool, failed: nat) {
    ms == [] || (if ms[0].Silent? then Borne(t, s, ms[1..], tolerant, failed)
                 else
                   var e := ms[0].end;
                   && (Mild(t, s, e) || (tolerant && failed + |e.rows| > 0))
                   && Borne(t, s, ms[1..], tolerant, failed + |e.rows|))
  }

  lemma EvenErrors(t: TextRules, e: ServerEnd, code: nat, text: Option<Text>)
    requires Even(t, e)
    ensures RowErrors(ListsOf(t, e), code, text) == FailedRows(t, e)
  {
    hide OraText;
    var es := RowErrors(ListsOf(t, e), code, text);
    forall i | 0 <= i < |es|
      ensures es[i] == FailedRows(t, e)[i]
    {
      assert e.texts[i] in e.texts;
    }
  }

  lemma BatchSilent(t: TextRules, n: Quiet, want: bool, tolerant: bool, s: seq<byte>, p: nat, rest: seq<byte>,
                    a: BatchAnswer) returns (q: nat)
    requires InDml(n, want, rest) && Left(s, p, QuietThen(n, rest))
    ensures p < q <= |s| && Left(s, q, rest)
    ensures BatchFrom(t, s, p, want, tolerant, a) == BatchFrom(t, s, q, want, tolerant,
      a.(counts := if CountsTold(n).Some? then CountsTold(n) else a.counts))
  {
    hide QuietThen, Left, Message, CountsLeft;
    q := QuietMessage(t, n, want, s, p, rest);
  }

  lemma BatchEnded(t: TextRules, e: ServerEnd, want: bool, tolerant: bool, s: seq<byte>, p: nat, rest: seq<byte>,
                   a: BatchAnswer) returns (q: nat, code: nat, text: Option<Text>)
    requires e.Good() && Left(s, p, [4] + EndThen(e, true, rest))
    ensures p < q <= |s| && Left(s, q, rest) && Says(t, s, e, code, text)
    ensures forall c, x | Says(t, s, e, c, x) :: c == code && x == text
    ensures var errors := a.errors + RowErrors(ListsOf(t, e), code, text);
      BatchFrom(t, s, p, want, tolerant, a) ==
        if code != 0 && code != 1403 && !(tolerant && errors != []) then Failure(Oracle(code, text.GetOr([])))
        else BatchFrom(t, s, q, want, tolerant, a.(rowsAffected := e.rowCount, errors := errors))
  {
    hide EndThen, Left, ErrorMessage, Says, RowErrors, ListsOf;
    q := ByteThen(4, s, p, EndThen(e, true, rest));
    q, code, text := ErrorRead(t, e, true, s, q, rest);
  }

  ghost function BatchAfter(t: TextRules, ms: seq<Said>, a: BatchAnswer): BatchAnswer
    requires AllEven(t, ms)
  {
    BatchAnswer(match LastEnd(ms) case None => a.rowsAffected case Some(e) => e.rowCount, LastCounts(ms, a.counts),
                a.errors + AllFailed(t, ms))
  }

  ghost function OneAfter(t: TextRules, m: Said, a: BatchAnswer): BatchAnswer
    requires m.Ended? ==> Even(t, m.end)
  {
    match m
    case Silent(n) => a.(counts := if CountsTold(n).Some? then CountsTold(n) else a.counts)
    case Ended(e) => a.(rowsAffected := e.rowCount, errors := a.errors + FailedRows(t, e))
  }

  lemma BatchFirst(t: TextRules, m: Said, want: bool, tolerant: bool, s: seq<byte>, p: nat, tail: seq<byte>,
                   a: BatchAnswer) returns (q: nat)
    requires GoodSaid(m) && (m.Silent? ==> InDml(m.note, want, tail)) && (m.Ended? ==> Even(t, m.end))
    requires m.Ended? ==> Mild(t, s, m.end) || (tolerant && |a.errors| + |m.end.rows| > 0)
    requires Left(s, p, FirstThen(m, tail))
    ensures p < q <= |s| && Left(s, q, tail)
    ensures BatchFrom(t, s, p, want, tolerant, a) == BatchFrom(t, s, q, want, tolerant, OneAfter(t, m, a))
  {
    hide Left, BatchFrom, QuietThen, EndThen, InDml, Says, RowErrors, ListsOf, CountsTold, Even;
    match m {
      case Silent(n) => q := BatchSilent(t, n, want, tolerant, s, p, tail, a);
      case Ended(e) =>
        var code, text;
        q, code, text := BatchEnded(t, e, want, tolerant, s, p, tail, a);
        EvenErrors(t, e, code, text);
        EvenLists(t, e);
        assert |a.errors + FailedRows(t, e)| == |a.errors| + |e.rows|;
    }
  }

  lemma EvenLists(t: TextRules, e: ServerEnd)
    requires Even(t, e)
    ensures |e.codes| == |e.rows| == |e.texts|
  {
  }

  lemma AfterFirst(t: TextRules, m: Said, ms: seq<Said>, a: BatchAnswer)
    requires AllEven(t, [m] + ms) && AllEven(t, ms) && (m.Ended? ==> Even(t, m.end))
    ensures BatchAfter(t, [m] + ms, a) == BatchAfter(t, ms, OneAfter(t, m, a))
  {
    hide LastEnd, CountsTold;
    var all := [m] + ms;
    assert all[0] == m && all[1..] == ms;
    LastEndFirst(m, ms);
    var own := if m.Ended? then FailedRows(t, m.end) else [];
    assert a.errors + (own + AllFailed(t, ms)) == (a.errors + own) + AllFailed(t, ms);
    assert a.errors + [] == a.errors;
  }

  lemma {:induction false} BatchThrough(t: TextRules, ms: seq<Said>, want: bool, tolerant: bool, s: seq<byte>, p: nat,
                                        rest: seq<byte>, a: BatchAnswer) returns (q: nat)
    requires AllGood(ms) && Taken(ms, want, rest) && AllEven(t, ms) && Left(s, p, SaidThen(ms, rest))
    requires Borne(t, s, ms, tolerant, |a.errors|)
    ensures p <= q <= |s| && Left(s, q, rest)
    ensures BatchFrom(t, s, p, want, tolerant, a) == BatchFrom(t, s, q, want, tolerant, BatchAfter(t, ms, a))
    decreases |ms|
  {
    hide Left, BatchFrom, QuietThen, EndThen, InDml, GoodSaid, Says, LastEnd, BatchAfter, Mild, Even, CountsTold;
    if ms == [] {
      q := p;
      LeftBound(s, p, rest);
      NothingAfter(t, a);
    } else {
      var tail := SaidThen(ms[1..], rest);
      SaidThenTail(ms);
      assert [ms[0]] + ms[1..] == ms && ms[0] in ms && forall m | m in ms[1..] :: m in ms;
      AfterFirst(t, ms[0], ms[1..], a);
      ErrorsGrow(t, ms[0], a);
      var r := BatchFirst(t, ms[0], want, tolerant, s, p, tail, a);
      q := BatchThrough(t, ms[1..], want, tolerant, s, r, rest, OneAfter(t, ms[0], a));
    }
  }

  lemma ErrorsGrow(t: TextRules, m: Said, a: BatchAnswer)
    requires m.Ended? ==> Even(t, m.end)
    ensures |OneAfter(t, m, a).errors| == |a.errors| + if m.Ended? then |m.end.rows| else 0
  {
  }

  lemma NothingAfter(t: TextRules, a: BatchAnswer)
    ensures AllEven(t, []) && BatchAfter(t, [], a) == a
  {
    assert a.errors + [] == a.errors;
  }

  lemma BatchClosed(t: TextRules, want: bool, tolerant: bool, s: seq<byte>, p: nat, rest: seq<byte>, a: BatchAnswer)
    requires Left(s, p, rest) && Closes(rest)
    ensures BatchFrom(t, s, p, want, tolerant, a) == Success(a)
  {
    hide ErrorMessage, ReturnParameters, PiggybackEnd;
    if rest != [] {
      assert s[p] == s[p..][0] == 29;
    }
  }

  /** A batch whose failures are borne reports the row count of the last error message, the row
      counts told last, and every failed row with its own code and text; all other rows, as many as
      the batch is large, have succeeded. */
  lemma BatchReports(t: TextRules, payload: seq<byte>, ms: seq<Said>, rest: seq<byte>, size: nat, want: bool,
                     tolerant: bool)
    requires Responds(payload, ms, want, rest) && Closes(rest) && AllEven(t, ms) && Borne(t, payload, ms, tolerant, 0)
    ensures var failed := AllFailed(t, ms);
      Batch(t, payload, size, want, tolerant) == Success(BatchResult(
        match LastEnd(ms) case None => 0 case Some(e) => e.rowCount,
        if size < |failed| then 0 else size - |failed|,
        |failed|,
        failed,
        LastCounts(ms, None)))
  {
    hide Left, BatchFrom, LastEnd, AllGood, Taken, SaidThen, Borne, AllFailed, LastCounts, AllEven;
    var q := BatchThrough(t, ms, want, tolerant, payload, 2, rest, BatchAnswer(0, None, []));
    BatchClosed(t, want, tolerant, payload, q, rest, BatchAfter(t, ms, BatchAnswer(0, None, [])));
    AllEvenLists(t, ms);
    assert [] + AllFailed(t, ms) == AllFailed(t, ms);
  }

  lemma AllEvenLists(t: TextRules, ms: seq<Said>)
    requires AllEven(t, ms)
    ensures forall m | m in ms && m.Ended? :: |m.end.codes| == |m.end.rows| == |m.end.texts|
  {
  }

  /** A failure that is not borne fails the batch, with the code and the text it says. */
  lemma BatchFails(t: TextRules, payload: seq<byte>, ms: seq<Said>, e: ServerEnd, rest: seq<byte>, size: nat, want: bool,
                   tolerant: bool, code: nat, text: Option<Text>)
    requires e.Good() && Responds(payload, ms, want, [4] + EndThen(e, true, rest))
    requires AllEven(t, ms) && Borne(t, payload, ms, tolerant, 0)
    requires tolerant ==> e.NoLists() && AllFailed(t, ms) == []
    requires Says(t, payload, e, code, text) && code != 0 && code != 1403
    ensures Batch(t, payload, size, want, tolerant) == Failure(Oracle(code, text.GetOr([])))
  {
    hide Left, BatchFrom, LastEnd, AllGood, Taken, SaidThen, Borne, AllFailed, LastCounts, AllEven, EndThen, Says;
    var a := BatchAnswer(0, None, []);
    var q := BatchThrough(t, ms, want, tolerant, payload, 2, [4] + EndThen(e, true, rest), a);
    var r, c, x := BatchEnded(t, e, want, tolerant, payload, q, rest, BatchAfter(t, ms, a));
    if tolerant {
      NoListsNoErrors(t, e, c, x);
    }
  }

  lemma NoListsNoErrors(t: TextRules, e: ServerEnd, code: nat, text: Option<Text>)
    requires e.NoLists()
    ensures RowErrors(ListsOf(t, e), code, text) == []
  {
  }

  // ---- Fetches -------------------------------------------------------------------------

  /** A fetch whose error message reports a success or the end of the rows brings the rows that were
      sent, and says whether there are more and under which cursor; with any other code it fails
      with that code and the text of the message. Nothing behind the message is read. */
  lemma FetchSays<V(!new)>(g: Rows.Setting<V>, rs: seq<Rows.SentRow<V>>, flags: seq<byte>, e: ServerEnd, rest: seq<byte>,
                           cursorId: u16)
    requires Rows.Exact(g.codec) && g.columns < 0x1_0000 && Rows.GoodRows(rs, g.columns, None) && |flags| == 2
    requires forall r | r in rs :: |r.sent| == |r.values| < 0x1_0000
    requires e.Good() && e.NoLists()
    ensures Rows.ParseFetch(g, flags + Rows.RowsBytes(g.codec, rs) + ([4] + EndThen(e, g.modern, rest)), cursorId) ==
      if e.code == 0 then Success(Rows.Fetched(Rows.Values(rs), true, e.head.cursorId))
      else if e.code == 1403 then Success(Rows.Fetched(Rows.Values(rs), false, e.head.cursorId))
      else Failure(Rows.OracleError(e.code, e.text.GetOr([])))
  {
    hide Rows.Exact, Rows.GoodRows, Rows.RowsBytes, Rows.ParseFetch, EndThen, FetchEnd, Rows.Values;
    var w := EndThen(e, g.modern, rest);
    var end := [4] + w;
    var p := ByteThen(4, end, 0, w);
    var q := FetchEndRead(e, g.modern, end, p, rest);
    Rows.RowsComeBack(g, rs, flags, end, cursorId);
  }

  /** Without an error message there may be more rows, under the cursor that was asked. */
  lemma FetchWithoutEnd<V(!new)>(g: Rows.Setting<V>, rs: seq<Rows.SentRow<V>>, flags: seq<byte>, rest: seq<byte>,
                                 cursorId: u16)
    requires Rows.Exact(g.codec) && g.columns < 0x1_0000 && Rows.GoodRows(rs, g.columns, None) && |flags| == 2
    requires forall r | r in rs :: |r.sent| == |r.values| < 0x1_0000
    requires (rs != [] || rest != []) && (rest == [] || rest[0] !in {4, 6, 7, 21})
    ensures Rows.ParseFetch(g, flags + Rows.RowsBytes(g.codec, rs) + rest, cursorId)
         == Success(Rows.Fetched(Rows.Values(rs), true, cursorId))
  {
    hide Rows.Exact, Rows.GoodRows, Rows.RowsBytes, Rows.ParseFetch, Rows.Values;
    Rows.RowsComeBack(g, rs, flags, rest, cursorId);
  }

  // ---- LOB operations ------------------------------------------------------------------

  /** A message of a response to a LOB operation: data; a locator and a number or a flag; an error
      message; or a byte that is not looked at. */
  datatype LobSaid =
    | LobData(data: seq<byte>)
    | LobReturn(locator: seq<byte>, number: u64, flag: byte)
    | LobEnd(end: ServerEnd)
    | LobStray(kind: byte)

  ghost predicate LobGood(op: LobReplies.LobOperation, m: LobSaid, locator: nat) {
    match m
    case LobData(_) => op.ReadLob?
    case LobReturn(l, _, _) => |l| == locator
    case LobEnd(e) => e.Good()
    case LobStray(kind) => kind !in {4, 8, 14, 29}
  }

  /** What was asked for, behind the locator. */
  function ReturnThen(op: LobReplies.LobOperation, n: u64, b: byte, rest: seq<byte>): seq<byte> {
    match op
    case ReadLob => UbBytes(n) + rest
    case LobNumber => UbBytes(n) + rest
    case LobFlag => [b] + rest
    case _ => rest
  }

  ghost function LobThen(op: LobReplies.LobOperation, m: LobSaid, rest: seq<byte>): seq<byte>
    requires m.LobEnd? ==> m.end.Good()
  {
    match m
    case LobData(d) => [14] + (LengthPrefixed(Some(d)) + rest)
    case LobReturn(l, n, b) => [8] + (l + ReturnThen(op, n, b, rest))
    case LobEnd(e) => [4] + EndThen(e, false, rest)
    case LobStray(kind) => [kind] + rest
  }

  ghost predicate AllLobGood(op: LobReplies.LobOperation, ms: seq<LobSaid>, locator: nat) {
    forall i: nat | i < |ms| :: LobGood(op, ms[i], locator)
  }

  ghost function LobsThen(op: LobReplies.LobOperation, ms: seq<LobSaid>, locator: nat, rest: seq<byte>): seq<byte>
    requires AllLobGood(op, ms, locator)
  {
    if ms == [] then rest else LobThen(op, ms[0], LobsThen(op, ms[1..], locator, rest))
  }

  /** What a message adds to the answer: reading takes the data, other operations take a number or a
      flag, which is set by any byte but zero. */
  function Adds(op: LobReplies.LobOperation, m: LobSaid, a: LobReplies.LobAnswer): LobReplies.LobAnswer {
    match m
    case LobData(d) => LobReplies.LobAnswer(Some(d), a.number, a.flag)
    case LobReturn(_, n, b) =>
      LobReplies.LobAnswer(a.data, if op.LobNumber? then n else a.number, if op.LobFlag? then b != 0 else a.flag)
    case _ => a
  }

  function AllAdded(op: LobReplies.LobOperation, ms: seq<LobSaid>, a: LobReplies.LobAnswer): LobReplies.LobAnswer {
    if ms == [] then a else AllAdded(op, ms[1..], Adds(op, ms[0], a))
  }

  /** No error message among them says a code other than zero. */
  ghost predicate NoLobError(t: TextRules, s: seq<byte>, m: LobSaid) {
    m.LobEnd? ==> forall code, text | Says(t, s, m.end, code, text) :: code == 0
  }

  lemma LobErrorStep(t: TextRules, op: LobReplies.LobOperation, locator: nat, e: ServerEnd, s: seq<byte>, p: nat,
                     rest: seq<byte>, a: LobReplies.LobAnswer) returns (q: nat, code: nat, text: Option<Text>)
    requires e.Good() && Left(s, p, [4] + EndThen(e, false, rest))
    ensures p < q <= |s| && Left(s, q, rest) && Says(t, s, e, code, text)
    ensures forall c, x | Says(t, s, e, c, x) :: c == code && x == text
    ensures LobReplies.LobFrom(t, op, locator, s, p, a) ==
      if code != 0 then Failure(LobReplies.Oracle(code, text.GetOr(Texts.Ascii("LOB error"))))
      else LobReplies.LobFrom(t, op, locator, s, q, a)
  {
    hide EndThen, Left, ErrorMessage, Says, RowErrors, Texts.Ascii, LobReplies.Returned, RawBytesChunked;
    q := ByteThen(4, s, p, EndThen(e, false, rest));
    q, code, text := ErrorRead(t, e, false, s, q, rest);
  }

  lemma ReturnRead(op: LobReplies.LobOperation, l: seq<byte>, n: u64, b: byte, s: seq<byte>, p: nat, rest: seq<byte>,
                   a: LobReplies.LobAnswer) returns (q: nat)
    requires Left(s, p, l + ReturnThen(op, n, b, rest))
    ensures p <= q <= |s| && Left(s, q, rest)
    ensures LobReplies.Returned(op, |l|, s, p, a) == Reading(Success(Adds(op, LobReturn(l, n, b), a)), q)
  {
    hide Left, UbBytes, Ub, SkipUb, Skip, Pow256;
    Pow256Values();
    q := Past(l, s, p, ReturnThen(op, n, b, rest));
    match op {
      case ReadLob => q := UbThen(n, 8, s, q, rest);
      case LobNumber => q := UbThen(n, 8, s, q, rest);
      case LobFlag => q := ByteThen(b, s, q, rest);
      case _ =>
    }
  }

  lemma LobReturnStep(t: TextRules, op: LobReplies.LobOperation, l: seq<byte>, n: u64, b: byte, s: seq<byte>, p: nat,
                      rest: seq<byte>, a: LobReplies.LobAnswer) returns (q: nat)
    requires Left(s, p, [8] + (l + ReturnThen(op, n, b, rest)))
    ensures p < q <= |s| && Left(s, q, rest)
    ensures LobReplies.LobFrom(t, op, |l|, s, p, a)
         == LobReplies.LobFrom(t, op, |l|, s, q, Adds(op, LobReturn(l, n, b), a))
  {
    hide Left, ReturnThen, LobReplies.LobFrom, LobReplies.Returned, Adds;
    q := ByteThen(8, s, p, l + ReturnThen(op, n, b, rest));
    q := ReturnRead(op, l, n, b, s, q, rest, a);
    LobReturned(t, op, |l|, s, p, a);
  }

  lemma LobReturned(t: TextRules, op: LobReplies.LobOperation, locator: nat, s: seq<byte>, p: nat,
                    a: LobReplies.LobAnswer)
    requires p < |s| && s[p] == 8
    ensures var r := LobReplies.Returned(op, locator, s, p + 1, a);
      r.Ok() ==> LobReplies.LobFrom(t, op, locator, s, p, a) == LobReplies.LobFrom(t, op, locator, s, r.pos, r.Value())
  {
    hide ErrorMessage, RawBytesChunked, LobReplies.Returned;
  }

  lemma LobDataStep(t: TextRules, locator: nat, d: seq<byte>, s: seq<byte>, p: nat, rest: seq<byte>,
                    a: LobReplies.LobAnswer) returns (q: nat)
    requires Left(s, p, [14] + (LengthPrefixed(Some(d)) + rest))
    ensures p < q <= |s| && Left(s, q, rest)
    ensures LobReplies.LobFrom(t, LobReplies.ReadLob, locator, s, p, a)
         == LobReplies.LobFrom(t, LobReplies.ReadLob, locator, s, q, LobReplies.LobAnswer(Some(d), a.number, a.flag))
  {
    hide Left, ErrorMessage, LengthPrefixed, RawBytesChunked, LobReplies.Returned;
    q := ByteThen(14, s, p, LengthPrefixed(Some(d)) + rest);
    q := PrefixedThen(Some(d), s, q, rest);
  }

  lemma LobStrayStep(t: TextRules, op: LobReplies.LobOperation, locator: nat, kind: byte, s: seq<byte>, p: nat,
                     rest: seq<byte>, a: LobReplies.LobAnswer) returns (q: nat)
    requires kind !in {4, 8, 14, 29} && Left(s, p, [kind] + rest)
    ensures p < q <= |s| && Left(s, q, rest)
    ensures LobReplies.LobFrom(t, op, locator, s, p, a) == LobReplies.LobFrom(t, op, locator, s, q, a)
  {
    hide Left, ErrorMessage, RawBytesChunked, LobReplies.Returned;
    q := ByteThen(kind, s, p, rest);
  }

  lemma LobStep(t: TextRules, op: LobReplies.LobOperation, locator: nat, m: LobSaid, s: seq<byte>, p: nat,
                rest: seq<byte>, a: LobReplies.LobAnswer) returns (q: nat)
    requires LobGood(op, m, locator) && NoLobError(t, s, m) && Left(s, p, LobThen(op, m, rest))
    ensures p < q <= |s| && Left(s, q, rest)
    ensures LobReplies.LobFrom(t, op, locator, s, p, a) == LobReplies.LobFrom(t, op, locator, s, q, Adds(op, m, a))
  {
    hide Left, EndThen, Says, LengthPrefixed, LobReplies.LobFrom, ReturnThen;
    match m {
      case LobData(d) => q := LobDataStep(t, locator, d, s, p, rest, a);
      case LobReturn(l, n, b) => q := LobReturnStep(t, op, l, n, b, s, p, rest, a);
      case LobStray(kind) => q := LobStrayStep(t, op, locator, kind, s, p, rest, a);
      case LobEnd(e) =>
        var code, text;
        q, code, text := LobErrorStep(t, op, locator, e, s, p, rest, a);
    }
  }

  lemma {:induction false} LobThrough(t: TextRules, op: LobReplies.LobOperation, locator: nat, ms: seq<LobSaid>,
                                      s: seq<byte>, p: nat, rest: seq<byte>, a: LobReplies.LobAnswer) returns (q: nat)
    requires AllLobGood(op, ms, locator) && Left(s, p, LobsThen(op, ms, locator, rest))
    requires forall i: nat | i < |ms| :: NoLobError(t, s, ms[i])
    ensures p <= q <= |s| && Left(s, q, rest)
    ensures LobReplies.LobFrom(t, op, locator, s, p, a) == LobReplies.LobFrom(t, op, locator, s, q, AllAdded(op, ms, a))
    decreases |ms|
  {
    hide Left, LobReplies.LobFrom, LobThen, LobGood, NoLobError, Adds;
    if ms == [] {
      q := p;
      LeftBound(s, p, rest);
    } else {
      q := LobStep(t, op, locator, ms[0], s, p, LobsThen(op, ms[1..], locator, rest), a);
      q := LobThrough(t, op, locator, ms[1..], s, q, rest, Adds(op, ms[0], a));
    }
  }

  lemma LobClosed(t: TextRules, op: LobReplies.LobOperation, locator: nat, s: seq<byte>, p: nat, rest: seq<byte>,
                  a: LobReplies.LobAnswer)
    requires Left(s, p, rest) && Closes(rest)
    ensures LobReplies.LobFrom(t, op, locator, s, p, a) == Success(a)
  {
    hide ErrorMessage, RawBytesChunked, LobReplies.Returned;
    if rest != [] {
      assert s[p] == s[p..][0] == 29;
    }
  }

  /** A LOB operation answers with the data, the number or the flag that was sent last. */
  lemma LobAnswers(t: TextRules, op: LobReplies.LobOperation, locator: nat, payload: seq<byte>, ms: seq<LobSaid>,
                   rest: seq<byte>)
    requires AllLobGood(op, ms, locator) && Left(payload, 2, LobsThen(op, ms, locator, rest)) && Closes(rest)
    requires forall i: nat | i < |ms| :: NoLobError(t, payload, ms[i])
    ensures LobReplies.Lob(t, op, locator, payload)
         == Success(AllAdded(op, ms, LobReplies.LobAnswer(None, 0, false)))
  {
    hide Left, LobReplies.LobFrom, LobsThen, AllLobGood, NoLobError, AllAdded;
    LeftBound(payload, 2, LobsThen(op, ms, locator, rest));
    var q := LobThrough(t, op, locator, ms, payload, 2, rest, LobReplies.NOTHING);
    LobClosed(t, op, locator, payload, q, rest, AllAdded(op, ms, LobReplies.NOTHING));
  }

  /** Any code but zero fails it, that of a query without rows included. */
  lemma LobFails(t: TextRules, op: LobReplies.LobOperation, locator: nat, payload: seq<byte>, ms: seq<LobSaid>,
                 e: ServerEnd, rest: seq<byte>, code: nat, text: Option<Text>)
    requires e.Good() && AllLobGood(op, ms, locator)
    requires Left(payload, 2, LobsThen(op, ms, locator, [4] + EndThen(e, false, rest)))
    requires forall i: nat | i < |ms| :: NoLobError(t, payload, ms[i])
    requires Says(t, payload, e, code, text) && code != 0
    ensures LobReplies.Lob(t, op, locator, payload)
         == Failure(LobReplies.Oracle(code, text.GetOr(Texts.Ascii("LOB error"))))
  {
    hide Left, LobReplies.LobFrom, LobsThen, AllLobGood, NoLobError, AllAdded, Says, EndThen, Texts.Ascii;
    LeftBound(payload, 2, LobsThen(op, ms, locator, [4] + EndThen(e, false, rest)));
    var q := LobThrough(t, op, locator, ms, payload, 2, [4] + EndThen(e, false, rest), LobReplies.NOTHING);
    var r, c, x := LobErrorStep(t, op, locator, e, payload, q, rest, AllAdded(op, ms, LobReplies.NOTHING));
  }

  lemma {:induction false} AddedLast(op: LobReplies.LobOperation, ms: seq<LobSaid>, m: LobSaid, a: LobReplies.LobAnswer)
    ensures AllAdded(op, ms + [m], a) == Adds(op, m, AllAdded(op, ms, a))
    decreases |ms|
  {
    if ms == [] {
      assert ([] + [m])[1..] == [];
    } else {
      assert (ms + [m])[1..] == ms[1..] + [m];
      AddedLast(op, ms[1..], m, Adds(op, ms[0], a));
    }
  }
}

/** The same from the packets on, with markers between them or without. */
module PacketAnswers {
  import opened Answers
  import opened Bytes
  import opened ErrorMessages
  import opened Framing
  import opened Reassembly
  import opened Recovery
  import LobReplies
  import QueryResponses
  import Replies
  import opened ResponseEnd
  import Responses
  import Rows
  import opened ServerMessages
  import opened Wrappers

  /** The stream of the packets, markers behind the first `k` of them if there are any. */
  function WithMarkers(ps: seq<seq<byte>>, k: nat, ms: seq<seq<byte>>, rest: seq<byte>): seq<byte>
    requires k <= |ps|
  {
    if ms == [] then Flat(ps) + rest else Interrupted(ps, k, ms, rest)
  }

  ghost predicate Marks(ms: seq<seq<byte>>, large: bool) {
    AllFramed(ms, large) && forall m | m in ms :: |m| > 8 && m[4] == 12
  }

  lemma CompletesFirst(ps: seq<seq<byte>>, large: bool)
    requires InPackets(ps, large)
    ensures FirstComplete(ps, |ps| - 1)
  {
    hide CompleteAt, Bodies, Complete, EndMarked;
    forall j | 0 <= j < |ps|
      ensures CompleteAt(ps, j) <==> EndMarked(ps[j]) || Complete(Bodies(ps[..j + 1]))
    {
      CompleteByGrammar(ps, j);
    }
  }

  /** The caller gets the response whole, wherever markers interrupt it once. */
  lemma Delivered(ps: seq<seq<byte>>, k: nat, ms: seq<seq<byte>>, rest: seq<byte>, large: bool)
    requires InPackets(ps, large) && k < |ps| && Marks(ms, large)
    ensures var a := Exchange(WithMarkers(ps, k, ms, rest), large);
      a.result.Success? && a.rest == rest && Body(a.result.value) == PayloadOf(ps)
  {
    hide Gather, Flat, Bodies, EndsWith, CompleteAt, Interrupted, Exchange, Framed, Rebuilt;
    CompletesFirst(ps, large);
    Uninterrupted(ps, rest, large);
    if ms != [] {
      assert ms[0] in ms;
      MarkersAreTransparent(ps, k, |ps| - 1, ms, rest, large);
    }
  }

  lemma Uninterrupted(ps: seq<seq<byte>>, rest: seq<byte>, large: bool)
    requires InPackets(ps, large)
    ensures var a := Exchange(Flat(ps) + rest, large);
      a.result.Success? && a.rest == rest && Body(a.result.value) == PayloadOf(ps)
  {
    hide Gather, Flat, Bodies, EndsWith, Framed, Rebuilt;
    GatheredByGrammar(ps, |ps| - 1, rest, large);
    assert ps[..|ps| - 1 + 1] == ps && ps[|ps| - 1 + 1..] == [];
    FlatNothing(rest);
    BodyOfRebuilt(PayloadOf(ps), large);
  }

  /** A DML statement, from the packets of its response to the row count and the cursor of the last
      error message. */
  lemma DmlOnTheWire(t: TextRules, ps: seq<seq<byte>>, k: nat, marks: seq<seq<byte>>, ms: seq<Said>, closing: seq<byte>,
                     rest: seq<byte>, large: bool)
    requires InPackets(ps, large) && k < |ps| && Marks(marks, large)
    requires Responds(PayloadOf(ps), ms, false, closing) && Closes(closing) && AllMild(t, PayloadOf(ps), ms)
    ensures Replies.DmlReply(t, WithMarkers(ps, k, marks, rest), large) == (Success(match LastEnd(ms)
      case Some(e) => Responses.DmlAnswer(e.rowCount, e.head.cursorId)
      case None => Responses.DmlAnswer(0, 0)), rest)
  {
    hide Exchange, WithMarkers, EndsWith, Framed, Marks, Responds, AllMild, Responses.Dml, LastEnd, Body, PayloadOf;
    Delivered(ps, k, marks, rest, large);
    DmlSucceeds(t, PayloadOf(ps), ms, closing);
  }

  /** Or to the code and the text of the first that reports a failure. */
  lemma DmlFailsOnTheWire(t: TextRules, ps: seq<seq<byte>>, k: nat, marks: seq<seq<byte>>, ms: seq<Said>, e: ServerEnd,
                          more: seq<byte>, rest: seq<byte>, large: bool, code: nat, text: Option<Text>)
    requires InPackets(ps, large) && k < |ps| && Marks(marks, large) && e.Good()
    requires Responds(PayloadOf(ps), ms, false, [4] + EndThen(e, true, more)) && AllMild(t, PayloadOf(ps), ms)
    requires Says(t, PayloadOf(ps), e, code, text) && code != 0 && code != 1403
    ensures Replies.DmlReply(t, WithMarkers(ps, k, marks, rest), large)
         == (Failure(Replies.Unusable(Responses.Oracle(code, text.GetOr([])))), rest)
  {
    hide Exchange, WithMarkers, EndsWith, Framed, Marks, Responds, AllMild, Responses.Dml, Body, PayloadOf, Says, EndThen;
    Delivered(ps, k, marks, rest, large);
    DmlFails(t, PayloadOf(ps), ms, e, more, code, text);
  }

  /** A batch. */
  lemma BatchOnTheWire(t: TextRules, o: Replies.BatchOptions, ps: seq<seq<byte>>, k: nat, marks: seq<seq<byte>>,
                       ms: seq<Said>, closing: seq<byte>, rest: seq<byte>, large: bool)
    requires InPackets(ps, large) && k < |ps| && Marks(marks, large)
    requires Responds(PayloadOf(ps), ms, o.want, closing) && Closes(closing)
    requires AllEven(t, ms) && Borne(t, PayloadOf(ps), ms, o.tolerant, 0)
    ensures var failed := AllFailed(t, ms);
      Replies.BatchReply(t, o, WithMarkers(ps, k, marks, rest), large) == (Success(Responses.BatchResult(
        match LastEnd(ms) case None => 0 case Some(e) => e.rowCount,
        if o.size < |failed| then 0 else o.size - |failed|, |failed|, failed, LastCounts(ms, None))), rest)
  {
    hide Exchange, WithMarkers, EndsWith, Framed, Marks, Responds, AllEven, Borne, Responses.Batch, LastEnd, Body,
      PayloadOf, LastCounts, AllFailed;
    Delivered(ps, k, marks, rest, large);
    BatchReports(t, PayloadOf(ps), ms, closing, o.size, o.want, o.tolerant);
    AllEvenLists(t, ms);
  }

  /** Whatever a fetch or a query comes to, it is what the parser makes of the payload. */
  lemma ParsedOnTheWire<C, V>(g: Rows.Setting<V>, cursorId: u16, f: QueryResponses.Formats<C, V>, known: seq<C>,
                              ps: seq<seq<byte>>, k: nat, marks: seq<seq<byte>>, rest: seq<byte>, large: bool)
    requires InPackets(ps, large) && k < |ps| && Marks(marks, large)
    ensures Replies.FetchReply(g, cursorId, WithMarkers(ps, k, marks, rest), large) ==
      (match Rows.ParseFetch(g, PayloadOf(ps), cursorId)
       case Success(rows) => Success(rows)
       case Failure(e) => Failure(Replies.Unusable(e)), rest)
    ensures QueryResponses.QueryExchange(f, known, Flat(ps) + rest, large)
         == (QueryResponses.Query(f, known, PayloadOf(ps)), rest)
  {
    hide Exchange, WithMarkers, EndsWith, Framed, Marks, Rows.ParseFetch, Body, PayloadOf, Flat, QueryResponses.Query,
      QueryResponses.QueryExchange, FirstComplete, Joined;
    Delivered(ps, k, marks, rest, large);
    CompletesFirst(ps, large);
    QueryResponses.UninterruptedQuery(f, known, ps, |ps| - 1, rest, large);
    assert ps[..|ps| - 1 + 1] == ps && ps[|ps| - 1 + 1..] == [];
    FlatNothing(rest);
    PayloadIsJoined(ps);
  }

  lemma PayloadIsJoined(ps: seq<seq<byte>>)
    requires AllData(ps) && ps != []
    ensures PayloadOf(ps) == Joined(ps)
  {
    hide Bodies, Joined;
    JoinedIsFlagsAndBodies(ps);
  }

  /** A LOB is read and written by whole responses, everything else about it by single packets. */
  lemma LobOnTheWire(t: TextRules, op: LobReplies.LobOperation, locator: nat, ps: seq<seq<byte>>, p: seq<byte>,
                     rest: seq<byte>, large: bool)
    requires InPackets(ps, large)
    requires Framed(p, large) && |p| > 8 && p[4] != 12
    ensures op.ReadLob? || op.WriteLob? ==>
      LobReplies.LobReply(t, op, locator, Flat(ps) + rest, large) == (LobReplies.Lob(t, op, locator, PayloadOf(ps)), rest)
    ensures op.ChangeLob? || op.LobNumber? || op.LobFlag? ==>
      LobReplies.LobReply(t, op, locator, p + rest, large) == (LobReplies.Lob(t, op, locator, p[8..]), rest)
  {
    hide EndsWith, Framed, PayloadOf, Flat, LobReplies.Lob, FirstComplete, Joined, Next, Response, LobReplies.LobFailure;
    NextOfFramed(p, rest, large);
    if op.ReadLob? || op.WriteLob? {
      CompletesFirst(ps, large);
      LobReplies.LobUncut(t, op, locator, ps, |ps| - 1, rest, large);
      assert ps[..|ps| - 1 + 1] == ps && ps[|ps| - 1 + 1..] == [];
      FlatNothing(rest);
      PayloadIsJoined(ps);
    }
  }
}
