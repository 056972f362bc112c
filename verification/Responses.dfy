/** Responses to DML statements and batches: a loop over messages whose return-parameter parser
    goes back and looks for the next error message when it cannot make sense of what it reads. */
module Responses {
  import opened Bytes
  import opened ErrorMessages
  import opened Messages
  import opened Reads
  import opened Wrappers

  /** Where the error message at `p` ends, if it is well formed. */
  function ErrorEnd(t: TextRules, s: seq<byte>, p: nat): (r: Option<nat>)
    requires p <= |s|
    ensures r.Some? ==> p < r.value <= |s|
  {
    var f := FieldsAt(t, s, p, true);
    if f.Ok() then Some(f.pos) else None
  }

  // ---- Return parameters ---------------------------------------------------------------

  /** A length-prefixed text: where it ends. */
  function TextEnd(s: seq<byte>, p: nat): (r: Option<nat>)
    requires p <= |s|
    ensures r.Some? ==> p < r.value <= |s|
  {
    var t := TextWithLength(s, p);
    if t.Ok() then Some(t.pos) else None
  }

  /** A two-byte length and, unless it is zero, something that follows it. */
  function Lengthed(s: seq<byte>, p: nat, what: Lengthy): (r: Option<nat>)
    requires p <= |s|
    ensures r.Some? ==> p < r.value <= |s|
  {
    var n := Ub(s, p, 2);
    if !n.Ok() then None
    else if n.Value() == 0 then Some(n.pos)
    else
      match what
      case Raw =>
        var skipped := Skip(s, n.pos, n.Value());
        if skipped.Ok() then Some(skipped.pos) else None
      case Textual => TextEnd(s, n.pos)
      case InChunks =>
        var value := RawBytesChunked(s, n.pos);
        if value.Ok() then Some(value.pos) else None
      case Prefixed =>
        var value := BytesWithLength(s, n.pos);
        if value.Ok() then Some(value.pos) else None
  }

  datatype Lengthy = Raw | Textual | InChunks | Prefixed

  /** One key and value pair and its keyword number. */
  function PairEnd(s: seq<byte>, p: nat, keys: Lengthy, values: Lengthy): (r: Option<nat>)
    requires p <= |s|
    ensures r.Some? ==> p < r.value <= |s|
  {
    match Lengthed(s, p, keys)
    case None => None
    case Some(key) =>
      match Lengthed(s, key, values)
      case None => None
      case Some(value) =>
        var keyword := SkipUb(s, value);
        if keyword.Ok() then Some(keyword.pos) else None
  }

  function PairsEnd(s: seq<byte>, p: nat, count: nat, keys: Lengthy, values: Lengthy): (r: Option<nat>)
    requires p <= |s|
    ensures r.Some? ==> p <= r.value <= |s|
    decreases count
  {
    if count == 0 then Some(p)
    else
      match PairEnd(s, p, keys, values)
      case None => None
      case Some(q) => PairsEnd(s, q, count - 1, keys, values)
  }

  function Counts(s: seq<byte>, p: nat, count: nat, acc: seq<nat>): (r: Option<(seq<nat>, nat)>)
    requires p <= |s|
    ensures r.Some? ==> p <= r.value.1 <= |s|
    decreases count
  {
    if count == 0 then Some((acc, p))
    else
      var n := Ub(s, p, 8);
      if n.Ok() then Counts(s, n.pos, count - 1, acc + [n.Value()]) else None
  }

  /** Row counts, when they were asked for and four bytes are left. */
  function RowCounts(s: seq<byte>, p: nat, want: bool): (r: Option<(Option<seq<nat>>, nat)>)
    requires p <= |s|
    ensures r.Some? ==> p <= r.value.1 <= |s|
  {
    if want && |s| - p >= 4 then
      var n := Ub(s, p, 4);
      if !n.Ok() then None
      else
        match Counts(s, n.pos, n.Value(), [])
        case None => None
        case Some((counts, q)) => Some((Some(counts), q))
    else Some((None, p))
  }

  /** The documented layout of return parameters. */
  function StandardParameters(s: seq<byte>, p: nat, want: bool): (r: Option<(Option<seq<nat>>, nat)>)
    requires p <= |s|
    ensures r.Some? ==> p < r.value.1 <= |s|
  {
    var count := Ub(s, p, 2);
    if !count.Ok() then None
    else
      var parameters := SkipUbs(s, count.pos, count.Value());
      if !parameters.Ok() then None
      else
        match Lengthed(s, parameters.pos, Raw)
        case None => None
        case Some(pairs) =>
          var n := Ub(s, pairs, 2);
          if !n.Ok() then None
          else
            match PairsEnd(s, n.pos, n.Value(), Textual, InChunks)
            case None => None
            case Some(registration) =>
              match Lengthed(s, registration, Raw)
              case None => None
              case Some(q) => RowCounts(s, q, want)
  }

  // ---- Looking for the next error message ----------------------------------------------

  /** An error message at `o` that parses and is followed by the end of the response or by a
      status or end message. */
  predicate Aligned(t: TextRules, rem: seq<byte>, o: nat)
    requires o < |rem|
  {
    && rem[o] == ERROR
    && var end := ErrorEnd(t, rem, o + 1);
       end.Some? && (end.value == |rem| || rem[end.value] in {STATUS, END_OF_RESPONSE_MESSAGE})
  }

  /** What may be an error message at `o`: an end message is somewhere behind it and its first
      two fields can be read. */
  predicate Likely(rem: seq<byte>, o: nat)
    requires o < |rem|
  {
    && rem[o] == ERROR
    && END_OF_RESPONSE_MESSAGE in rem[o + 1..]
    && Ub(rem, o + 1, 4).Ok()
    && Ub(rem, Ub(rem, o + 1, 4).pos, 2).Ok()
  }

  /** The place the search settles on: the first aligned error message, or else the last likely
      one. The byte it starts from is never chosen. */
  ghost predicate Found(t: TextRules, rem: seq<byte>, r: Option<nat>) {
    match r
    case Some(o) =>
      && 0 < o < |rem|
      && (if Aligned(t, rem, o) then forall i | 0 < i < o :: !Aligned(t, rem, i)
          else Likely(rem, o)
               && (forall i | 0 < i < |rem| :: !Aligned(t, rem, i))
               && (forall i | o < i < |rem| :: !Likely(rem, i)))
    case None => forall i | 0 < i < |rem| :: !Aligned(t, rem, i) && !Likely(rem, i)
  }

  /** The search has one answer. */
  lemma FoundOnce(t: TextRules, rem: seq<byte>, a: Option<nat>, b: Option<nat>)
    requires Found(t, rem, a) && Found(t, rem, b)
    ensures a == b
  {
    hide Aligned, Likely;
  }

  function FirstAligned(t: TextRules, rem: seq<byte>, i: nat): (r: Option<nat>)
    ensures r.Some? ==> i <= r.value < |rem|
    decreases |rem| - i
  {
    if i >= |rem| then None
    else if Aligned(t, rem, i) then Some(i) else FirstAligned(t, rem, i + 1)
  }

  lemma {:induction false} FirstAlignedIsFirst(t: TextRules, rem: seq<byte>, i: nat)
    ensures match FirstAligned(t, rem, i)
      case Some(o) => Aligned(t, rem, o) && forall j | i <= j < o :: !Aligned(t, rem, j)
      case None => forall j | i <= j < |rem| :: !Aligned(t, rem, j)
    decreases |rem| - i
  {
    hide Aligned;
    if i < |rem| && !Aligned(t, rem, i) {
      FirstAlignedIsFirst(t, rem, i + 1);
    }
  }

  function LastLikely(rem: seq<byte>, i: nat): (r: Option<nat>)
    requires i <= |rem|
    ensures r.Some? ==> 0 < r.value < i
    decreases i
  {
    if i <= 1 then None
    else if Likely(rem, i - 1) then Some(i - 1) else LastLikely(rem, i - 1)
  }

  lemma {:induction false} LastLikelyIsLast(rem: seq<byte>, i: nat)
    requires i <= |rem|
    ensures match LastLikely(rem, i)
      case Some(o) => Likely(rem, o) && forall j | o < j < i :: !Likely(rem, j)
      case None => forall j | 0 < j < i :: !Likely(rem, j)
    decreases i
  {
    hide Likely;
    if i > 1 && !Likely(rem, i - 1) {
      LastLikelyIsLast(rem, i - 1);
    }
  }

  /** The search of the parser: forwards for an aligned message, backwards for a likely one. */
  function Search(t: TextRules, rem: seq<byte>): (r: Option<nat>)
    ensures r.Some? ==> 0 < r.value < |rem|
  {
    var aligned := FirstAligned(t, rem, 1);
    if aligned.Some? then aligned else LastLikely(rem, |rem|)
  }

  lemma SearchFinds(t: TextRules, rem: seq<byte>)
    ensures Found(t, rem, Search(t, rem))
  {
    hide Likely, Aligned;
    FirstAlignedIsFirst(t, rem, 1);
    LastLikelyIsLast(rem, |rem|);
  }

  /** Return parameters, or the error message found in their stead. */
  function ReturnParameters(t: TextRules, s: seq<byte>, p: nat, want: bool): (r: Option<(Option<seq<nat>>, nat)>)
    requires p <= |s|
    ensures r.Some? ==> p < r.value.1 <= |s|
  {
    match StandardParameters(s, p, want)
    case Some(read) => Some(read)
    case None =>
      match Search(t, s[p..])
      case Some(o) => Some((None, p + o))
      case None => None
  }

  /** Parsing return parameters always moves on. Where it had to search, it stops at an error
      message; and then the next message is that error message, read from there. */
  lemma ReturnParametersMoveOn(t: TextRules, s: seq<byte>, p: nat, want: bool)
    requires p <= |s| && ReturnParameters(t, s, p, want).Some?
    ensures var q := ReturnParameters(t, s, p, want).value.1;
      p < q <= |s| && (StandardParameters(s, p, want).None? ==> q < |s| && s[q] == ERROR)
  {
    hide StandardParameters, Search, ErrorEnd, Ub;
    if StandardParameters(s, p, want).None? {
      var o := Search(t, s[p..]).value;
      SearchFinds(t, s[p..]);
      assert s[p..][o] == s[p + o];
    }
  }

  // ---- What the server says of the session ---------------------------------------------

  const QUERY_CACHE_INVALIDATION: byte := 1
  const OS_PID_MTS: byte := 2
  const TRACE_EVENT: byte := 3
  const SESS_RET: byte := 4
  const SYNC: byte := 5
  const LTXID: byte := 7
  const AC_REPLAY_CONTEXT: byte := 8
  const EXT_SYNC: byte := 9
  const SESS_SIGNATURE: byte := 10

  /** The number of data types and their length. */
  function TypesEnd(s: seq<byte>, p: nat): (r: Reading<()>)
    requires p <= |s|
    ensures p <= r.pos <= |s|
  {
    var types := SkipUb(s, p);
    if types.Ok() then Skip(s, types.pos, 1) else types
  }

  function TransactionEnd(s: seq<byte>, p: nat): (r: Option<nat>)
    requires p <= |s|
    ensures r.Some? ==> p <= r.value <= |s|
  {
    var n := Ub(s, p, 4);
    if !n.Ok() then None
    else if n.Value() == 0 then Some(n.pos)
    else
      var id := BytesWithLength(s, n.pos);
      if id.Ok() then Some(id.pos) else None
  }

  function ProcessEnd(s: seq<byte>, p: nat): (r: Option<nat>)
    requires p <= |s|
    ensures r.Some? ==> p <= r.value <= |s|
  {
    var n := Ub(s, p, 2);
    if !n.Ok() || n.pos + 1 + n.Value() > |s| then None else Some(n.pos + 1 + n.Value())
  }

  function SyncEnd(s: seq<byte>, p: nat): (r: Option<nat>)
    requires p <= |s|
    ensures r.Some? ==> p <= r.value <= |s|
  {
    var types := TypesEnd(s, p);
    if !types.Ok() then None
    else
      var n := Ub(s, types.pos, 4);
      if !n.Ok() || n.pos == |s| then None
      else
        match PairsEnd(s, n.pos + 1, n.Value(), Textual, Prefixed)
        case None => None
        case Some(pairs) =>
          var flags := SkipUb(s, pairs);
          if flags.Ok() then Some(flags.pos) else None
  }

  function ReplayEnd(s: seq<byte>, p: nat): (r: Option<nat>)
    requires p <= |s|
    ensures r.Some? ==> p <= r.value <= |s|
  {
    var types := TypesEnd(s, p);
    if !types.Ok() then None
    else
      var numbers := SkipUbs(s, types.pos, 2);
      if !numbers.Ok() || numbers.pos == |s| then None
      else
        var context := Chunked(s, numbers.pos + 1, 4);
        if context.Ok() then Some(context.pos) else None
  }

  /** The flags of the session, its identifier and its serial number. */
  function IdentityEnd(s: seq<byte>, p: nat): (r: Option<nat>)
    requires p <= |s|
    ensures r.Some? ==> p <= r.value <= |s|
  {
    var flags := Ub(s, p, 4);
    if !flags.Ok() then None
    else
      var id := Ub(s, flags.pos, 4);
      if !id.Ok() then None
      else
        var serial := Ub(s, id.pos, 2);
        if serial.Ok() then Some(serial.pos) else None
  }

  function SessionEnd(s: seq<byte>, p: nat): (r: Option<nat>)
    requires p <= |s|
    ensures r.Some? ==> p <= r.value <= |s|
  {
    var types := TypesEnd(s, p);
    if !types.Ok() then None
    else
      var n := Ub(s, types.pos, 2);
      if !n.Ok() then None
      else if n.Value() == 0 then IdentityEnd(s, n.pos)
      else if n.pos == |s| then None
      else
        match PairsEnd(s, n.pos + 1, n.Value(), InChunks, InChunks)
        case None => None
        case Some(pairs) => IdentityEnd(s, pairs)
  }

  function SignatureEnd(s: seq<byte>, p: nat): (r: Option<nat>)
    requires p <= |s|
    ensures r.Some? ==> p <= r.value <= |s|
  {
    var types := TypesEnd(s, p);
    if !types.Ok() then None
    else
      var signatures := SkipUbs(s, types.pos, 3);
      if signatures.Ok() then Some(signatures.pos) else None
  }

  /** Where a piggybacked message ends, its type byte aside. */
  function PiggybackEnd(s: seq<byte>, p: nat): (r: Option<nat>)
    requires p <= |s|
    ensures r.Some? ==> p < r.value <= |s|
  {
    if p == |s| then None
    else
      var opcode, b := s[p], p + 1;
      if opcode == LTXID then TransactionEnd(s, b)
      else if opcode == QUERY_CACHE_INVALIDATION || opcode == TRACE_EVENT then Some(b)
      else if opcode == OS_PID_MTS then ProcessEnd(s, b)
      else if opcode == SYNC then SyncEnd(s, b)
      else if opcode == EXT_SYNC then
        var types := TypesEnd(s, b);
        if types.Ok() then Some(types.pos) else None
      else if opcode == AC_REPLAY_CONTEXT then ReplayEnd(s, b)
      else if opcode == SESS_RET then SessionEnd(s, b)
      else if opcode == SESS_SIGNATURE then SignatureEnd(s, b)
      else None
  }

  // ---- One message ---------------------------------------------------------------------

  datatype Event =
    | ErrorSeen(info: ErrorInfo)
    | CountsSeen(counts: seq<nat>)
    | Nothing
    | End

  /** The message whose type byte is at `p`: what it tells and where the next one starts. */
  function Message(t: TextRules, s: seq<byte>, p: nat, want: bool): (r: Option<(Event, nat)>)
    requires p < |s|
    ensures r.Some? ==> p < r.value.1 <= |s|
  {
    var kind, b := s[p], p + 1;
    if kind == ERROR then
      var e := ErrorMessage(t, s, b, true);
      if e.Ok() then Some((ErrorSeen(e.Value()), e.pos)) else None
    else if kind == PARAMETER then
      match ReturnParameters(t, s, b, want)
      case Some((counts, q)) => Some((if counts.Some? then CountsSeen(counts.value) else Nothing, q))
      case None => None
    else if kind == PIGGYBACK then
      match PiggybackEnd(s, b)
      case Some(q) => Some((Nothing, q))
      case None => None
    else if kind == STATUS then
      var status := Ub(s, b, 4);
      if !status.Ok() then None
      else
        var sequence := Ub(s, status.pos, 2);
        if sequence.Ok() then Some((Nothing, sequence.pos)) else None
    else if kind == BIT_VECTOR then
      var count := Ub(s, b, 2);
      if count.Ok() then Some((Nothing, if count.pos < |s| then count.pos + 1 else count.pos)) else None
    else if kind == END_OF_RESPONSE_MESSAGE then Some((End, b))
    else Some((Nothing, b))
  }

  /** How many messages the loop reads from `p` on. */
  function MessageCount(t: TextRules, s: seq<byte>, p: nat, want: bool): nat
    decreases |s| - p
  {
    if p >= |s| then 0
    else
      match Message(t, s, p, want)
      case None => 1
      case Some((event, q)) => if event == End then 1 else 1 + MessageCount(t, s, q, want)
  }

  /** However the parser jumps back to search, a response takes no more rounds of the loop than
      it has bytes. */
  lemma {:induction false} RoundsBounded(t: TextRules, s: seq<byte>, p: nat, want: bool)
    requires p <= |s|
    ensures MessageCount(t, s, p, want) <= |s| - p
    decreases |s| - p
  {
    hide ReturnParameters, ErrorMessage, PiggybackEnd, Ub;
    if p < |s| && Message(t, s, p, want).Some? {
      RoundsBounded(t, s, Message(t, s, p, want).value.1, want);
    }
  }

  // ---- The two loops -------------------------------------------------------------------

  datatype ResponseError = TooShort | Malformed | Oracle(code: nat, message: Text)

  datatype DmlAnswer = DmlAnswer(rowsAffected: u64, cursorId: u16)

  predicate Fatal(code: nat) {
    code != 0 && code != 1403
  }

  function DmlFrom(t: TextRules, s: seq<byte>, p: nat, a: DmlAnswer): Result<DmlAnswer, ResponseError>
    decreases |s| - p
  {
    if p >= |s| then Success(a)
    else
      match Message(t, s, p, false)
      case None => Failure(Malformed)
      case Some((End, _)) => Success(a)
      case Some((ErrorSeen(e), q)) =>
        if Fatal(e.code) then Failure(Oracle(e.code, e.message.GetOr([])))
        else DmlFrom(t, s, q, DmlAnswer(e.rowCount, e.cursorId))
      case Some((_, q)) => DmlFrom(t, s, q, a)
  }

  function Dml(t: TextRules, payload: seq<byte>): Result<DmlAnswer, ResponseError> {
    if |payload| < 3 then Failure(TooShort) else DmlFrom(t, payload, 2, DmlAnswer(0, 0))
  }

  datatype BatchAnswer = BatchAnswer(rowsAffected: u64, counts: Option<seq<nat>>, errors: seq<BatchError>)

  datatype BatchResult = BatchResult(
    totalRowsAffected: u64,
    successes: nat,
    failures: nat,
    errors: seq<BatchError>,
    rowCounts: Option<seq<nat>>)

  /** What is reported for a batch of `size` rows. */
  function Reported(size: nat, a: BatchAnswer): BatchResult {
    var failures := |a.errors|;
    BatchResult(a.rowsAffected, if size < failures then 0 else size - failures, failures, a.errors, a.counts)
  }

  function BatchFrom(t: TextRules, s: seq<byte>, p: nat, want: bool, tolerant: bool, a: BatchAnswer)
    : Result<BatchAnswer, ResponseError>
    decreases |s| - p
  {
    if p >= |s| then Success(a)
    else
      match Message(t, s, p, want)
      case None => Failure(Malformed)
      case Some((End, _)) => Success(a)
      case Some((ErrorSeen(e), q)) =>
        var errors := a.errors + e.batchErrors;
        if Fatal(e.code) && !(tolerant && errors != []) then Failure(Oracle(e.code, e.message.GetOr([])))
        else BatchFrom(t, s, q, want, tolerant, a.(rowsAffected := e.rowCount, errors := errors))
      case Some((CountsSeen(counts), q)) => BatchFrom(t, s, q, want, tolerant, a.(counts := Some(counts)))
      case Some((Nothing, q)) => BatchFrom(t, s, q, want, tolerant, a)
  }

  function Batch(t: TextRules, payload: seq<byte>, size: nat, want: bool, tolerant: bool)
    : Result<BatchResult, ResponseError>
  {
    if |payload| < 3 then Failure(TooShort)
    else
      match BatchFrom(t, payload, 2, want, tolerant, BatchAnswer(0, None, []))
      case Success(a) => Success(Reported(size, a))
      case Failure(e) => Failure(e)
  }

  /** Return parameters that make no sense do not lose the outcome of the statement: when an
      error message that parses up to the end of the response or to a closing message follows
      them, the answer is the one read from that error message on. */
  lemma SearchKeepsOutcome(t: TextRules, s: seq<byte>, p: nat, rem: seq<byte>, o: nat, a: DmlAnswer)
    requires p < |s| && s[p] == PARAMETER && StandardParameters(s, p + 1, false).None?
    requires rem == s[p + 1..] && 0 < o < |rem| && Aligned(t, rem, o)
    requires forall i | 0 < i < o :: !Aligned(t, rem, i)
    ensures DmlFrom(t, s, p, a) == DmlFrom(t, s, p + 1 + o, a)
    ensures s[p + 1 + o] == ERROR
    ensures var m := Message(t, s, p + 1 + o, false);
      && m.Some? && m.value.0 == ErrorSeen(ErrorMessage(t, s, p + 2 + o, true).Value())
      && (m.value.1 == |s| || s[m.value.1] in {STATUS, END_OF_RESPONSE_MESSAGE})
  {
    hide StandardParameters, Likely, Search, FieldsAt, Info;
    SearchFinds(t, rem);
    assert Found(t, rem, Some(o));
    FoundOnce(t, rem, Some(o), Search(t, rem));
    assert rem[o] == s[p + 1 + o];
    FieldsMoved(t, s, p + 1, o + 1, true);
    var end := ErrorEnd(t, rem, o + 1).value;
    if end < |rem| {
      assert rem[end] == s[p + 1 + end];
    }
  }
}

/** The parsers themselves: loops over a `ReadBuffer`, proved equal to the functions above. */
module ResponseParsers {
  import opened Bytes
  import ErrorMessageCode
  import opened ErrorMessages
  import opened Messages
  import opened ReadBuffers
  import opened Reads
  import opened Responses
  import opened Wrappers

  /** A parser succeeds exactly if the position function does, and stops where it says. */
  ghost predicate Stops<T>(r: Result<T, ReadError>, pos: nat, end: Option<nat>) {
    (r.Success? <==> end.Some?) && (r.Success? ==> pos == end.value)
  }

  /** The same for a parser with a result. */
  ghost predicate Yields<T>(r: Result<T, ReadError>, pos: nat, spec: Option<(T, nat)>) {
    (r.Success? <==> spec.Some?) && (r.Success? ==> spec == Some((r.value, pos)))
  }

  method ReadText(buf: ReadBuffer) returns (r: Result<(), ReadError>)
    requires buf.Valid()
    modifies buf
    ensures buf.Valid() && Stops(r, buf.pos, TextEnd(buf.data, old(buf.pos)))
  {
    var _ :- buf.ReadStringWithLength();
    return Success(());
  }

  method ReadLengthed(buf: ReadBuffer, what: Lengthy) returns (r: Result<(), ReadError>)
    requires buf.Valid()
    modifies buf
    ensures buf.Valid() && Stops(r, buf.pos, Lengthed(buf.data, old(buf.pos), what))
  {
    var n :- buf.ReadUb2();
    if n > 0 {
      match what {
        case Raw =>
          var _ :- buf.SkipBytes(n);
        case Textual =>
          var _ :- ReadText(buf);
        case InChunks =>
          var _ :- buf.ReadRawBytesChunked();
        case Prefixed =>
          var _ :- buf.ReadBytesWithLength();
      }
    }
    return Success(());
  }

  method SkipParameters(buf: ReadBuffer, count: nat) returns (r: Result<(), ReadError>)
    requires buf.Valid()
    modifies buf
    ensures buf.Valid() && Reading(r, buf.pos) == SkipUbs(buf.data, old(buf.pos), count)
  {
    for i := 0 to count
      invariant buf.Valid()
      invariant SkipUbs(buf.data, buf.pos, count - i) == SkipUbs(buf.data, old(buf.pos), count)
    {
      var _ :- buf.SkipUbN();
    }
    return Success(());
  }

  method ReadPair(buf: ReadBuffer, keys: Lengthy, values: Lengthy) returns (r: Result<(), ReadError>)
    requires buf.Valid()
    modifies buf
    ensures buf.Valid() && Stops(r, buf.pos, PairEnd(buf.data, old(buf.pos), keys, values))
  {
    hide Lengthed, SkipUb;
    var _ :- ReadLengthed(buf, keys);
    var _ :- ReadLengthed(buf, values);
    var _ :- buf.SkipUbN();
    return Success(());
  }

  method ReadPairs(buf: ReadBuffer, count: nat, keys: Lengthy, values: Lengthy) returns (r: Result<(), ReadError>)
    requires buf.Valid()
    modifies buf
    ensures buf.Valid() && Stops(r, buf.pos, PairsEnd(buf.data, old(buf.pos), count, keys, values))
  {
    hide PairEnd;
    for i := 0 to count
      invariant buf.Valid()
      invariant PairsEnd(buf.data, buf.pos, count - i, keys, values)
             == PairsEnd(buf.data, old(buf.pos), count, keys, values)
    {
      var _ :- ReadPair(buf, keys, values);
    }
    return Success(());
  }

  method ReadCounts(buf: ReadBuffer, count: nat) returns (r: Result<seq<nat>, ReadError>)
    requires buf.Valid()
    modifies buf
    ensures buf.Valid() && Yields(r, buf.pos, Counts(buf.data, old(buf.pos), count, []))
  {
    hide Ub;
    var counts := [];
    for i := 0 to count
      invariant buf.Valid()
      invariant Counts(buf.data, buf.pos, count - i, counts) == Counts(buf.data, old(buf.pos), count, [])
    {
      var n :- buf.ReadUb8();
      counts := counts + [n];
    }
    return Success(counts);
  }

  method ReadRowCounts(buf: ReadBuffer, want: bool) returns (r: Result<Option<seq<nat>>, ReadError>)
    requires buf.Valid()
    modifies buf
    ensures buf.Valid() && Yields(r, buf.pos, RowCounts(buf.data, old(buf.pos), want))
  {
    hide Ub, Counts;
    if want && buf.Remaining() >= 4 {
      var n :- buf.ReadUb4();
      var counts :- ReadCounts(buf, n);
      return Success(Some(counts));
    }
    return Success(None);
  }

  method ParseStandardReturnParameters(buf: ReadBuffer, want: bool) returns (r: Result<Option<seq<nat>>, ReadError>)
    requires buf.Valid()
    modifies buf
    ensures buf.Valid() && Yields(r, buf.pos, StandardParameters(buf.data, old(buf.pos), want))
  {
    hide Ub, SkipUbs, Lengthed, PairsEnd, RowCounts;
    var parameters :- buf.ReadUb2();
    var _ :- SkipParameters(buf, parameters);
    var _ :- ReadLengthed(buf, Raw);
    var pairs :- buf.ReadUb2();
    var _ :- ReadPairs(buf, pairs, Textual, InChunks);
    var _ :- ReadLengthed(buf, Raw);
    r := ReadRowCounts(buf, want);
  }

  /** Looks for the next error message, forwards for an aligned one and then backwards for a
      likely one, and moves there. */
  method SkipSessionStateReturnParameter(t: TextRules, buf: ReadBuffer) returns (found: bool)
    requires buf.Valid()
    modifies buf
    ensures buf.Valid()
    ensures var hit := Search(t, buf.data[old(buf.pos)..]);
      found == hit.Some? && buf.pos == old(buf.pos) + if found then hit.value else 0
  {
    hide Search, Aligned, Likely;
    var start := buf.pos;
    var remaining := buf.RemainingBytes();
    SearchFinds(t, remaining);
    if remaining == [] {
      FoundOnce(t, remaining, None, Search(t, remaining));
      return false;
    }
    for offset := 1 to |remaining|
      invariant buf.Valid() && buf.pos == start
      invariant forall i | 0 < i < offset && i < |remaining| :: !Aligned(t, remaining, i)
    {
      var aligned := ProbeAligned(t, remaining, offset);
      if aligned {
        FoundOnce(t, remaining, Some(offset), Search(t, remaining));
        var _ := buf.SetPosition(start + offset);
        return true;
      }
    }
    for offset := |remaining| downto 1
      invariant buf.Valid() && buf.pos == start
      invariant forall i | offset <= i < |remaining| && 0 < i :: !Likely(remaining, i)
    {
      var likely := ProbeLikely(remaining, offset);
      if likely {
        FoundOnce(t, remaining, Some(offset), Search(t, remaining));
        var _ := buf.SetPosition(start + offset);
        return true;
      }
    }
    FoundOnce(t, remaining, None, Search(t, remaining));
    return false;
  }

  method ProbeAligned(t: TextRules, remaining: seq<byte>, offset: nat) returns (hit: bool)
    requires offset < |remaining|
    ensures hit == Aligned(t, remaining, offset)
  {
    hide FieldsAt, Info;
    if remaining[offset] != ERROR {
      return false;
    }
    var probe := new ReadBuffer(remaining[offset + 1..]);
    var info := ErrorMessageCode.ParseErrorInfo(t, probe, true);
    FieldsMoved(t, remaining, offset + 1, 0, true);
    if info.Failure? {
      return false;
    }
    var next := offset + 1 + probe.pos;
    return next == |remaining| || remaining[next] in {STATUS, END_OF_RESPONSE_MESSAGE};
  }

  method ProbeLikely(remaining: seq<byte>, offset: nat) returns (hit: bool)
    requires offset < |remaining|
    ensures hit == Likely(remaining, offset)
  {
    hide Ub;
    if remaining[offset] != ERROR || END_OF_RESPONSE_MESSAGE !in remaining[offset + 1..] {
      return false;
    }
    var probe := new ReadBuffer(remaining);
    probe.pos := offset + 1;
    var status := probe.ReadUb4();
    if status.Failure? {
      return false;
    }
    var sequence := probe.ReadUb2();
    return sequence.Success?;
  }

  method ParseReturnParameters(t: TextRules, buf: ReadBuffer, want: bool)
    returns (r: Result<Option<seq<nat>>, ReadError>)
    requires buf.Valid()
    modifies buf
    ensures buf.Valid() && Yields(r, buf.pos, ReturnParameters(t, buf.data, old(buf.pos), want))
  {
    hide StandardParameters, Search, ErrorEnd, Ub;
    var start := buf.pos;
    r := ParseStandardReturnParameters(buf, want);
    if r.Failure? {
      var _ := buf.SetPosition(start);
      var found := SkipSessionStateReturnParameter(t, buf);
      if found {
        return Success(None);
      }
    }
  }

  method SkipTypes(buf: ReadBuffer) returns (r: Result<(), ReadError>)
    requires buf.Valid()
    modifies buf
    ensures buf.Valid() && Reading(r, buf.pos) == TypesEnd(buf.data, old(buf.pos))
  {
    hide SkipUb;
    var _ :- buf.SkipUbN();
    r := buf.SkipBytes(1);
  }

  method ReadTransaction(buf: ReadBuffer) returns (r: Result<(), ReadError>)
    requires buf.Valid()
    modifies buf
    ensures buf.Valid() && Stops(r, buf.pos, TransactionEnd(buf.data, old(buf.pos)))
  {
    hide Ub, BytesWithLength;
    var n :- buf.ReadUb4();
    if n > 0 {
      var _ :- buf.ReadBytesWithLength();
    }
    return Success(());
  }

  method ReadProcess(buf: ReadBuffer) returns (r: Result<(), ReadError>)
    requires buf.Valid()
    modifies buf
    ensures buf.Valid() && Stops(r, buf.pos, ProcessEnd(buf.data, old(buf.pos)))
  {
    hide Ub;
    var n :- buf.ReadUb2();
    var _ :- buf.SkipBytes(1);
    r := buf.SkipBytes(n);
  }

  method ReadSync(buf: ReadBuffer) returns (r: Result<(), ReadError>)
    requires buf.Valid()
    modifies buf
    ensures buf.Valid() && Stops(r, buf.pos, SyncEnd(buf.data, old(buf.pos)))
  {
    hide Ub, SkipUb, TypesEnd, PairsEnd;
    var _ :- SkipTypes(buf);
    var n :- buf.ReadUb4();
    var _ :- buf.SkipBytes(1);
    var _ :- ReadPairs(buf, n, Textual, Prefixed);
    r := buf.SkipUbN();
  }

  method ReadReplayContext(buf: ReadBuffer) returns (r: Result<(), ReadError>)
    requires buf.Valid()
    modifies buf
    ensures buf.Valid() && Stops(r, buf.pos, ReplayEnd(buf.data, old(buf.pos)))
  {
    hide SkipUb, SkipUbs, TypesEnd, Chunked;
    var _ :- SkipTypes(buf);
    ErrorMessageCode.Unfold(buf.data, buf.pos, 2);
    var _ :- buf.SkipUbN();
    ErrorMessageCode.Unfold(buf.data, buf.pos, 1);
    var _ :- buf.SkipUbN();
    var _ :- buf.SkipBytes(1);
    r := ErrorMessageCode.SkipChunked4(buf);
  }

  method ReadIdentity(buf: ReadBuffer) returns (r: Result<(), ReadError>)
    requires buf.Valid()
    modifies buf
    ensures buf.Valid() && Stops(r, buf.pos, IdentityEnd(buf.data, old(buf.pos)))
  {
    hide Ub;
    var _ :- buf.ReadUb4();
    var _ :- buf.ReadUb4();
    var _ :- buf.ReadUb2();
    return Success(());
  }

  method ReadSession(buf: ReadBuffer) returns (r: Result<(), ReadError>)
    requires buf.Valid()
    modifies buf
    ensures buf.Valid() && Stops(r, buf.pos, SessionEnd(buf.data, old(buf.pos)))
  {
    hide Ub, TypesEnd, PairsEnd, IdentityEnd;
    var _ :- SkipTypes(buf);
    var n :- buf.ReadUb2();
    if n > 0 {
      var _ :- buf.SkipBytes(1);
      var _ :- ReadPairs(buf, n, InChunks, InChunks);
    }
    r := ReadIdentity(buf);
  }

  method ReadSignature(buf: ReadBuffer) returns (r: Result<(), ReadError>)
    requires buf.Valid()
    modifies buf
    ensures buf.Valid() && Stops(r, buf.pos, SignatureEnd(buf.data, old(buf.pos)))
  {
    hide SkipUb, SkipUbs, TypesEnd;
    var _ :- SkipTypes(buf);
    ErrorMessageCode.Unfold(buf.data, buf.pos, 3);
    var _ :- buf.SkipUbN();
    ErrorMessageCode.Unfold(buf.data, buf.pos, 2);
    var _ :- buf.SkipUbN();
    ErrorMessageCode.Unfold(buf.data, buf.pos, 1);
    r := buf.SkipUbN();
  }

  method ParseServerSidePiggyback(buf: ReadBuffer) returns (r: Result<(), ReadError>)
    requires buf.Valid()
    modifies buf
    ensures buf.Valid() && Stops(r, buf.pos, PiggybackEnd(buf.data, old(buf.pos)))
  {
    hide TransactionEnd, ProcessEnd, SyncEnd, TypesEnd, ReplayEnd, SessionEnd, SignatureEnd;
    var opcode :- buf.ReadU8();
    match opcode {
      case 7 => r := ReadTransaction(buf);
      case 1 => return Success(());
      case 3 => return Success(());
      case 2 => r := ReadProcess(buf);
      case 5 => r := ReadSync(buf);
      case 9 => r := SkipTypes(buf);
      case 8 => r := ReadReplayContext(buf);
      case 4 => r := ReadSession(buf);
      case 10 => r := ReadSignature(buf);
      case _ => return Failure(BadLayout);
    }
  }

  /** One round of the loop: the type byte and the message it announces. */
  method ParseMessage(t: TextRules, buf: ReadBuffer, want: bool) returns (r: Result<Event, ReadError>)
    requires buf.Valid() && buf.pos < |buf.data|
    modifies buf
    ensures buf.Valid() && Yields(r, buf.pos, Message(t, buf.data, old(buf.pos), want))
  {
    hide Ub, ErrorMessage, PiggybackEnd, ReturnParameters;
    var first := buf.ReadU8();
    var kind := first.value;
    if kind == ERROR {
      var info :- ErrorMessageCode.ParseErrorInfo(t, buf, true);
      return Success(ErrorSeen(info));
    } else if kind == PARAMETER {
      var counts :- ParseReturnParameters(t, buf, want);
      return Success(if counts.Some? then CountsSeen(counts.value) else Nothing);
    } else if kind == PIGGYBACK {
      var _ :- ParseServerSidePiggyback(buf);
    } else if kind == STATUS {
      var _ :- buf.ReadUb4();
      var _ :- buf.ReadUb2();
    } else if kind == BIT_VECTOR {
      var _ :- buf.ReadUb2();
      if buf.Remaining() > 0 {
        var _ := buf.ReadU8();
      }
    } else if kind == END_OF_RESPONSE_MESSAGE {
      return Success(End);
    }
    return Success(Nothing);
  }

  method ParseDmlResponse(t: TextRules, payload: seq<byte>) returns (r: Result<DmlAnswer, ResponseError>)
    ensures r == Dml(t, payload)
  {
    hide Message;
    if |payload| < 3 {
      return Failure(TooShort);
    }
    var buf := new ReadBuffer(payload);
    var _ := buf.SkipBytes(2);
    var answer := DmlAnswer(0, 0);
    var done := false;
    while !done && buf.Remaining() > 0
      invariant buf.Valid() && buf.data == payload
      invariant Dml(t, payload) == if done then Success(answer) else DmlFrom(t, payload, buf.pos, answer)
      decreases !done, |payload| - buf.pos
    {
      var message := ParseMessage(t, buf, false);
      if message.Failure? {
        return Failure(Malformed);
      }
      match message.value {
        case ErrorSeen(e) =>
          answer := DmlAnswer(e.rowCount, e.cursorId);
          if Fatal(e.code) {
            return Failure(Oracle(e.code, e.message.GetOr([])));
          }
        case End => done := true;
        case _ =>
      }
    }
    return Success(answer);
  }

  method ParseBatchResponse(t: TextRules, payload: seq<byte>, size: nat, want: bool, tolerant: bool)
    returns (r: Result<BatchResult, ResponseError>)
    ensures r == Batch(t, payload, size, want, tolerant)
  {
    hide Message;
    if |payload| < 3 {
      return Failure(TooShort);
    }
    var buf := new ReadBuffer(payload);
    var _ := buf.SkipBytes(2);
    var answer := BatchAnswer(0, None, []);
    var done := false;
    while !done && buf.Remaining() > 0
      invariant buf.Valid() && buf.data == payload
      invariant BatchFrom(t, payload, 2, want, tolerant, BatchAnswer(0, None, []))
        == if done then Success(answer) else BatchFrom(t, payload, buf.pos, want, tolerant, answer)
      decreases !done, |payload| - buf.pos
    {
      var message := ParseMessage(t, buf, want);
      if message.Failure? {
        return Failure(Malformed);
      }
      match message.value {
        case ErrorSeen(e) =>
          answer := answer.(rowsAffected := e.rowCount, errors := answer.errors + e.batchErrors);
          if Fatal(e.code) && !(tolerant && answer.errors != []) {
            return Failure(Oracle(e.code, e.message.GetOr([])));
          }
        case CountsSeen(counts) => answer := answer.(counts := Some(counts));
        case Nothing =>
        case End => done := true;
      }
    }
    var failures := |answer.errors|;
    var successes := if size < failures then 0 else size - failures;
    return Success(BatchResult(answer.rowsAffected, successes, failures, answer.errors, answer.counts));
  }
}
