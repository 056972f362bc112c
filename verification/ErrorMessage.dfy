/** The error message that ends a response, whether it reports success or a failure: its layout,
    the text of the error, and the search for that text elsewhere in the response. */
module ErrorMessages {
  import opened Bytes
  import opened Reads
  import opened Texts
  import WireFormat
  import opened Wrappers
  import opened Writes

  /** A string by its UTF-8 bytes. */
  type Text = seq<byte>

  /** What the standard library does to strings: blanks around a text taken off, and bytes that
      are not UTF-8 replaced. */
  datatype TextRules = TextRules(trim: Text -> Text, lossy: seq<byte> -> Text)

  /** What went wrong with one row of a batch. */
  datatype BatchError = BatchError(row: nat, code: nat, message: Text)

  datatype ErrorInfo = ErrorInfo(
    code: nat,
    message: Option<Text>,
    cursorId: u16,
    rowCount: u64,
    batchErrors: seq<BatchError>)

  // ---- The layout ----------------------------------------------------------------------

  lemma UbBound(s: seq<byte>, p: nat, max: byte)
    requires p <= |s| && Ub(s, p, max).Ok()
    ensures max == 2 ==> Ub(s, p, max).Value() < 0x1_0000
    ensures max == 8 ==> Ub(s, p, max).Value() < 0x1_0000_0000_0000_0000
  {
    Pow256Values();
    var len := UbLength(s, p);
    if len.Value() > 0 {
      BeAtBound(s, len.pos, len.Value());
      Pow256Grows(len.Value(), max);
    }
  }

  lemma {:induction false} Pow256Grows(a: nat, b: nat)
    requires a <= b
    ensures Pow256(a) <= Pow256(b)
  {
    if a < b {
      Pow256Grows(a, b - 1);
    }
  }

  function Ub16(s: seq<byte>, p: nat): (r: Reading<u16>)
    requires p <= |s|
    ensures p <= r.pos <= |s|
    ensures r.Ok() ==> p < r.pos
  {
    var n := Ub(s, p, 2);
    if !n.Ok() then n.Fail()
    else
      UbBound(s, p, 2);
      Reading(Success(n.Value()), n.pos)
  }

  function Ub64(s: seq<byte>, p: nat): (r: Reading<u64>)
    requires p <= |s|
    ensures p <= r.pos <= |s|
  {
    var n := Ub(s, p, 8);
    if !n.Ok() then n.Fail()
    else
      UbBound(s, p, 8);
      Reading(Success(n.Value()), n.pos)
  }

  function SkipUbs(s: seq<byte>, p: nat, n: nat): (r: Reading<()>)
    requires p <= |s|
    ensures p <= r.pos <= |s|
    decreases n
  {
    if n == 0 then Reading(Success(()), p)
    else
      var one := SkipUb(s, p);
      if one.Ok() then SkipUbs(s, one.pos, n - 1) else one
  }

  /** `n` bytes skipped one at a time. */
  function SkipOnes(s: seq<byte>, p: nat, n: nat): (r: Reading<()>)
    requires p <= |s|
    ensures p <= r.pos <= |s|
  {
    if |s| - p < n then Reading(Failure(BufferUnderflow(1, 0)), |s|) else Reading(Success(()), p + n)
  }

  /** Status, sequence number, row number and three numbers more. */
  function HeadStart(s: seq<byte>, p: nat): (r: Reading<()>)
    requires p <= |s|
    ensures p <= r.pos <= |s|
    ensures r.Ok() ==> p < r.pos
  {
    var status := Ub(s, p, 4);
    if status.Ok() then SkipUbs(s, status.pos, 5) else status.Fail()
  }

  /** The cursor, and the position of the error in the statement. */
  function HeadCursor(s: seq<byte>, p: nat): (r: Reading<u16>)
    requires p <= |s|
    ensures p <= r.pos <= |s|
  {
    var cursor := Ub16(s, p);
    if !cursor.Ok() then cursor
    else
      var position := Sb2(s, cursor.pos);
      if position.Ok() then Reading(cursor.result, position.pos) else position.Fail()
  }

  /** Six flags, and the row identifier up to its filler byte. */
  function HeadFlags(s: seq<byte>, p: nat): (r: Reading<()>)
    requires p <= |s|
    ensures p <= r.pos <= |s|
  {
    var flags := SkipOnes(s, p, 6);
    if !flags.Ok() then flags
    else
      var row := SkipUbs(s, flags.pos, 2);
      if row.Ok() then SkipOnes(s, row.pos, 1) else row
  }

  /** The rest of the row identifier, the error of the system, and four counters. */
  function HeadCounters(s: seq<byte>, p: nat): (r: Reading<()>)
    requires p <= |s|
    ensures p <= r.pos <= |s|
  {
    var row := SkipUbs(s, p, 3);
    if !row.Ok() then row
    else
      var numbers := SkipOnes(s, row.pos, 2);
      if numbers.Ok() then SkipUbs(s, numbers.pos, 2) else numbers
  }

  /** A length of at most `max` bytes and, unless it is zero, bytes in chunks. */
  function Chunked(s: seq<byte>, p: nat, max: byte): (r: Reading<()>)
    requires p <= |s|
    ensures p <= r.pos <= |s|
  {
    var n := Ub(s, p, max);
    if !n.Ok() then n.Fail()
    else if n.Value() > 0 then SkipRawBytesChunked(s, n.pos)
    else Reading(Success(()), n.pos)
  }

  /** What all error messages begin with: the cursor. */
  function Head(s: seq<byte>, p: nat): (r: Reading<u16>)
    requires p <= |s|
    ensures p <= r.pos <= |s|
    ensures r.Ok() ==> p < r.pos
  {
    var start := HeadStart(s, p);
    if !start.Ok() then start.Fail()
    else
      var cursor := HeadCursor(s, start.pos);
      if !cursor.Ok() then cursor
      else
        var flags := HeadFlags(s, cursor.pos);
        if !flags.Ok() then flags.Fail()
        else
          var counters := HeadCounters(s, flags.pos);
          if !counters.Ok() then counters.Fail()
          else
            var diagnostic := Chunked(s, counters.pos, 4);
            if diagnostic.Ok() then Reading(cursor.result, diagnostic.pos) else diagnostic.Fail()
  }

  function Numbers(s: seq<byte>, p: nat, count: nat, max: byte, acc: seq<nat>): (r: Reading<seq<nat>>)
    requires p <= |s|
    ensures p <= r.pos <= |s|
    decreases count
  {
    if count == 0 then Reading(Success(acc), p)
    else
      var n := Ub(s, p, max);
      if n.Ok() then Numbers(s, n.pos, count - 1, max, acc + [n.Value()]) else n.Fail()
  }

  /** A list of numbers behind its length and a byte. */
  function NumberList(s: seq<byte>, p: nat, max: byte): (r: Reading<seq<nat>>)
    requires p <= |s|
    ensures p <= r.pos <= |s|
  {
    var n := Ub(s, p, max);
    if !n.Ok() then n.Fail()
    else if n.Value() == 0 then Reading(Success([]), n.pos)
    else
      var packed := Skip(s, n.pos, 1);
      if packed.Ok() then Numbers(s, packed.pos, n.Value(), max, []) else packed.Fail()
  }

  /** The text of one batch error, between a length and an end mark. */
  function BatchText(t: TextRules, s: seq<byte>, p: nat): (r: Reading<Text>)
    requires p <= |s|
    ensures p <= r.pos <= |s|
  {
    var chunk := SkipUb(s, p);
    if !chunk.Ok() then chunk.Fail()
    else
      var text := TextWithLength(s, chunk.pos);
      if !text.Ok() then text.Fail()
      else
        var mark := Skip(s, text.pos, 2);
        if mark.Ok() then Reading(Success(t.trim(text.Value().GetOr([]))), mark.pos) else mark.Fail()
  }

  function BatchTexts(t: TextRules, s: seq<byte>, p: nat, count: nat, acc: seq<Text>): (r: Reading<seq<Text>>)
    requires p <= |s|
    ensures p <= r.pos <= |s|
    decreases count
  {
    if count == 0 then Reading(Success(acc), p)
    else
      var one := BatchText(t, s, p);
      if one.Ok() then BatchTexts(t, s, one.pos, count - 1, acc + [one.Value()]) else one.Fail()
  }

  function TextList(t: TextRules, s: seq<byte>, p: nat): (r: Reading<seq<Text>>)
    requires p <= |s|
    ensures p <= r.pos <= |s|
  {
    var n := Ub(s, p, 2);
    if !n.Ok() then n.Fail()
    else if n.Value() == 0 then Reading(Success([]), n.pos)
    else
      var packed := Skip(s, n.pos, 1);
      if packed.Ok() then BatchTexts(t, s, packed.pos, n.Value(), []) else packed.Fail()
  }

  /** The errors of a batch, in three lists. */
  datatype Lists = Lists(codes: seq<nat>, rows: seq<nat>, texts: seq<Text>)

  function BatchLists(t: TextRules, s: seq<byte>, p: nat): (r: Reading<Lists>)
    requires p <= |s|
    ensures p <= r.pos <= |s|
  {
    var codes := NumberList(s, p, 2);
    if !codes.Ok() then codes.Fail()
    else
      var rows := NumberList(s, codes.pos, 4);
      if !rows.Ok() then rows.Fail()
      else
        var texts := TextList(t, s, rows.pos);
        if texts.Ok() then Reading(Success(Lists(codes.Value(), rows.Value(), texts.Value())), texts.pos)
        else texts.Fail()
  }

  /** How the statement ended. */
  datatype Verdict = Verdict(code: nat, rowCount: u64, text: Option<Text>)

  /** The code and the row count. */
  function Outcome(s: seq<byte>, p: nat): (r: Reading<(nat, u64)>)
    requires p <= |s|
    ensures p <= r.pos <= |s|
  {
    var code := Ub(s, p, 4);
    if !code.Ok() then code.Fail()
    else
      var rows := Ub64(s, code.pos);
      if rows.Ok() then Reading(Success((code.Value(), rows.Value())), rows.pos) else rows.Fail()
  }

  /** The text of a code that is not zero, behind two more fields if the reader knows of them. */
  function TextPart(s: seq<byte>, p: nat, code: nat, modern: bool): (r: Reading<Option<Text>>)
    requires p <= |s|
    ensures p <= r.pos <= |s|
  {
    var extra := if modern then SkipUbs(s, p, 2) else Reading(Success(()), p);
    if !extra.Ok() then extra.Fail()
    else if code == 0 then Reading(Success(None), extra.pos)
    else TextWithLength(s, extra.pos)
  }

  function VerdictAt(s: seq<byte>, p: nat, modern: bool): (r: Reading<Verdict>)
    requires p <= |s|
    ensures p <= r.pos <= |s|
  {
    var outcome := Outcome(s, p);
    if !outcome.Ok() then outcome.Fail()
    else
      var (code, rows) := outcome.Value();
      var text := TextPart(s, outcome.pos, code, modern);
      if text.Ok() then Reading(Success(Verdict(code, rows, text.Value())), text.pos) else text.Fail()
  }

  /** An error message as it is laid out. */
  datatype Fields = Fields(cursorId: u16, lists: Lists, verdict: Verdict)

  function FieldsAt(t: TextRules, s: seq<byte>, p: nat, modern: bool): (r: Reading<Fields>)
    requires p <= |s|
    ensures p <= r.pos <= |s|
    ensures r.Ok() ==> p < r.pos
  {
    var head := Head(s, p);
    if !head.Ok() then head.Fail()
    else
      var lists := BatchLists(t, s, head.pos);
      if !lists.Ok() then lists.Fail()
      else
        var verdict := VerdictAt(s, lists.pos, modern);
        if verdict.Ok() then Reading(Success(Fields(head.Value(), lists.Value(), verdict.Value())), verdict.pos)
        else verdict.Fail()
  }

  /** All of an error message but the text: what the two ways of reading it have in common. */
  datatype Front = Front(cursorId: u16, lists: Lists, code: nat, rowCount: u64)

  function FrontAt(t: TextRules, s: seq<byte>, p: nat): (r: Reading<Front>)
    requires p <= |s|
    ensures p <= r.pos <= |s|
  {
    var head := Head(s, p);
    if !head.Ok() then head.Fail()
    else
      var lists := BatchLists(t, s, head.pos);
      if !lists.Ok() then lists.Fail()
      else
        var outcome := Outcome(s, lists.pos);
        if !outcome.Ok() then outcome.Fail()
        else
          var (code, rows) := outcome.Value();
          Reading(Success(Front(head.Value(), lists.Value(), code, rows)), outcome.pos)
  }

  lemma FieldsByFront(t: TextRules, s: seq<byte>, p: nat, modern: bool)
    requires p <= |s|
    ensures FieldsAt(t, s, p, modern) ==
      var front := FrontAt(t, s, p);
      if !front.Ok() then front.Fail()
      else
        var f := front.Value();
        var text := TextPart(s, front.pos, f.code, modern);
        if text.Ok() then Reading(Success(Fields(f.cursorId, f.lists, Verdict(f.code, f.rowCount, text.Value()))), text.pos)
        else text.Fail()
  {
    hide Head, BatchLists, Outcome, TextPart;
  }

  // ---- The text of an error ------------------------------------------------------------

  const ORA: Text := [79, 82, 65, 45]

  predicate IsDecimal(b: byte) {
    48 <= b < 58
  }

  /** Where `ORA-` first occurs from `i` on. */
  function FindOra(s: seq<byte>, i: nat): (r: Option<nat>)
    ensures r.Some? ==> i <= r.value && r.value + 4 <= |s| && s[r.value..r.value + 4] == ORA
    decreases |s| - i
  {
    if i + 4 > |s| then None
    else if s[i..i + 4] == ORA then Some(i) else FindOra(s, i + 1)
  }

  /** Where a text that starts at `i` ends: at a line feed, a group separator, a zero byte, or with
      the bytes. */
  function LineEnd(s: seq<byte>, i: nat): (r: nat)
    requires i <= |s|
    ensures i <= r <= |s|
    decreases |s| - i
  {
    if i == |s| || s[i] in {10, 29, 0} then i else LineEnd(s, i + 1)
  }

  /** A code and a text found in the bytes of a response: the first `ORA-`, if five digits follow. */
  function OracleText(t: TextRules, s: seq<byte>): Option<(nat, Text)> {
    match FindOra(s, 0)
    case None => None
    case Some(i) =>
      if i + 9 > |s| || !(forall k | i + 4 <= k < i + 9 :: IsDecimal(s[k])) then None
      else
        var code := DecimalAt(s, i + 4, 5);
        var message := t.trim(t.lossy(s[i..LineEnd(s, i)]));
        if message == [] then None else Some((code, message))
  }

  /** The number that `n` decimal digits denote. */
  function DecimalAt(s: seq<byte>, p: nat, n: nat): nat
    requires p + n <= |s| && forall k | p <= k < p + n :: IsDecimal(s[k])
  {
    if n == 0 then 0
    else
      assert IsDecimal(s[p + n - 1]);
      10 * DecimalAt(s, p, n - 1) + (s[p + n - 1] as int - 48)
  }

  /** `ORA-` and the code in at least five digits. */
  function OraText(code: nat): Text {
    var digits := Decimal(code);
    Ascii("ORA-" + seq(if |digits| < 5 then 5 - |digits| else 0, i => '0') + digits)
  }

  /** The text names an Oracle error. */
  predicate Names(text: Option<Text>) {
    text.Some? && FindOra(text.value, 0).Some?
  }

  /** A failure whose text does not name an Oracle error takes code and text from wherever one is
      named in the response. */
  function Named(t: TextRules, s: seq<byte>, code: nat, text: Option<Text>): (nat, Option<Text>) {
    if code != 0 && !Names(text) then
      match OracleText(t, s)
      case Some((found, message)) => (found, Some(message))
      case None => (code, text)
    else (code, text)
  }

  /** The error of one row: what the three lists say, completed from the message as a whole. */
  function RowError(l: Lists, i: nat, code: nat, message: Option<Text>): BatchError {
    var own := if i < |l.codes| then l.codes[i] else code;
    BatchError(if i < |l.rows| then l.rows[i] else i, own,
               if i < |l.texts| && l.texts[i] != [] then l.texts[i] else message.GetOr(OraText(own)))
  }

  function RowErrors(l: Lists, code: nat, message: Option<Text>): seq<BatchError> {
    seq(Max(|l.codes|, Max(|l.rows|, |l.texts|)), i requires 0 <= i => RowError(l, i, code, message))
  }

  function Trimmed(t: TextRules, text: Option<Text>): Option<Text> {
    if text.Some? then Some(t.trim(text.value)) else None
  }

  /** What an error message in the response `s` says. */
  function Info(t: TextRules, s: seq<byte>, f: Fields): ErrorInfo {
    var (code, message) := Named(t, s, f.verdict.code, Trimmed(t, f.verdict.text));
    ErrorInfo(code, message, f.cursorId, f.verdict.rowCount, RowErrors(f.lists, code, message))
  }

  /** The error message at `p`, its type byte aside; `modern` readers know of two more fields. */
  function ErrorMessage(t: TextRules, s: seq<byte>, p: nat, modern: bool): (r: Reading<ErrorInfo>)
    requires p <= |s|
    ensures p <= r.pos <= |s|
    ensures r.Ok() ==> p < r.pos
  {
    var f := FieldsAt(t, s, p, modern);
    if f.Ok() then Reading(Success(Info(t, s, f.Value())), f.pos) else f.Fail()
  }

  // ---- The reader of fetches -----------------------------------------------------------

  /** Code, text, cursor, and whether there are more rows, of the message that ends a fetch. */
  datatype FetchInfo = FetchInfo(code: nat, message: Text, cursorId: u16, moreRows: bool)

  /** The three lists of a batch, passed over. */
  function ListsPassed(s: seq<byte>, p: nat): (r: Reading<()>)
    requires p <= |s|
    ensures p <= r.pos <= |s|
  {
    var codes := Chunked(s, p, 2);
    if !codes.Ok() then codes
    else
      var rows := Chunked(s, codes.pos, 4);
      if rows.Ok() then Chunked(s, rows.pos, 2) else rows
  }

  function FetchEnd(s: seq<byte>, p: nat, modern: bool): (r: Reading<FetchInfo>)
    requires p <= |s|
    ensures p <= r.pos <= |s|
  {
    var head := Head(s, p);
    if !head.Ok() then head.Fail()
    else
      var lists := ListsPassed(s, head.pos);
      if !lists.Ok() then lists.Fail()
      else
        var v := VerdictAt(s, lists.pos, modern);
        if !v.Ok() then v.Fail()
        else
          var code := v.Value().code;
          Reading(Success(FetchInfo(code, v.Value().text.GetOr([]), head.Value(), code != 1403)), v.pos)
  }

  // ---- Where a message stands does not matter ------------------------------------------

  /** A reading of bytes that start `k` places further back. */
  function Moved<T>(r: Reading<T>, k: nat): Reading<T> {
    Reading(r.result, r.pos + k)
  }

  lemma UbMoved(s: seq<byte>, k: nat, p: nat, max: byte)
    requires k + p <= |s|
    ensures Ub(s, k + p, max) == Moved(Ub(s[k..], p, max), k)
  {
    var len := UbLength(s[k..], p);
    if len.Ok() && len.pos + len.Value() <= |s[k..]| {
      BeAtSame(s[k..], len.pos, len.Value(), s, k);
    }
  }

  lemma SkipUbMoved(s: seq<byte>, k: nat, p: nat)
    requires k + p <= |s|
    ensures SkipUb(s, k + p) == Moved(SkipUb(s[k..], p), k)
  {
  }

  lemma {:induction false} SkipUbsMoved(s: seq<byte>, k: nat, p: nat, n: nat)
    requires k + p <= |s|
    ensures SkipUbs(s, k + p, n) == Moved(SkipUbs(s[k..], p, n), k)
    decreases n
  {
    hide SkipUb;
    if n > 0 {
      SkipUbMoved(s, k, p);
      var one := SkipUb(s[k..], p);
      if one.Ok() {
        SkipUbsMoved(s, k, one.pos, n - 1);
      }
    }
  }

  lemma SkipOnesMoved(s: seq<byte>, k: nat, p: nat, n: nat)
    requires k + p <= |s|
    ensures SkipOnes(s, k + p, n) == Moved(SkipOnes(s[k..], p, n), k)
  {
  }

  lemma Ub16Moved(s: seq<byte>, k: nat, p: nat)
    requires k + p <= |s|
    ensures Ub16(s, k + p) == Moved(Ub16(s[k..], p), k)
  {
    hide Ub;
    UbMoved(s, k, p, 2);
  }

  lemma Sb2Moved(s: seq<byte>, k: nat, p: nat)
    requires k + p <= |s|
    ensures Sb2(s, k + p) == Moved(Sb2(s[k..], p), k)
  {
    hide Ub;
    UbMoved(s, k, p, 2);
  }

  lemma HeadStartMoved(s: seq<byte>, k: nat, p: nat)
    requires k + p <= |s|
    ensures HeadStart(s, k + p) == Moved(HeadStart(s[k..], p), k)
  {
    hide Ub, SkipUbs;
    UbMoved(s, k, p, 4);
    var status := Ub(s[k..], p, 4);
    if status.Ok() {
      SkipUbsMoved(s, k, status.pos, 5);
    }
  }

  lemma HeadCursorMoved(s: seq<byte>, k: nat, p: nat)
    requires k + p <= |s|
    ensures HeadCursor(s, k + p) == Moved(HeadCursor(s[k..], p), k)
  {
    hide Ub16, Sb2;
    Ub16Moved(s, k, p);
    var cursor := Ub16(s[k..], p);
    if cursor.Ok() {
      Sb2Moved(s, k, cursor.pos);
    }
  }

  lemma HeadFlagsMoved(s: seq<byte>, k: nat, p: nat)
    requires k + p <= |s|
    ensures HeadFlags(s, k + p) == Moved(HeadFlags(s[k..], p), k)
  {
    hide SkipOnes, SkipUbs;
    SkipOnesMoved(s, k, p, 6);
    var flags := SkipOnes(s[k..], p, 6);
    if flags.Ok() {
      SkipUbsMoved(s, k, flags.pos, 2);
      var row := SkipUbs(s[k..], flags.pos, 2);
      if row.Ok() {
        SkipOnesMoved(s, k, row.pos, 1);
      }
    }
  }

  lemma HeadCountersMoved(s: seq<byte>, k: nat, p: nat)
    requires k + p <= |s|
    ensures HeadCounters(s, k + p) == Moved(HeadCounters(s[k..], p), k)
  {
    hide SkipOnes, SkipUbs;
    SkipUbsMoved(s, k, p, 3);
    var row := SkipUbs(s[k..], p, 3);
    if row.Ok() {
      SkipOnesMoved(s, k, row.pos, 2);
      var numbers := SkipOnes(s[k..], row.pos, 2);
      if numbers.Ok() {
        SkipUbsMoved(s, k, numbers.pos, 2);
      }
    }
  }

  lemma {:induction false} SkipChunksMoved(s: seq<byte>, k: nat, p: nat)
    requires k + p <= |s|
    ensures SkipChunks(s, k + p) == Moved(SkipChunks(s[k..], p), k)
    decreases |s| - p
  {
    hide Ub;
    UbMoved(s, k, p, 4);
    var size := Ub(s[k..], p, 4);
    if size.Ok() && size.Value() > 0 && size.pos + size.Value() <= |s[k..]| {
      SkipChunksMoved(s, k, size.pos + size.Value());
    }
  }

  lemma SkipRawMoved(s: seq<byte>, k: nat, p: nat)
    requires k + p <= |s|
    ensures SkipRawBytesChunked(s, k + p) == Moved(SkipRawBytesChunked(s[k..], p), k)
  {
    hide SkipChunks;
    if p < |s[k..]| {
      SkipChunksMoved(s, k, p + 1);
    }
  }

  lemma ChunkedMoved(s: seq<byte>, k: nat, p: nat, max: byte)
    requires k + p <= |s|
    ensures Chunked(s, k + p, max) == Moved(Chunked(s[k..], p, max), k)
  {
    hide Ub, SkipRawBytesChunked;
    UbMoved(s, k, p, max);
    var n := Ub(s[k..], p, max);
    if n.Ok() {
      SkipRawMoved(s, k, n.pos);
    }
  }

  lemma HeadMoved(s: seq<byte>, k: nat, p: nat)
    requires k + p <= |s|
    ensures Head(s, k + p) == Moved(Head(s[k..], p), k)
  {
    hide HeadStart, HeadCursor, HeadFlags, HeadCounters, Chunked;
    HeadStartMoved(s, k, p);
    var start := HeadStart(s[k..], p);
    if start.Ok() {
      HeadCursorMoved(s, k, start.pos);
      var cursor := HeadCursor(s[k..], start.pos);
      if cursor.Ok() {
        HeadFlagsMoved(s, k, cursor.pos);
        var flags := HeadFlags(s[k..], cursor.pos);
        if flags.Ok() {
          HeadCountersMoved(s, k, flags.pos);
          var counters := HeadCounters(s[k..], flags.pos);
          if counters.Ok() {
            ChunkedMoved(s, k, counters.pos, 4);
          }
        }
      }
    }
  }

  lemma {:induction false} NumbersMoved(s: seq<byte>, k: nat, p: nat, count: nat, max: byte, acc: seq<nat>)
    requires k + p <= |s|
    ensures Numbers(s, k + p, count, max, acc) == Moved(Numbers(s[k..], p, count, max, acc), k)
    decreases count
  {
    hide Ub;
    if count > 0 {
      UbMoved(s, k, p, max);
      var n := Ub(s[k..], p, max);
      if n.Ok() {
        NumbersMoved(s, k, n.pos, count - 1, max, acc + [n.Value()]);
      }
    }
  }

  lemma NumberListMoved(s: seq<byte>, k: nat, p: nat, max: byte)
    requires k + p <= |s|
    ensures NumberList(s, k + p, max) == Moved(NumberList(s[k..], p, max), k)
  {
    hide Ub, Numbers;
    UbMoved(s, k, p, max);
    var n := Ub(s[k..], p, max);
    if n.Ok() && n.pos + 1 <= |s[k..]| {
      NumbersMoved(s, k, n.pos + 1, n.Value(), max, []);
    }
  }

  lemma {:induction false} ChunksMoved(s: seq<byte>, k: nat, p: nat, acc: seq<byte>)
    requires k + p <= |s|
    ensures Chunks(s, k + p, acc) == Moved(Chunks(s[k..], p, acc), k)
    decreases |s| - p
  {
    hide Ub;
    UbMoved(s, k, p, 4);
    var size := Ub(s[k..], p, 4);
    if size.Ok() && size.Value() > 0 && size.pos + size.Value() <= |s[k..]| {
      var q := size.pos + size.Value();
      assert s[k..][size.pos..q] == s[k + size.pos..k + q];
      ChunksMoved(s, k, q, acc + s[k..][size.pos..q]);
    }
  }

  lemma BytesWithLengthMoved(s: seq<byte>, k: nat, p: nat)
    requires k + p <= |s|
    ensures BytesWithLength(s, k + p) == Moved(BytesWithLength(s[k..], p), k)
  {
    hide Chunks, Take, U8;
    U8Moved(s, k, p);
    var len := U8(s[k..], p);
    if len.Ok() {
      ChunksMoved(s, k, len.pos, []);
      TakeMoved(s, k, len.pos, len.Value());
      U8Moved(s, k, len.pos);
      var actual := U8(s[k..], len.pos);
      if actual.Ok() {
        TakeMoved(s, k, actual.pos, actual.Value());
      }
    }
  }

  lemma U8Moved(s: seq<byte>, k: nat, p: nat)
    requires k + p <= |s|
    ensures U8(s, k + p) == Moved(U8(s[k..], p), k)
  {
  }

  lemma TakeMoved(s: seq<byte>, k: nat, p: nat, n: nat)
    requires k + p <= |s|
    ensures Take(s, k + p, n) == Moved(Take(s[k..], p, n), k)
  {
    if p + n <= |s[k..]| {
      assert s[k..][p..p + n] == s[k + p..k + p + n];
    }
  }

  lemma TextMoved(s: seq<byte>, k: nat, p: nat)
    requires k + p <= |s|
    ensures TextWithLength(s, k + p) == Moved(TextWithLength(s[k..], p), k)
  {
    hide BytesWithLength, Utf8;
    BytesWithLengthMoved(s, k, p);
  }

  lemma BatchTextMoved(t: TextRules, s: seq<byte>, k: nat, p: nat)
    requires k + p <= |s|
    ensures BatchText(t, s, k + p) == Moved(BatchText(t, s[k..], p), k)
  {
    hide SkipUb, TextWithLength;
    SkipUbMoved(s, k, p);
    var chunk := SkipUb(s[k..], p);
    if chunk.Ok() {
      TextMoved(s, k, chunk.pos);
    }
  }

  lemma {:induction false} BatchTextsMoved(t: TextRules, s: seq<byte>, k: nat, p: nat, count: nat, acc: seq<Text>)
    requires k + p <= |s|
    ensures BatchTexts(t, s, k + p, count, acc) == Moved(BatchTexts(t, s[k..], p, count, acc), k)
    decreases count
  {
    hide BatchText;
    if count > 0 {
      BatchTextMoved(t, s, k, p);
      var one := BatchText(t, s[k..], p);
      if one.Ok() {
        BatchTextsMoved(t, s, k, one.pos, count - 1, acc + [one.Value()]);
      }
    }
  }

  lemma TextListMoved(t: TextRules, s: seq<byte>, k: nat, p: nat)
    requires k + p <= |s|
    ensures TextList(t, s, k + p) == Moved(TextList(t, s[k..], p), k)
  {
    hide Ub, BatchTexts;
    UbMoved(s, k, p, 2);
    var n := Ub(s[k..], p, 2);
    if n.Ok() && n.pos + 1 <= |s[k..]| {
      BatchTextsMoved(t, s, k, n.pos + 1, n.Value(), []);
    }
  }

  lemma BatchListsMoved(t: TextRules, s: seq<byte>, k: nat, p: nat)
    requires k + p <= |s|
    ensures BatchLists(t, s, k + p) == Moved(BatchLists(t, s[k..], p), k)
  {
    hide NumberList, TextList;
    NumberListMoved(s, k, p, 2);
    var codes := NumberList(s[k..], p, 2);
    if codes.Ok() {
      NumberListMoved(s, k, codes.pos, 4);
      var rows := NumberList(s[k..], codes.pos, 4);
      if rows.Ok() {
        TextListMoved(t, s, k, rows.pos);
      }
    }
  }

  lemma OutcomeMoved(s: seq<byte>, k: nat, p: nat)
    requires k + p <= |s|
    ensures Outcome(s, k + p) == Moved(Outcome(s[k..], p), k)
  {
    hide Ub;
    UbMoved(s, k, p, 4);
    var code := Ub(s[k..], p, 4);
    if code.Ok() {
      UbMoved(s, k, code.pos, 8);
    }
  }

  lemma VerdictMoved(s: seq<byte>, k: nat, p: nat, modern: bool)
    requires k + p <= |s|
    ensures VerdictAt(s, k + p, modern) == Moved(VerdictAt(s[k..], p, modern), k)
  {
    hide Outcome, SkipUbs, TextWithLength;
    OutcomeMoved(s, k, p);
    var outcome := Outcome(s[k..], p);
    if outcome.Ok() {
      SkipUbsMoved(s, k, outcome.pos, 2);
      var extra := if modern then SkipUbs(s[k..], outcome.pos, 2) else Reading(Success(()), outcome.pos);
      if extra.Ok() {
        TextMoved(s, k, extra.pos);
      }
    }
  }

  /** An error message reads the same from a buffer that starts at any place before it; only the
      search for the text of the error looks at the rest of the buffer. */
  lemma FieldsMoved(t: TextRules, s: seq<byte>, k: nat, p: nat, modern: bool)
    requires k + p <= |s|
    ensures FieldsAt(t, s, k + p, modern) == Moved(FieldsAt(t, s[k..], p, modern), k)
  {
    hide Head, BatchLists, VerdictAt;
    HeadMoved(s, k, p);
    var head := Head(s[k..], p);
    if head.Ok() {
      BatchListsMoved(t, s, k, head.pos);
      var lists := BatchLists(t, s[k..], head.pos);
      if lists.Ok() {
        VerdictMoved(s, k, lists.pos, modern);
      }
    }
  }

  lemma ListsPassedMoved(s: seq<byte>, k: nat, p: nat)
    requires k + p <= |s|
    ensures ListsPassed(s, k + p) == Moved(ListsPassed(s[k..], p), k)
  {
    hide Chunked;
    ChunkedMoved(s, k, p, 2);
    var codes := Chunked(s[k..], p, 2);
    if codes.Ok() {
      ChunkedMoved(s, k, codes.pos, 4);
      var rows := Chunked(s[k..], codes.pos, 4);
      if rows.Ok() {
        ChunkedMoved(s, k, rows.pos, 2);
      }
    }
  }

  lemma FetchEndMoved(s: seq<byte>, k: nat, p: nat, modern: bool)
    requires k + p <= |s|
    ensures FetchEnd(s, k + p, modern) == Moved(FetchEnd(s[k..], p, modern), k)
  {
    hide Head, ListsPassed, VerdictAt;
    HeadMoved(s, k, p);
    var head := Head(s[k..], p);
    if head.Ok() {
      ListsPassedMoved(s, k, head.pos);
      var lists := ListsPassed(s[k..], head.pos);
      if lists.Ok() {
        VerdictMoved(s, k, lists.pos, modern);
      }
    }
  }

  // ---- Writing one ---------------------------------------------------------------------

  /** An error message with nothing in it but the cursor, the code, the row count and the text. */
  datatype PlainEnd = PlainEnd(cursorId: u16, code: u32, rowCount: u64, text: Option<Text>)

  function Zeros(n: nat): (z: seq<byte>)
    ensures |z| == n && forall i | 0 <= i < n :: z[i] == 0
  {
    seq(n, _ => 0)
  }

  /** Its bytes, type byte aside, as a server sends them with or without the two newer fields. */
  function EndBytes(e: PlainEnd, modern: bool): seq<byte> {
    Zeros(6) + (UbBytes(e.cursorId) + (Zeros(21) + (UbBytes(e.code) + (UbBytes(e.rowCount)
    + (Zeros(if modern then 2 else 0) + if e.code == 0 then [] else LengthPrefixed(e.text))))))
  }

  ghost predicate ZerosAt(s: seq<byte>, p: nat, n: nat) {
    p + n <= |s| && forall i | p <= i < p + n :: s[i] == 0
  }

  lemma {:induction false} SkipZeros(s: seq<byte>, p: nat, n: nat)
    requires ZerosAt(s, p, n)
    ensures SkipUbs(s, p, n) == Reading(Success(()), p + n)
    decreases n
  {
    if n > 0 {
      SkipZeros(s, p + 1, n - 1);
    }
  }

  lemma UbZero(s: seq<byte>, p: nat, max: byte)
    requires ZerosAt(s, p, 1)
    ensures Ub(s, p, max) == Reading(Success(0), p + 1)
  {
  }

  lemma HeadOfZeros(s: seq<byte>, p: nat, cursorId: u16, q: nat)
    requires ZerosAt(s, p, 6) && q <= |s| && Ub(s, p + 6, 2) == Reading(Success(cursorId as nat), q) && ZerosAt(s, q, 18)
    ensures Head(s, p) == Reading(Success(cursorId), q + 18)
  {
    hide Ub, SkipUb, SkipUbs;
    UbZero(s, p, 4);
    SkipZeros(s, p + 1, 5);
    UbZero(s, q, 2);
    assert HeadCursor(s, p + 6) == Reading(Success(cursorId), q + 1);
    SkipZeros(s, q + 7, 2);
    assert HeadFlags(s, q + 1) == Reading(Success(()), q + 10);
    SkipZeros(s, q + 10, 3);
    SkipZeros(s, q + 15, 2);
    assert HeadCounters(s, q + 10) == Reading(Success(()), q + 17);
    UbZero(s, q + 17, 4);
  }

  lemma ListsOfZeros(t: TextRules, s: seq<byte>, p: nat)
    requires ZerosAt(s, p, 3)
    ensures BatchLists(t, s, p) == Reading(Success(Lists([], [], [])), p + 3)
    ensures ListsPassed(s, p) == Reading(Success(()), p + 3)
  {
    hide Ub;
    UbZero(s, p, 2);
    UbZero(s, p + 1, 4);
    UbZero(s, p + 2, 2);
  }

  lemma UbAt(v: u64, max: byte, s: seq<byte>, p: nat, rest: seq<byte>)
    requires max in {2, 4, 8} && v < Pow256(max) && At(s, p, UbBytes(v) + rest)
    ensures p + |UbBytes(v)| <= |s| && At(s, p + |UbBytes(v)|, rest)
    ensures Ub(s, p, max) == Reading(Success(v as nat), p + |UbBytes(v)|)
  {
    hide UbBytes, Ub, Pow256;
    AtSplit(s, p, UbBytes(v), rest);
    WireFormat.UbRoundTrip(v, max, s, p);
  }

  lemma ZerosBefore(s: seq<byte>, p: nat, n: nat, rest: seq<byte>)
    requires At(s, p, Zeros(n) + rest)
    ensures ZerosAt(s, p, n) && At(s, p + n, rest)
  {
    AtSplit(s, p, Zeros(n), rest);
  }

  lemma VerdictOfBytes(e: PlainEnd, s: seq<byte>, p: nat, modern: bool)
    requires e.code > 0 && e.text.Some? ==> Utf8(e.text.value)
    requires At(s, p, UbBytes(e.code) + (UbBytes(e.rowCount)
                      + (Zeros(if modern then 2 else 0) + if e.code == 0 then [] else LengthPrefixed(e.text))))
    ensures VerdictAt(s, p, modern).result == Success(Verdict(e.code, e.rowCount, if e.code == 0 then None else e.text))
    ensures VerdictAt(s, p, modern).pos == p + |UbBytes(e.code)| + |UbBytes(e.rowCount)| + (if modern then 2 else 0)
                                             + if e.code == 0 then 0 else |LengthPrefixed(e.text)|
  {
    hide UbBytes, Ub, Pow256, LengthPrefixed, BytesWithLength, Utf8, At, Zeros, SkipUbs;
    Pow256Values();
    var text := if e.code == 0 then [] else LengthPrefixed(e.text);
    var n := if modern then 2 else 0;
    UbAt(e.code, 4, s, p, UbBytes(e.rowCount) + (Zeros(n) + text));
    var p1 := p + |UbBytes(e.code)|;
    UbAt(e.rowCount, 8, s, p1, Zeros(n) + text);
    var p2 := p1 + |UbBytes(e.rowCount)|;
    ZerosBefore(s, p2, n, text);
    SkipZeros(s, p2, n);
    if e.code > 0 {
      WireFormat.LengthPrefixedRoundTrip(e.text, s, p2 + n);
    }
  }

  /** What is written reads back, by both readers, whatever stands around it. */
  lemma PlainEndRoundTrip(t: TextRules, e: PlainEnd, s: seq<byte>, p: nat, modern: bool)
    requires At(s, p, EndBytes(e, modern)) && (e.code > 0 && e.text.Some? ==> Utf8(e.text.value))
    ensures var v := Verdict(e.code, e.rowCount, if e.code == 0 then None else e.text);
      FieldsAt(t, s, p, modern) == Reading(Success(Fields(e.cursorId, Lists([], [], []), v)), p + |EndBytes(e, modern)|)
    ensures FetchEnd(s, p, modern) == Reading(
      Success(FetchInfo(e.code, if e.code == 0 then [] else e.text.GetOr([]), e.cursorId, e.code != 1403)),
      p + |EndBytes(e, modern)|)
  {
    hide UbBytes, Ub, Pow256, LengthPrefixed, Utf8, At, Head, BatchLists, ListsPassed, VerdictAt, Zeros, ZerosAt;
    Pow256Values();
    var w4 := UbBytes(e.code) + (UbBytes(e.rowCount)
              + (Zeros(if modern then 2 else 0) + if e.code == 0 then [] else LengthPrefixed(e.text)));
    var w3 := Zeros(21) + w4;
    ZerosBefore(s, p, 6, UbBytes(e.cursorId) + w3);
    UbAt(e.cursorId, 2, s, p + 6, w3);
    var q := p + 6 + |UbBytes(e.cursorId)|;
    ZerosBefore(s, q, 21, w4);
    ZerosPart(s, q);
    HeadOfZeros(s, p, e.cursorId, q);
    ListsOfZeros(t, s, q + 18);
    VerdictOfBytes(e, s, q + 21, modern);
  }

  /** And the part that both ways of reading have in common ends in front of the newer fields. */
  lemma PlainFront(t: TextRules, e: PlainEnd, s: seq<byte>, p: nat, modern: bool)
    requires At(s, p, EndBytes(e, modern))
    ensures var q := p + 27 + |UbBytes(e.cursorId)| + |UbBytes(e.code)| + |UbBytes(e.rowCount)|;
      && q <= |s| && FrontAt(t, s, p) == Reading(Success(Front(e.cursorId, Lists([], [], []), e.code, e.rowCount)), q)
      && (modern ==> ZerosAt(s, q, 2))
  {
    hide UbBytes, Ub, Pow256, LengthPrefixed, Utf8, At, Head, BatchLists, ListsPassed, Zeros, ZerosAt;
    Pow256Values();
    var n := if modern then 2 else 0;
    var w6 := if e.code == 0 then [] else LengthPrefixed(e.text);
    var w5 := UbBytes(e.rowCount) + (Zeros(n) + w6);
    var w4 := UbBytes(e.code) + w5;
    ZerosBefore(s, p, 6, UbBytes(e.cursorId) + (Zeros(21) + w4));
    UbAt(e.cursorId, 2, s, p + 6, Zeros(21) + w4);
    var c := p + 6 + |UbBytes(e.cursorId)|;
    ZerosBefore(s, c, 21, w4);
    ZerosPart(s, c);
    HeadOfZeros(s, p, e.cursorId, c);
    ListsOfZeros(t, s, c + 18);
    UbAt(e.code, 4, s, c + 21, w5);
    var d := c + 21 + |UbBytes(e.code)|;
    UbAt(e.rowCount, 8, s, d, Zeros(n) + w6);
    ZerosBefore(s, d + |UbBytes(e.rowCount)|, n, w6);
    ZerosEnd(s, d + |UbBytes(e.rowCount)|, n);
  }

  lemma ZerosEnd(s: seq<byte>, p: nat, n: nat)
    requires ZerosAt(s, p, n)
    ensures p <= |s|
  {
  }

  lemma EmptyText(s: seq<byte>, p: nat)
    requires p < |s| && s[p] == 0
    ensures TextWithLength(s, p) == Reading(Success(Some([])), p + 1)
  {
    assert s[p + 1..p + 1] == [];
  }

  lemma ZerosPart(s: seq<byte>, q: nat)
    requires ZerosAt(s, q, 21)
    ensures ZerosAt(s, q, 18) && ZerosAt(s, q + 18, 3)
  {
  }
}

/** The two readers as they are written. */
module ErrorMessageCode {
  import opened Bytes
  import opened ErrorMessages
  import opened ReadBuffers
  import opened Reads
  import opened Wrappers

  method SkipFirstNumbers(buf: ReadBuffer) returns (r: Result<(), ReadError>)
    requires buf.Valid()
    modifies buf
    ensures buf.Valid() && Reading(r, buf.pos) == HeadStart(buf.data, old(buf.pos))
  {
    hide Ub, SkipUb;
    var _ :- buf.ReadUb4();
    ghost var start := buf.pos;
    Unfold(buf.data, start, 5);
    var _ :- buf.SkipUbN();
    Unfold(buf.data, buf.pos, 4);
    var _ :- buf.SkipUbN();
    Unfold(buf.data, buf.pos, 3);
    var _ :- buf.SkipUbN();
    Unfold(buf.data, buf.pos, 2);
    var _ :- buf.SkipUbN();
    Unfold(buf.data, buf.pos, 1);
    var _ :- buf.SkipUbN();
    return Success(());
  }

  lemma Unfold(s: seq<byte>, p: nat, n: nat)
    requires p <= |s| && n > 0
    ensures var one := SkipUb(s, p); SkipUbs(s, p, n) == if one.Ok() then SkipUbs(s, one.pos, n - 1) else one
    ensures var one := SkipUb(s, p); one.Ok() ==> SkipUbs(s, one.pos, 0) == Reading(Success(()), one.pos)
  {
    hide SkipUb;
  }

  method ReadCursor(buf: ReadBuffer) returns (r: Result<u16, ReadError>)
    requires buf.Valid()
    modifies buf
    ensures buf.Valid() && Reading(r, buf.pos) == HeadCursor(buf.data, old(buf.pos))
  {
    hide Ub, Sb2;
    ghost var start := buf.pos;
    var cursor := buf.ReadUb2();
    if cursor.Failure? {
      return Failure(cursor.error);
    }
    UbBound(buf.data, start, 2);
    var _ :- buf.ReadSb2();
    return Success(cursor.value);
  }

  method SkipOne(buf: ReadBuffer, ghost start: nat, ghost done: nat, ghost n: nat) returns (r: Result<(), ReadError>)
    requires buf.Valid() && start + done == buf.pos && done < n
    modifies buf
    ensures buf.Valid() && (r.Success? ==> buf.pos == old(buf.pos) + 1)
    ensures r.Failure? ==> Reading(r, buf.pos) == SkipOnes(buf.data, start, n)
  {
    r := buf.SkipBytes(1);
  }

  method SkipFlags(buf: ReadBuffer) returns (r: Result<(), ReadError>)
    requires buf.Valid()
    modifies buf
    ensures buf.Valid() && Reading(r, buf.pos) == HeadFlags(buf.data, old(buf.pos))
  {
    hide SkipUb, SkipUbs;
    ghost var start := buf.pos;
    var _ :- SkipOne(buf, start, 0, 6);
    var _ :- SkipOne(buf, start, 1, 6);
    var _ :- SkipOne(buf, start, 2, 6);
    var _ :- SkipOne(buf, start, 3, 6);
    var _ :- SkipOne(buf, start, 4, 6);
    var _ :- SkipOne(buf, start, 5, 6);
    Unfold(buf.data, buf.pos, 2);
    var _ :- buf.SkipUbN();
    Unfold(buf.data, buf.pos, 1);
    var _ :- buf.SkipUbN();
    var _ :- SkipOne(buf, buf.pos, 0, 1);
    return Success(());
  }

  method SkipCounters(buf: ReadBuffer) returns (r: Result<(), ReadError>)
    requires buf.Valid()
    modifies buf
    ensures buf.Valid() && Reading(r, buf.pos) == HeadCounters(buf.data, old(buf.pos))
  {
    hide SkipUb, SkipUbs;
    Unfold(buf.data, buf.pos, 3);
    var _ :- buf.SkipUbN();
    Unfold(buf.data, buf.pos, 2);
    var _ :- buf.SkipUbN();
    Unfold(buf.data, buf.pos, 1);
    var _ :- buf.SkipUbN();
    ghost var start := buf.pos;
    var _ :- SkipOne(buf, start, 0, 2);
    var _ :- SkipOne(buf, start, 1, 2);
    Unfold(buf.data, buf.pos, 2);
    var _ :- buf.SkipUbN();
    Unfold(buf.data, buf.pos, 1);
    var _ :- buf.SkipUbN();
    return Success(());
  }

  /** A length of two bytes and perhaps chunks. */
  method SkipChunked2(buf: ReadBuffer) returns (r: Result<(), ReadError>)
    requires buf.Valid()
    modifies buf
    ensures buf.Valid() && Reading(r, buf.pos) == Chunked(buf.data, old(buf.pos), 2)
  {
    hide Ub, SkipRawBytesChunked;
    var n :- buf.ReadUb2();
    if n > 0 {
      r := buf.SkipRawChunked();
      return;
    }
    return Success(());
  }

  method SkipChunked4(buf: ReadBuffer) returns (r: Result<(), ReadError>)
    requires buf.Valid()
    modifies buf
    ensures buf.Valid() && Reading(r, buf.pos) == Chunked(buf.data, old(buf.pos), 4)
  {
    hide Ub, SkipRawBytesChunked;
    var n :- buf.ReadUb4();
    if n > 0 {
      r := buf.SkipRawChunked();
      return;
    }
    return Success(());
  }

  method ReadHead(buf: ReadBuffer) returns (r: Result<u16, ReadError>)
    requires buf.Valid()
    modifies buf
    ensures buf.Valid() && Reading(r, buf.pos) == Head(buf.data, old(buf.pos))
  {
    hide HeadStart, HeadCursor, HeadFlags, HeadCounters, Chunked;
    var _ :- SkipFirstNumbers(buf);
    var cursorId :- ReadCursor(buf);
    var _ :- SkipFlags(buf);
    var _ :- SkipCounters(buf);
    var _ :- SkipChunked4(buf);
    return Success(cursorId);
  }

  method ReadCodes(buf: ReadBuffer) returns (r: Result<seq<nat>, ReadError>)
    requires buf.Valid()
    modifies buf
    ensures buf.Valid() && Reading(r, buf.pos) == NumberList(buf.data, old(buf.pos), 2)
  {
    hide Ub;
    var count :- buf.ReadUb2();
    var codes: seq<nat> := [];
    if count != 0 {
      var _ :- buf.SkipBytes(1);
      ghost var first := buf.pos;
      for i := 0 to count
        invariant buf.Valid()
        invariant Numbers(buf.data, buf.pos, count - i, 2, codes) == Numbers(buf.data, first, count, 2, [])
      {
        var code :- buf.ReadUb2();
        codes := codes + [code];
      }
    }
    return Success(codes);
  }

  method ReadOffsets(buf: ReadBuffer) returns (r: Result<seq<nat>, ReadError>)
    requires buf.Valid()
    modifies buf
    ensures buf.Valid() && Reading(r, buf.pos) == NumberList(buf.data, old(buf.pos), 4)
  {
    hide Ub;
    var count :- buf.ReadUb4();
    var offsets: seq<nat> := [];
    if count != 0 {
      var _ :- buf.SkipBytes(1);
      ghost var first := buf.pos;
      for i := 0 to count
        invariant buf.Valid()
        invariant Numbers(buf.data, buf.pos, count - i, 4, offsets) == Numbers(buf.data, first, count, 4, [])
      {
        var offset :- buf.ReadUb4();
        offsets := offsets + [offset];
      }
    }
    return Success(offsets);
  }

  method ReadBatchText(t: TextRules, buf: ReadBuffer) returns (r: Result<Text, ReadError>)
    requires buf.Valid()
    modifies buf
    ensures buf.Valid() && Reading(r, buf.pos) == BatchText(t, buf.data, old(buf.pos))
  {
    hide SkipUb, TextWithLength;
    var _ :- buf.SkipUbN();
    var text :- buf.ReadStringWithLength();
    var _ :- buf.SkipBytes(2);
    return Success(t.trim(text.GetOr([])));
  }

  method ReadBatchTexts(t: TextRules, buf: ReadBuffer) returns (r: Result<seq<Text>, ReadError>)
    requires buf.Valid()
    modifies buf
    ensures buf.Valid() && Reading(r, buf.pos) == TextList(t, buf.data, old(buf.pos))
  {
    hide Ub, BatchText;
    var count :- buf.ReadUb2();
    var texts: seq<Text> := [];
    if count != 0 {
      var _ :- buf.SkipBytes(1);
      ghost var first := buf.pos;
      for i := 0 to count
        invariant buf.Valid()
        invariant BatchTexts(t, buf.data, buf.pos, count - i, texts) == BatchTexts(t, buf.data, first, count, [])
      {
        var text :- ReadBatchText(t, buf);
        texts := texts + [text];
      }
    }
    return Success(texts);
  }

  method ReadVerdict(buf: ReadBuffer, modern: bool) returns (r: Result<Verdict, ReadError>)
    requires buf.Valid()
    modifies buf
    ensures buf.Valid() && Reading(r, buf.pos) == VerdictAt(buf.data, old(buf.pos), modern)
  {
    hide Ub, SkipUb, SkipUbs, TextWithLength;
    var code :- buf.ReadUb4();
    ghost var start := buf.pos;
    var rows := buf.ReadUb8();
    if rows.Failure? {
      return Failure(rows.error);
    }
    UbBound(buf.data, start, 8);
    if modern {
      Unfold(buf.data, buf.pos, 2);
      var _ :- buf.SkipUbN();
      Unfold(buf.data, buf.pos, 1);
      var _ :- buf.SkipUbN();
    }
    var text: Option<Text> := None;
    if code != 0 {
      text :- buf.ReadStringWithLength();
    }
    return Success(Verdict(code, rows.value, text));
  }

  /** `parse_error_info_detailed`. */
  method ParseErrorInfo(t: TextRules, buf: ReadBuffer, modern: bool) returns (r: Result<ErrorInfo, ReadError>)
    requires buf.Valid()
    modifies buf
    ensures buf.Valid() && Reading(r, buf.pos) == ErrorMessage(t, buf.data, old(buf.pos), modern)
  {
    hide Head, NumberList, TextList, VerdictAt, Named, RowErrors;
    var cursorId :- ReadHead(buf);
    var codes :- ReadCodes(buf);
    var rows :- ReadOffsets(buf);
    var texts :- ReadBatchTexts(t, buf);
    var v :- ReadVerdict(buf, modern);
    var message := if v.text.Some? then Some(t.trim(v.text.value)) else None;
    var (code, found) := Named(t, buf.data, v.code, message);
    var errors := CollectErrors(Lists(codes, rows, texts), code, found);
    return Success(ErrorInfo(code, found, cursorId, v.rowCount, errors));
  }

  /** The three lists side by side, as long as the longest. */
  method CollectErrors(l: Lists, code: nat, message: Option<Text>) returns (errors: seq<BatchError>)
    ensures errors == RowErrors(l, code, message)
  {
    hide OraText;
    var length := Max(|l.codes|, Max(|l.rows|, |l.texts|));
    errors := [];
    for i := 0 to length
      invariant |errors| == i && forall j | 0 <= j < i :: errors[j] == RowError(l, j, code, message)
    {
      var own := if i < |l.codes| then l.codes[i] else code;
      var row := if i < |l.rows| then l.rows[i] else i;
      var text := if i < |l.texts| && l.texts[i] != [] then l.texts[i] else message.GetOr(OraText(own));
      errors := errors + [BatchError(row, own, text)];
    }
  }

  /** `parse_error_message_info`. */
  method ParseFetchEnd(buf: ReadBuffer, modern: bool) returns (r: Result<FetchInfo, ReadError>)
    requires buf.Valid()
    modifies buf
    ensures buf.Valid() && Reading(r, buf.pos) == FetchEnd(buf.data, old(buf.pos), modern)
  {
    hide Head, Chunked, VerdictAt;
    var cursorId :- ReadHead(buf);
    var _ :- SkipChunked2(buf);
    var _ :- SkipChunked4(buf);
    var _ :- SkipChunked2(buf);
    var v :- ReadVerdict(buf, modern);
    return Success(FetchInfo(v.code, v.text.GetOr([]), cursorId, v.code != 1403));
  }
}
