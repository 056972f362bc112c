/** What each read of the wire format yields, as a function of the bytes and the position.

    A `Reading` pairs the outcome with the position the cursor is left at, also when the
    read fails half way through. */
module Reads {
  import opened Bytes
  import opened Wrappers

  const MAX_SHORT: byte := 252
  const ESCAPE_CHAR: byte := 253
  const LONG_INDICATOR: byte := 254
  const NULL_INDICATOR: byte := 255

  datatype ReadError =
    | BufferUnderflow(needed: nat, available: nat)
    | InvalidLengthIndicator(len: byte)
    | IntegerTooLarge(len: byte)
    | InvalidText
    | BadLayout

  datatype Reading<+T> = Reading(result: Result<T, ReadError>, pos: nat) {
    predicate Ok() {
      result.Success?
    }

    function Value(): T
      requires Ok()
    {
      result.value
    }

    function Fail<U>(): Reading<U>
      requires !Ok()
    {
      Reading(Failure(result.error), pos)
    }
  }

  function Take(s: seq<byte>, p: nat, n: nat): (r: Reading<seq<byte>>)
    requires p <= |s|
    ensures p <= r.pos <= |s|
    ensures r.Ok() <==> n <= |s| - p
    ensures r.Ok() ==> r.Value() == s[p..p + n] && r.pos == p + n
  {
    if |s| - p < n then Reading(Failure(BufferUnderflow(n, |s| - p)), p)
    else Reading(Success(s[p..p + n]), p + n)
  }

  function U8(s: seq<byte>, p: nat): (r: Reading<byte>)
    requires p <= |s|
    ensures p <= r.pos <= |s|
    ensures r.Ok() <==> p < |s|
    ensures r.Ok() ==> r.pos == p + 1 && r.Value() == s[p]
  {
    if |s| - p < 1 then Reading(Failure(BufferUnderflow(1, 0)), p)
    else Reading(Success(s[p]), p + 1)
  }

  function Skip(s: seq<byte>, p: nat, n: nat): (r: Reading<()>)
    requires p <= |s|
    ensures p <= r.pos <= |s|
  {
    if |s| - p < n then Reading(Failure(BufferUnderflow(n, |s| - p)), p)
    else Reading(Success(()), p + n)
  }

  /** The length byte of a variable-length integer; its top bit is a sign and is masked off. */
  function UbLength(s: seq<byte>, p: nat): (r: Reading<byte>)
    requires p <= |s|
    ensures p <= r.pos <= |s|
    ensures r.Ok() ==> r.pos == p + 1 && r.Value() < 0x80
  {
    var r := U8(s, p);
    if r.Ok() then Reading(Success(r.Value() % 0x80), r.pos) else r.Fail()
  }

  /** A big-endian integer of exactly `n` bytes. */
  function Be(s: seq<byte>, p: nat, n: nat): (r: Reading<nat>)
    requires p <= |s|
    ensures p <= r.pos <= |s|
  {
    if |s| - p < n then Reading(Failure(BufferUnderflow(n, |s| - p)), p)
    else Reading(Success(BeAt(s, p, n)), p + n)
  }

  /** A variable-length integer of at most `max` bytes. */
  function Ub(s: seq<byte>, p: nat, max: byte): (r: Reading<nat>)
    requires p <= |s|
    ensures p <= r.pos <= |s|
    ensures r.Ok() ==> p < r.pos <= p + 1 + max as nat
  {
    var len := UbLength(s, p);
    if !len.Ok() then len.Fail()
    else if len.Value() == 0 then Reading(Success(0), len.pos)
    else if len.Value() > max then Reading(Failure(InvalidLengthIndicator(len.Value())), len.pos)
    else Be(s, len.pos, len.Value())
  }

  /** Skipping a variable-length integer trusts the length byte whatever it is. */
  function SkipUb(s: seq<byte>, p: nat): (r: Reading<()>)
    requires p <= |s|
    ensures p <= r.pos <= |s|
    ensures r.Ok() ==> p < r.pos
  {
    var len := UbLength(s, p);
    if !len.Ok() then len.Fail()
    else if len.Value() > 0 then Skip(s, len.pos, len.Value())
    else Reading(Success(()), len.pos)
  }

  /** The chunks after a long-length indicator, appended to `acc`, up to the empty chunk. */
  function Chunks(s: seq<byte>, p: nat, acc: seq<byte>): (r: Reading<seq<byte>>)
    requires p <= |s|
    ensures p <= r.pos <= |s|
    ensures r.Ok() ==> p < r.pos
    decreases |s| - p
  {
    var size := Ub(s, p, 4);
    if !size.Ok() then size.Fail()
    else if size.Value() == 0 then Reading(Success(acc), size.pos)
    else
      var chunk := Take(s, size.pos, size.Value());
      if !chunk.Ok() then chunk.Fail()
      else Chunks(s, chunk.pos, acc + chunk.Value())
  }

  function SkipChunks(s: seq<byte>, p: nat): (r: Reading<()>)
    requires p <= |s|
    ensures p <= r.pos <= |s|
    decreases |s| - p
  {
    var size := Ub(s, p, 4);
    if !size.Ok() then size.Fail()
    else if size.Value() == 0 then Reading(Success(()), size.pos)
    else
      var chunk := Skip(s, size.pos, size.Value());
      if !chunk.Ok() then chunk
      else SkipChunks(s, chunk.pos)
  }

  function RawBytesChunked(s: seq<byte>, p: nat): (r: Reading<seq<byte>>)
    requires p <= |s|
    ensures p <= r.pos <= |s|
    ensures r.Ok() ==> p < r.pos
  {
    var len := U8(s, p);
    if !len.Ok() then len.Fail()
    else if len.Value() != LONG_INDICATOR then Take(s, len.pos, len.Value())
    else Chunks(s, len.pos, [])
  }

  function SkipRawBytesChunked(s: seq<byte>, p: nat): (r: Reading<()>)
    requires p <= |s|
    ensures p <= r.pos <= |s|
  {
    var len := U8(s, p);
    if !len.Ok() then len.Fail()
    else if len.Value() != LONG_INDICATOR then Skip(s, len.pos, len.Value())
    else SkipChunks(s, len.pos)
  }

  function Some'(r: Reading<seq<byte>>): Reading<Option<seq<byte>>> {
    if r.Ok() then Reading(Success(Some(r.Value())), r.pos) else r.Fail()
  }

  function BytesWithLength(s: seq<byte>, p: nat): (r: Reading<Option<seq<byte>>>)
    requires p <= |s|
    ensures p <= r.pos <= |s|
    ensures r.Ok() ==> p < r.pos
  {
    var len := U8(s, p);
    if !len.Ok() then len.Fail()
    else if len.Value() == NULL_INDICATOR then Reading(Success(None), len.pos)
    else if len.Value() == LONG_INDICATOR then Some'(Chunks(s, len.pos, []))
    else
      var actual := if len.Value() == ESCAPE_CHAR then U8(s, len.pos) else len;
      if !actual.Ok() then actual.Fail() else Some'(Take(s, actual.pos, actual.Value()))
  }

  /** Well-formed UTF-8: no overlong forms, no surrogates, nothing above U+10FFFF. */
  predicate Utf8(b: seq<byte>) {
    if b == [] then true
    else if b[0] < 0x80 then Utf8(b[1..])
    else if |b| < 2 || !(0x80 <= b[1] < 0xC0) then false
    else if 0xC2 <= b[0] < 0xE0 then Utf8(b[2..])
    else if |b| < 3 || !(0x80 <= b[2] < 0xC0) then false
    else if 0xE0 <= b[0] < 0xF0 then
      (b[0] == 0xE0 ==> b[1] >= 0xA0) && (b[0] == 0xED ==> b[1] < 0xA0) && Utf8(b[3..])
    else if |b| < 4 || !(0x80 <= b[3] < 0xC0) then false
    else 0xF0 <= b[0] < 0xF5 && (b[0] == 0xF0 ==> b[1] >= 0x90) && (b[0] == 0xF4 ==> b[1] < 0x90) && Utf8(b[4..])
  }

  /** A length-prefixed text, as its UTF-8 bytes. */
  function TextWithLength(s: seq<byte>, p: nat): (r: Reading<Option<seq<byte>>>)
    requires p <= |s|
    ensures p <= r.pos <= |s|
    ensures r.Ok() ==> p < r.pos
  {
    var t := BytesWithLength(s, p);
    if t.Ok() && t.Value().Some? && !Utf8(t.Value().value) then Reading(Failure(InvalidText), t.pos) else t
  }

  /** A signed integer of at most two bytes. */
  function Sb2(s: seq<byte>, p: nat): (r: Reading<int>)
    requires p <= |s|
    ensures p <= r.pos <= |s|
  {
    var n := Ub(s, p, 2);
    if !n.Ok() then n.Fail()
    else
      var half := if n.pos - p == 2 then 0x80 else 0x8000;
      Reading(Success(if n.Value() < half then n.Value() else n.Value() - 2 * half), n.pos)
  }

  /** `n` digits read one by one: a short buffer is used up before the read fails. */
  function Digits(s: seq<byte>, p: nat, n: nat): (r: Reading<nat>)
    requires p <= |s|
    ensures p <= r.pos <= |s|
  {
    if |s| - p < n then Reading(Failure(BufferUnderflow(1, 0)), |s|)
    else Reading(Success(BeAt(s, p, n)), p + n)
  }

  function OracleUint(s: seq<byte>, p: nat): (r: Reading<nat>)
    requires p <= |s|
    ensures p <= r.pos <= |s|
  {
    var len := U8(s, p);
    if !len.Ok() then len.Fail()
    else if len.Value() > 8 then Reading(Failure(IntegerTooLarge(len.Value())), len.pos)
    else Digits(s, len.pos, len.Value())
  }

  /** `n as i64`, and two's complement wrap-around generally. */
  function AsI64(n: int): (r: int)
    ensures -0x8000_0000_0000_0000 <= r < 0x8000_0000_0000_0000
    ensures -0x8000_0000_0000_0000 <= n < 0x8000_0000_0000_0000 ==> r == n
  {
    var low := n % 0x1_0000_0000_0000_0000;
    if low < 0x8000_0000_0000_0000 then low else low - 0x1_0000_0000_0000_0000
  }

  function OracleInt(s: seq<byte>, p: nat): (r: Reading<int>)
    requires p <= |s|
    ensures p <= r.pos <= |s|
  {
    var len := U8(s, p);
    if !len.Ok() then len.Fail()
    else
      var n := len.Value() % 0x80;
      if n > 8 then Reading(Failure(IntegerTooLarge(n)), len.pos)
      else
        var digits := Digits(s, len.pos, n);
        if !digits.Ok() then digits.Fail()
        else
          var signed := AsI64(digits.Value());
          Reading(Success(if len.Value() >= 0x80 then AsI64(-signed) else signed), digits.pos)
  }
}

/** The cursor over received bytes. Every method is proved equal to the function of the same
    meaning in `Reads`, position included. */
module ReadBuffers {
  import opened Bytes
  import opened Reads
  import opened Wrappers

  class ReadBuffer {
    const data: seq<byte>
    var pos: nat

    ghost predicate Valid()
      reads this
    {
      pos <= |data|
    }

    constructor (data: seq<byte>)
      ensures Valid() && this.data == data && pos == 0
    {
      this.data := data;
      pos := 0;
    }

    function Remaining(): (n: nat)
      requires Valid()
      reads this
      ensures pos + n == |data|
    {
      |data| - pos
    }

    function RemainingBytes(): (bs: seq<byte>)
      requires Valid()
      reads this
      ensures |bs| == Remaining() && data[..pos] + bs == data
    {
      data[pos..]
    }

    method SetPosition(p: nat) returns (r: Result<(), ReadError>)
      requires Valid()
      modifies this
      ensures Valid()
      ensures p <= |data| ==> r == Success(()) && pos == p
      ensures p > |data| ==> r == Failure(BufferUnderflow(p, |data|)) && pos == old(pos)
    {
      if p > |data| {
        return Failure(BufferUnderflow(p, |data|));
      }
      pos := p;
      return Success(());
    }

    method EnsureRemaining(n: nat) returns (r: Result<(), ReadError>)
      requires Valid()
      ensures r == if Remaining() < n then Failure(BufferUnderflow(n, Remaining())) else Success(())
    {
      if Remaining() < n {
        return Failure(BufferUnderflow(n, Remaining()));
      }
      return Success(());
    }

    method ReadU8() returns (r: Result<byte, ReadError>)
      requires Valid()
      modifies this
      ensures Valid() && Reading(r, pos) == U8(data, old(pos))
    {
      var _ :- EnsureRemaining(1);
      var value := data[pos];
      pos := pos + 1;
      return Success(value);
    }

    method SkipBytes(n: nat) returns (r: Result<(), ReadError>)
      requires Valid()
      modifies this
      ensures Valid() && Reading(r, pos) == Skip(data, old(pos), n)
    {
      var _ :- EnsureRemaining(n);
      pos := pos + n;
      return Success(());
    }

    method ReadBytesVec(n: nat) returns (r: Result<seq<byte>, ReadError>)
      requires Valid()
      modifies this
      ensures Valid() && Reading(r, pos) == Take(data, old(pos), n)
    {
      var _ :- EnsureRemaining(n);
      var bytes := data[pos..pos + n];
      pos := pos + n;
      return Success(bytes);
    }

    method ReadUbLength() returns (r: Result<byte, ReadError>)
      requires Valid()
      modifies this
      ensures Valid() && Reading(r, pos) == UbLength(data, old(pos))
    {
      var len :- ReadU8();
      return Success(len % 0x80);
    }

    /** Big-endian integer of exactly `n` bytes. */
    method ReadBe(n: nat) returns (r: Result<nat, ReadError>)
      requires Valid()
      modifies this
      ensures Valid() && Reading(r, pos) == Be(data, old(pos), n)
    {
      var _ :- EnsureRemaining(n);
      var value := BeAt(data, pos, n);
      pos := pos + n;
      return Success(value);
    }

    method ReadUb2() returns (r: Result<nat, ReadError>)
      requires Valid()
      modifies this
      ensures Valid() && Reading(r, pos) == Ub(data, old(pos), 2)
    {
      var len :- ReadUbLength();
      match len {
        case 0 => return Success(0);
        case 1 =>
          var b :- ReadU8();
          BeAtOne(data, pos - 1);
          return Success(b);
        case 2 =>
          r := ReadBe(2);
        case _ => return Failure(InvalidLengthIndicator(len));
      }
    }

    method ReadUb4() returns (r: Result<nat, ReadError>)
      requires Valid()
      modifies this
      ensures Valid() && Reading(r, pos) == Ub(data, old(pos), 4)
    {
      var len :- ReadUbLength();
      match len {
        case 0 => return Success(0);
        case 1 =>
          var b :- ReadU8();
          BeAtOne(data, pos - 1);
          return Success(b);
        case 2 =>
          r := ReadBe(2);
        case 3 =>
          var bytes :- ReadBytesVec(3);
          BeAtThree(data, pos - 3);
          return Success(bytes[0] as int * 0x1_0000 + bytes[1] as int * 0x100 + bytes[2] as int);
        case 4 =>
          r := ReadBe(4);
        case _ => return Failure(InvalidLengthIndicator(len));
      }
    }

    method ReadUb8() returns (r: Result<nat, ReadError>)
      requires Valid()
      modifies this
      ensures Valid() && Reading(r, pos) == Ub(data, old(pos), 8)
    {
      var len :- ReadUbLength();
      if len == 0 {
        return Success(0);
      } else if len == 1 {
        var b :- ReadU8();
        BeAtOne(data, pos - 1);
        return Success(b);
      } else if len == 3 {
        var bytes :- ReadBytesVec(3);
        BeAtThree(data, pos - 3);
        return Success(bytes[0] as int * 0x1_0000 + bytes[1] as int * 0x100 + bytes[2] as int);
      } else if len == 2 || len == 4 || len == 8 {
        r := ReadBe(len);
      } else if 5 <= len <= 7 {
        var bytes :- ReadBytesVec(len);
        var value := 0;
        for i := 0 to |bytes|
          invariant value == BeAt(data, pos - len, i)
        {
          value := 256 * value + bytes[i] as int;
        }
        return Success(value);
      } else {
        return Failure(InvalidLengthIndicator(len));
      }
    }

    method SkipUbN() returns (r: Result<(), ReadError>)
      requires Valid()
      modifies this
      ensures Valid() && Reading(r, pos) == SkipUb(data, old(pos))
    {
      var len :- ReadUbLength();
      if len > 0 {
        var _ :- SkipBytes(len);
      }
      return Success(());
    }

    method ReadRawBytesChunked() returns (r: Result<seq<byte>, ReadError>)
      requires Valid()
      modifies this
      ensures Valid() && Reading(r, pos) == RawBytesChunked(data, old(pos))
    {
      var length :- ReadU8();
      if length != LONG_INDICATOR {
        r := ReadBytesVec(length);
      } else {
        var result: seq<byte> := [];
        ghost var first := pos;
        while true
          invariant Valid() && first <= pos
          invariant Chunks(data, pos, result) == Chunks(data, first, [])
          decreases |data| - pos
        {
          var size :- ReadUb4();
          if size == 0 {
            break;
          }
          var chunk :- ReadBytesVec(size);
          result := result + chunk;
        }
        return Success(result);
      }
    }

    method SkipRawChunked() returns (r: Result<(), ReadError>)
      requires Valid()
      modifies this
      ensures Valid() && Reading(r, pos) == SkipRawBytesChunked(data, old(pos))
    {
      var length :- ReadU8();
      if length != LONG_INDICATOR {
        var _ :- SkipBytes(length);
      } else {
        ghost var first := pos;
        while true
          invariant Valid() && first <= pos
          invariant SkipChunks(data, pos) == SkipChunks(data, first)
          decreases |data| - pos
        {
          var size :- ReadUb4();
          if size == 0 {
            break;
          }
          var _ :- SkipBytes(size);
        }
      }
      return Success(());
    }

    method ReadBytesWithLength() returns (r: Result<Option<seq<byte>>, ReadError>)
      requires Valid()
      modifies this
      ensures Valid() && Reading(r, pos) == BytesWithLength(data, old(pos))
    {
      var len :- ReadU8();
      if len == NULL_INDICATOR {
        return Success(None);
      }
      if len == LONG_INDICATOR {
        var result: seq<byte> := [];
        ghost var first := pos;
        while true
          invariant Valid() && first <= pos
          invariant Chunks(data, pos, result) == Chunks(data, first, [])
          decreases |data| - pos
        {
          var size :- ReadUb4();
          if size == 0 {
            break;
          }
          var chunk :- ReadBytesVec(size);
          result := result + chunk;
        }
        return Success(Some(result));
      }
      var actual := len;
      if len == ESCAPE_CHAR {
        actual :- ReadU8();
      }
      if actual == 0 {
        return Success(Some([]));
      }
      var bytes :- ReadBytesVec(actual);
      return Success(Some(bytes));
    }

    method ReadStringWithLength() returns (r: Result<Option<seq<byte>>, ReadError>)
      requires Valid()
      modifies this
      ensures Valid() && Reading(r, pos) == TextWithLength(data, old(pos))
    {
      hide Utf8, BytesWithLength;
      var bytes :- ReadBytesWithLength();
      if bytes.Some? && !Utf8(bytes.value) {
        return Failure(InvalidText);
      }
      return Success(bytes);
    }

    method ReadSb2() returns (r: Result<int, ReadError>)
      requires Valid()
      modifies this
      ensures Valid() && Reading(r, pos) == Sb2(data, old(pos))
    {
      var len :- ReadUbLength();
      match len {
        case 0 => return Success(0);
        case 1 =>
          var b :- ReadU8();
          BeAtOne(data, pos - 1);
          return Success(if b < 0x80 then b else b as int - 0x100);
        case 2 =>
          var n :- ReadBe(2);
          var value: int := if n < 0x8000 then n else n as int - 0x1_0000;
          return Success(value);
        case _ => return Failure(InvalidLengthIndicator(len));
      }
    }

    method ReadDigits(n: nat) returns (r: Result<nat, ReadError>)
      requires Valid()
      modifies this
      ensures Valid() && Reading(r, pos) == Digits(data, old(pos), n)
    {
      var value := 0;
      for i := 0 to n
        invariant Valid()
        invariant Digits(data, old(pos), i) == Reading(Success(value), pos)
      {
        var next :- ReadU8();
        value := 256 * value + next as int;
      }
      return Success(value);
    }

    method ReadOracleUint() returns (r: Result<nat, ReadError>)
      requires Valid()
      modifies this
      ensures Valid() && Reading(r, pos) == OracleUint(data, old(pos))
    {
      var len :- ReadU8();
      if len == 0 {
        return Success(0);
      }
      if len > 8 {
        return Failure(IntegerTooLarge(len));
      }
      r := ReadDigits(len);
    }

    method ReadOracleInt() returns (r: Result<int, ReadError>)
      requires Valid()
      modifies this
      ensures Valid() && Reading(r, pos) == OracleInt(data, old(pos))
    {
      var lenByte :- ReadU8();
      var negative := lenByte >= 0x80;
      var len := lenByte % 0x80;
      if len == 0 {
        return Success(0);
      }
      if len > 8 {
        return Failure(IntegerTooLarge(len));
      }
      var value :- ReadDigits(len);
      return Success(if negative then AsI64(-AsI64(value)) else AsI64(value));
    }
  }

  lemma BeAtOne(s: seq<byte>, p: nat)
    requires p < |s|
    ensures BeAt(s, p, 1) == s[p]
  {
    assert BeAt(s, p, 0) == 0;
  }

  lemma BeAtThree(s: seq<byte>, p: nat)
    requires p + 3 <= |s|
    ensures BeAt(s, p, 3) == s[p] as int * 0x1_0000 + s[p + 1] as int * 0x100 + s[p + 2] as int
  {
    assert BeAt(s, p, 2) == 256 * BeAt(s, p, 1) + s[p + 1];
    BeAtOne(s, p);
  }
}
