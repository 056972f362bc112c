/** The byte strings the writer produces, as functions of the value written. */
module Writes {
  import opened Bytes
  import opened Reads
  import opened Wrappers

  const CHUNK_SIZE: nat := 32767

  /** A variable-length integer: zero, one, two, four or eight digits. */
  function UbBytes(v: u64): (w: seq<byte>)
    ensures |w| >= 1
  {
    if v == 0 then [0]
    else if v < 0x100 then [1, v]
    else if v < 0x1_0000 then [2] + BeBytes(v, 2)
    else if v < 0x1_0000_0000 then [4] + BeBytes(v, 4)
    else [8] + BeBytes(v, 8)
  }

  function ChunkBytes(data: seq<byte>): (w: seq<byte>) {
    if data == [] then []
    else
      var n := Min(|data|, CHUNK_SIZE);
      UbBytes(n) + data[..n] + ChunkBytes(data[n..])
  }

  /** What follows the long-length indicator. */
  function LongBody(data: seq<byte>): (w: seq<byte>) {
    ChunkBytes(data) + UbBytes(0)
  }

  lemma LongBodyStep(d: seq<byte>, offset: nat, n: nat)
    requires offset < |d| && n == Min(|d| - offset, CHUNK_SIZE)
    ensures LongBody(d[offset..]) == UbBytes(n) + d[offset..offset + n] + LongBody(d[offset + n..])
  {
    assert d[offset..][..n] == d[offset..offset + n] && d[offset..][n..] == d[offset + n..];
  }

  function LengthPrefixed(data: Option<seq<byte>>): (w: seq<byte>) {
    match data
    case None => [NULL_INDICATOR]
    case Some(d) =>
      if |d| == 0 then [0]
      else if |d| <= MAX_SHORT then [|d|] + d
      else [LONG_INDICATOR] + LongBody(d)
  }

  function OracleUintBytes(v: u64): (w: seq<byte>) {
    if v == 0 then [0]
    else
      ByteLengthOfU64(v);
      [ByteLength(v)] + BeBytes(v, ByteLength(v))
  }

  type i64 = n: int | -0x8000_0000_0000_0000 <= n < 0x8000_0000_0000_0000

  /** `(-value) as u64` for negative values: the wrapped negation of the minimum is itself,
      and its cast is 2^63. */
  function Magnitude(v: i64): (m: u64)
    ensures m == if v < 0 then -(v as int) else v
  {
    if v < 0 then AsI64(-(v as int)) % 0x1_0000_0000_0000_0000 else v
  }

  function OracleIntBytes(v: i64): (w: seq<byte>) {
    if v == 0 then [0]
    else
      var m := Magnitude(v);
      ByteLengthOfU64(m);
      [ByteLength(m) + if v < 0 then 0x80 else 0] + BeBytes(m, ByteLength(m))
  }

  ghost predicate Fits(n: nat, max: Option<nat>) {
    max.Some? ==> n <= max.value
  }

  /** What writing `w` does to a buffer that may hold at most `max` bytes: the write succeeds
      exactly when all of `w` fits, and a failed write leaves a prefix of `w` behind. */
  ghost predicate Appends(ok: bool, before: seq<byte>, after: seq<byte>, w: seq<byte>, max: Option<nat>) {
    && (ok <==> Fits(|before| + |w|, max))
    && (ok ==> after == before + w)
    && before <= after <= before + w
    && Fits(|after|, max)
  }

  lemma AppendsThen(before: seq<byte>, mid: seq<byte>, after: seq<byte>, u: seq<byte>, v: seq<byte>,
                    ok: bool, max: Option<nat>)
    requires Appends(true, before, mid, u, max) && Appends(ok, mid, after, v, max)
    ensures Appends(ok, before, after, u + v, max)
  {
    assert before + (u + v) == before + u + v;
    assert before <= mid <= after;
  }

  lemma AppendsCut(before: seq<byte>, after: seq<byte>, u: seq<byte>, v: seq<byte>, max: Option<nat>)
    requires Appends(false, before, after, u, max)
    ensures Appends(false, before, after, u + v, max)
  {
    assert before + (u + v) == before + u + v;
  }

  lemma AppendsNothing(before: seq<byte>, max: Option<nat>)
    requires Fits(|before|, max)
    ensures Appends(true, before, before, [], max)
  {
  }

  lemma LongBodyEmpty()
    ensures LongBody([]) == UbBytes(0) && |UbBytes(0)| == 1
  {
  }

  lemma BeBytesOne(b: byte)
    ensures BeBytes(b, 1) == [b]
  {
    assert BeBytes(b / 256, 0) == [];
  }
}

module WriteBuffers {
  import opened Bytes
  import opened Reads
  import opened Wrappers
  import opened Writes

  datatype WriteError = BufferOverflow(needed: nat, available: nat)

  /** An append-only buffer with an optional limit. */
  class WriteBuffer {
    var data: seq<byte>
    const maxCapacity: Option<nat>

    ghost predicate Valid()
      reads this
    {
      Fits(|data|, maxCapacity)
    }

    constructor (maxCapacity: Option<nat>)
      ensures Valid() && data == [] && this.maxCapacity == maxCapacity
    {
      data := [];
      this.maxCapacity := maxCapacity;
    }

    method EnsureCapacity(n: nat) returns (r: Result<(), WriteError>)
      ensures r.Success? <==> Fits(|data| + n, maxCapacity)
    {
      if maxCapacity.Some? && |data| + n > maxCapacity.value {
        var available := if maxCapacity.value < |data| then 0 else maxCapacity.value - |data|;
        return Failure(BufferOverflow(n, available));
      }
      return Success(());
    }

    method WriteBytes(w: seq<byte>) returns (r: Result<(), WriteError>)
      requires Valid()
      modifies this
      ensures Valid() && Appends(r.Success?, old(data), data, w, maxCapacity)
      ensures r.Failure? ==> data == old(data)
    {
      var _ :- EnsureCapacity(|w|);
      data := data + w;
      return Success(());
    }

    method WriteU8(b: byte) returns (r: Result<(), WriteError>)
      requires Valid()
      modifies this
      ensures Valid() && Appends(r.Success?, old(data), data, [b], maxCapacity)
      ensures r.Failure? ==> data == old(data)
    {
      r := WriteBytes([b]);
    }

    method WriteBe(v: nat, n: nat) returns (r: Result<(), WriteError>)
      requires Valid()
      modifies this
      ensures Valid() && Appends(r.Success?, old(data), data, BeBytes(v, n), maxCapacity)
      ensures r.Failure? ==> data == old(data)
    {
      r := WriteBytes(BeBytes(v, n));
    }

    /** The tag byte, then the digits, each written only if the tag was. */
    method WriteTagged(tag: byte, v: nat, n: nat) returns (r: Result<(), WriteError>)
      requires Valid()
      modifies this
      ensures Valid() && Appends(r.Success?, old(data), data, [tag] + BeBytes(v, n), maxCapacity)
    {
      r := WriteU8(tag);
      if r.Failure? {
        AppendsCut(old(data), data, [tag], BeBytes(v, n), maxCapacity);
        return;
      }
      ghost var mid := data;
      r := WriteBe(v, n);
      AppendsThen(old(data), mid, data, [tag], BeBytes(v, n), r.Success?, maxCapacity);
    }

    method WriteUb2(v: u16) returns (r: Result<(), WriteError>)
      requires Valid()
      modifies this
      ensures Valid() && Appends(r.Success?, old(data), data, UbBytes(v), maxCapacity)
    {
      if v == 0 {
        r := WriteU8(0);
      } else if v <= 255 {
        BeBytesOne(v);
        r := WriteTagged(1, v, 1);
      } else {
        r := WriteTagged(2, v, 2);
      }
    }

    method WriteUb4(v: u32) returns (r: Result<(), WriteError>)
      requires Valid()
      modifies this
      ensures Valid() && Appends(r.Success?, old(data), data, UbBytes(v), maxCapacity)
    {
      if v == 0 {
        r := WriteU8(0);
      } else if v <= 255 {
        BeBytesOne(v);
        r := WriteTagged(1, v, 1);
      } else if v <= 65535 {
        r := WriteTagged(2, v, 2);
      } else {
        r := WriteTagged(4, v, 4);
      }
    }

    method WriteUb8(v: u64) returns (r: Result<(), WriteError>)
      requires Valid()
      modifies this
      ensures Valid() && Appends(r.Success?, old(data), data, UbBytes(v), maxCapacity)
    {
      if v == 0 {
        r := WriteU8(0);
      } else if v <= 255 {
        BeBytesOne(v);
        r := WriteTagged(1, v, 1);
      } else if v <= 65535 {
        r := WriteTagged(2, v, 2);
      } else if v <= 4294967295 {
        r := WriteTagged(4, v, 4);
      } else {
        r := WriteTagged(8, v, 8);
      }
    }

    method WriteBytesWithLength(bytes: Option<seq<byte>>) returns (r: Result<(), WriteError>)
      requires Valid()
      modifies this
      ensures Valid() && Appends(r.Success?, old(data), data, LengthPrefixed(bytes), maxCapacity)
    {
      if bytes.None? {
        r := WriteU8(NULL_INDICATOR);
        return;
      }
      var d := bytes.value;
      var len := |d|;
      if len == 0 {
        r := WriteU8(0);
      } else if len <= MAX_SHORT {
        r := WriteU8(len);
        if r.Failure? {
          AppendsCut(old(data), data, [len], d, maxCapacity);
          return;
        }
        ghost var mid := data;
        r := WriteBytes(d);
        AppendsThen(old(data), mid, data, [len], d, r.Success?, maxCapacity);
      } else {
        r := WriteLong(d);
      }
    }

    /** One chunk: its size, then its bytes. */
    method WriteChunk(chunk: seq<byte>) returns (r: Result<(), WriteError>)
      requires Valid() && |chunk| <= CHUNK_SIZE
      modifies this
      ensures Valid() && Appends(r.Success?, old(data), data, UbBytes(|chunk|) + chunk, maxCapacity)
    {
      r := WriteUb4(|chunk|);
      if r.Failure? {
        AppendsCut(old(data), data, UbBytes(|chunk|), chunk, maxCapacity);
        return;
      }
      ghost var mid := data;
      r := WriteBytes(chunk);
      AppendsThen(old(data), mid, data, UbBytes(|chunk|), chunk, r.Success?, maxCapacity);
    }

    /** All chunks and the terminating zero. */
    method WriteLongBody(d: seq<byte>) returns (r: Result<(), WriteError>)
      requires Valid()
      modifies this
      ensures Valid() && Appends(r.Success?, old(data), data, LongBody(d), maxCapacity)
    {
      hide Appends, LongBody, UbBytes;
      var offset := 0;
      ghost var written := [];
      AppendsNothing(data, maxCapacity);
      assert d[0..] == d && [] + LongBody(d) == LongBody(d);
      while offset < |d|
        invariant 0 <= offset <= |d| && Valid()
        invariant Appends(true, old(data), data, written, maxCapacity)
        invariant LongBody(d) == written + LongBody(d[offset..])
      {
        var n := Min(|d| - offset, CHUNK_SIZE);
        ghost var before, w, rest := data, UbBytes(n) + d[offset..offset + n], LongBody(d[offset + n..]);
        LongBodyStep(d, offset, n);
        assert written + (w + rest) == (written + w) + rest;
        r := WriteChunk(d[offset..offset + n]);
        AppendsThen(old(data), before, data, written, w, r.Success?, maxCapacity);
        if r.Failure? {
          AppendsCut(old(data), data, written + w, rest, maxCapacity);
          return;
        }
        written := written + w;
        offset := offset + n;
      }
      ghost var before := data;
      r := WriteUb4(0);
      LongBodyEmpty();
      assert d[offset..] == [];
      AppendsThen(old(data), before, data, written, UbBytes(0), r.Success?, maxCapacity);
    }

    /** The chunked form. */
    method WriteLong(d: seq<byte>) returns (r: Result<(), WriteError>)
      requires Valid()
      modifies this
      ensures Valid() && Appends(r.Success?, old(data), data, [LONG_INDICATOR] + LongBody(d), maxCapacity)
    {
      r := WriteU8(LONG_INDICATOR);
      if r.Failure? {
        AppendsCut(old(data), data, [LONG_INDICATOR], LongBody(d), maxCapacity);
        return;
      }
      ghost var mid := data;
      r := WriteLongBody(d);
      AppendsThen(old(data), mid, data, [LONG_INDICATOR], LongBody(d), r.Success?, maxCapacity);
    }

    /** The digits of `v`, most significant first, one byte at a time. */
    method WriteDigits(v: nat, len: nat) returns (r: Result<(), WriteError>)
      requires Valid()
      modifies this
      ensures Valid() && Appends(r.Success?, old(data), data, BeBytes(v, len), maxCapacity)
    {
      ghost var digits := BeBytes(v, len);
      var i := len;
      r := Success(());
      assert digits[..0] == [];
      while i > 0
        invariant 0 <= i <= len && r.Success?
        invariant Appends(true, old(data), data, digits[..len - i], maxCapacity)
      {
        ghost var done, mid := digits[..len - i], data;
        i := i - 1;
        BeBytesDigit(v, len, i);
        assert digits[..len - i] == done + [digits[len - 1 - i]];
        r := WriteU8(ShiftBytes(v, i) % 256);
        AppendsThen(old(data), mid, data, done, [digits[len - 1 - i]], r.Success?, maxCapacity);
        if r.Failure? {
          AppendsCut(old(data), data, digits[..len - i], digits[len - i..], maxCapacity);
          assert digits[..len - i] + digits[len - i..] == digits;
          return;
        }
      }
      assert digits[..len] == digits;
    }

    method WriteOracleUint(v: u64) returns (r: Result<(), WriteError>)
      requires Valid()
      modifies this
      ensures Valid() && Appends(r.Success?, old(data), data, OracleUintBytes(v), maxCapacity)
    {
      if v == 0 {
        r := WriteU8(0);
        return;
      }
      ByteLengthOfU64(v);
      r := WriteLengthAndDigits(ByteLength(v), v, ByteLength(v));
    }

    method WriteLengthAndDigits(tag: byte, v: nat, len: nat) returns (r: Result<(), WriteError>)
      requires Valid()
      modifies this
      ensures Valid() && Appends(r.Success?, old(data), data, [tag] + BeBytes(v, len), maxCapacity)
    {
      r := WriteU8(tag);
      if r.Failure? {
        AppendsCut(old(data), data, [tag], BeBytes(v, len), maxCapacity);
        return;
      }
      ghost var mid := data;
      r := WriteDigits(v, len);
      AppendsThen(old(data), mid, data, [tag], BeBytes(v, len), r.Success?, maxCapacity);
    }

    method WriteOracleInt(v: i64) returns (r: Result<(), WriteError>)
      requires Valid()
      modifies this
      ensures Valid() && Appends(r.Success?, old(data), data, OracleIntBytes(v), maxCapacity)
    {
      if v == 0 {
        r := WriteU8(0);
        return;
      }
      var negative := v < 0;
      var magnitude := if negative then AsI64(-(v as int)) % 0x1_0000_0000_0000_0000 else v;
      ByteLengthOfU64(magnitude);
      var len := ByteLength(magnitude);
      r := WriteLengthAndDigits(if negative then len + 0x80 else len, magnitude, len);
    }
  }
}
