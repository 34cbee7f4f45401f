/**
 Typed reads and writes on flat byte buffers (memory.rs).

 A read that does not fit returns zero and a write that does not fit does
 nothing. Bytes are laid out least significant first; reals appear as their
 64-bit patterns.
 */
module Memory {
  type Byte = x: int | 0 <= x < 256
  type Buffer = seq<Byte>
  type Word = x: int | -0x8000_0000 <= x < 0x8000_0000
  type Big = x: int | -0x8000_0000_0000_0000 <= x < 0x8000_0000_0000_0000

  datatype Option<+T> = None | Some(value: T)

  function Zeros(n: nat): (r: Buffer)
    ensures |r| == n && forall i :: 0 <= i < n ==> r[i] == 0
  {
    seq(n, _ => 0)
  }

  /** 256 to the power n: the number of values n bytes can hold. */
  function Span(n: nat): (r: nat)
    ensures r >= 1
  {
    if n == 0 then 1 else 256 * Span(n - 1)
  }

  function Decode(bytes: Buffer): (r: nat)
    ensures r < Span(|bytes|)
  {
    if bytes == [] then 0 else bytes[0] + 256 * Decode(bytes[1..])
  }

  function Encode(n: nat, value: nat): (r: Buffer)
    ensures |r| == n
  {
    if n == 0 then [] else [value % 256] + Encode(n - 1, value / 256)
  }

  lemma {:induction false} DecodeEncode(n: nat, value: nat)
    requires value < Span(n)
    ensures Decode(Encode(n, value)) == value
  {
    if n > 0 {
      DecodeEncode(n - 1, value / 256);
      assert Encode(n, value)[1..] == Encode(n - 1, value / 256);
    }
  }

  lemma {:induction false} EncodeDecode(bytes: Buffer)
    ensures Encode(|bytes|, Decode(bytes)) == bytes
  {
    if bytes != [] {
      EncodeDecode(bytes[1..]);
      var d := Decode(bytes[1..]);
      assert (bytes[0] + 256 * d) % 256 == bytes[0] && (bytes[0] + 256 * d) / 256 == d;
    }
  }

  function ToSigned(value: nat, span: nat): int {
    if 2 * value < span then value else value - span
  }

  function ToUnsigned(value: int, span: nat): int {
    if value < 0 then value + span else value
  }

  predicate Fits(buf: Buffer, offset: nat, n: nat) {
    offset + n <= |buf|
  }

  /** Overwrite the bytes at `offset`, or nothing when they do not fit. */
  function Patch(buf: Buffer, offset: nat, bytes: Buffer): (r: Buffer)
    ensures |r| == |buf|
    ensures forall i :: 0 <= i < |buf| ==>
      r[i] == if Fits(buf, offset, |bytes|) && offset <= i < offset + |bytes| then bytes[i - offset] else buf[i]
  {
    if Fits(buf, offset, |bytes|) then buf[..offset] + bytes + buf[offset + |bytes|..] else buf
  }

  /** The n bytes at `offset`, all zero when they are not all in range. */
  function ReadBytes(buf: Buffer, offset: nat, n: nat): (r: Buffer)
    ensures |r| == n
  {
    if Fits(buf, offset, n) then buf[offset..offset + n] else Zeros(n)
  }

  lemma SpanValues()
    ensures Span(4) == 0x1_0000_0000
    ensures Span(8) == 0x1_0000_0000_0000_0000
  {
    assert Span(1) == 256 && Span(2) == 65536 && Span(3) == 0x100_0000;
    assert Span(5) == 256 * Span(4) && Span(6) == 256 * Span(5) && Span(7) == 256 * Span(6);
  }

  function ReadWord(buf: Buffer, offset: nat): Word {
    SpanValues();
    if Fits(buf, offset, 4) then ToSigned(Decode(buf[offset..offset + 4]), 0x1_0000_0000) else 0
  }

  function WordBytes(value: Word): (r: Buffer)
    ensures |r| == 4
  {
    Encode(4, ToUnsigned(value, 0x1_0000_0000))
  }

  function WriteWord(buf: Buffer, offset: nat, value: Word): Buffer {
    Patch(buf, offset, WordBytes(value))
  }

  function ReadBig(buf: Buffer, offset: nat): Big {
    SpanValues();
    if Fits(buf, offset, 8) then ToSigned(Decode(buf[offset..offset + 8]), 0x1_0000_0000_0000_0000) else 0
  }

  function BigBytes(value: Big): (r: Buffer)
    ensures |r| == 8
  {
    Encode(8, ToUnsigned(value, 0x1_0000_0000_0000_0000))
  }

  function WriteBig(buf: Buffer, offset: nat, value: Big): Buffer {
    Patch(buf, offset, BigBytes(value))
  }

  /** A word read back from the place it was written, when it fits there. */
  lemma WordRoundTrip(buf: Buffer, offset: nat, value: Word)
    ensures ReadWord(WriteWord(buf, offset, value), offset) == if Fits(buf, offset, 4) then value else 0
  {
    SpanValues();
    var u := ToUnsigned(value, 0x1_0000_0000);
    DecodeEncode(4, u);
    if Fits(buf, offset, 4) {
      assert WriteWord(buf, offset, value)[offset..offset + 4] == WordBytes(value);
    }
  }

  lemma BigRoundTrip(buf: Buffer, offset: nat, value: Big)
    ensures ReadBig(WriteBig(buf, offset, value), offset) == if Fits(buf, offset, 8) then value else 0
  {
    SpanValues();
    var u := ToUnsigned(value, 0x1_0000_0000_0000_0000);
    DecodeEncode(8, u);
    if Fits(buf, offset, 8) {
      assert WriteBig(buf, offset, value)[offset..offset + 8] == BigBytes(value);
    }
  }

  /** Writing back a word that was read changes nothing. */
  lemma WordBytesOfRead(buf: Buffer, offset: nat)
    requires Fits(buf, offset, 4)
    ensures WordBytes(ReadWord(buf, offset)) == buf[offset..offset + 4]
  {
    SpanValues();
    EncodeDecode(buf[offset..offset + 4]);
  }

  /** A word depends only on the four bytes under it. */
  lemma WordFrame(a: Buffer, b: Buffer, offset: nat)
    requires Fits(a, offset, 4) && Fits(b, offset, 4)
    requires forall i :: offset <= i < offset + 4 ==> a[i] == b[i]
    ensures ReadWord(a, offset) == ReadWord(b, offset)
  {
    assert a[offset..offset + 4] == b[offset..offset + 4];
  }
}
