/** DefaultPrimitiveBinaryOutput: the packed length and the little-endian
    integers, written byte by byte to a BinaryOutput. */
module PrimitiveOutput {
  import opened Bytes
  import opened Failures
  import opened Packing
  import opened Streams

  class DefaultPrimitiveBinaryOutput {
    const out: Output

    constructor (out: Output)
      ensures this.out == out
    {
      this.out := out;
    }

    /** write(int): passed on to the wrapped output. */
    method Write(value: int32)
      modifies out
      ensures out.bytes == old(out.bytes) + [value % 0x100]
    {
      out.Write(value);
    }

    /** write(data, offset, length): passed on to the wrapped output. */
    method WriteArray(data: array<uint8>, offset: int32, length: int32) returns (r: Outcome)
      modifies out
      ensures 0 <= offset && 0 <= length && offset + length <= data.Length ==>
                r == Pass && out.bytes == old(out.bytes) + data[offset..offset + length]
      ensures !(0 <= offset && 0 <= length && offset + length <= data.Length) ==>
                r == Fail(OutOfBounds) && out.bytes == old(out.bytes)
    {
      r := out.WriteArray(data, offset, length);
    }

    /** writeLength: a negative length is rejected before anything is written;
        otherwise `l & 0xff` is written and `l` shifted by seven, for as long
        as it is not zero and at most four times. */
    method WriteLength(length: int32) returns (r: Outcome)
      modifies out
      ensures length < 0 ==> r == Fail(IllegalArgument) && out.bytes == old(out.bytes)
      ensures length >= 0 ==> r == Pass && out.bytes == old(out.bytes) + PackedLength(length)
    {
      if length < 0 {
        return Fail(IllegalArgument);
      }
      WriteGroups(length, 4);
      r := Pass;
    }

    /** The nested tests of writeLength, one level per call: write the low
        eight bits, shift by seven, and go one level deeper while the shifted
        value is not zero and fewer than four bytes have been written. */
    method WriteGroups(l: int32, budget: nat)
      requires l >= 0 && budget >= 1
      modifies out
      ensures out.bytes == old(out.bytes) + Groups(l, budget)
      decreases budget
    {
      Write(l % 0x100);
      if budget > 1 && l / 128 != 0 {
        ghost var done := out.bytes;
        WriteGroups(l / 128, budget - 1);
        assert out.bytes == done + Groups(l / 128, budget - 1);
      }
    }

    /** writeInt16: the low byte, then the next one. */
    method WriteInt16(value: int32)
      modifies out
      ensures out.bytes == old(out.bytes) + LE16(value)
    {
      Write(value % 0x100);
      Write(value / 0x100 % 0x100);
    }

    /** writeInt32: four bytes, least significant first. */
    method WriteInt32(value: int32)
      modifies out
      ensures out.bytes == old(out.bytes) + LE32(value)
    {
      ghost var start := out.bytes;
      var b := LE32(value);
      Write(b[0]);
      Write(b[1]);
      Write(b[2]);
      Write(b[3]);
      FourWrites(start, b);
    }

    /** writeInt64: `(int) value`, then `(int) (value >>> 32)`. */
    method WriteInt64(value: int64)
      modifies out
      ensures out.bytes == old(out.bytes) + LE64(value)
    {
      WriteInt32(ToInt32(value));
      WriteInt32(ToInt32(value % 0x1_0000_0000_0000_0000 / 0x1_0000_0000));
      LE32Cast(value);
      HighHalf(value);
    }

    /** writeFloat, given the raw bits of the float. */
    method WriteFloat(bits: int32)
      modifies out
      ensures out.bytes == old(out.bytes) + LE32(bits)
    {
      WriteInt32(bits);
    }

    /** writeDouble, given the raw bits of the double. */
    method WriteDouble(bits: int64)
      modifies out
      ensures out.bytes == old(out.bytes) + LE64(bits)
    {
      WriteInt64(bits);
    }
  }

  /** Four single-byte writes append the four bytes in order. */
  lemma FourWrites(start: seq<uint8>, b: seq<uint8>)
    requires |b| == 4
    ensures start + [b[0] % 0x100] + [b[1] % 0x100] + [b[2] % 0x100] + [b[3] % 0x100] == start + b
  {
    assert b[0] % 0x100 == b[0] && b[1] % 0x100 == b[1];
    assert b[2] % 0x100 == b[2] && b[3] % 0x100 == b[3];
    assert b == [b[0], b[1], b[2], b[3]];
  }
}
