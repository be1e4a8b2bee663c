/** DefaultPrimitiveBinaryInput: the packed length and the little-endian
    integers, read byte by byte from a BinaryInput. */
module PrimitiveInput {
  import opened Bytes
  import opened Failures
  import opened Packing
  import opened Decoding
  import opened Streams

  class DefaultPrimitiveBinaryInput {
    const input: Input

    constructor (input: Input)
      ensures this.input == input
    {
      this.input := input;
    }

    /** read(): passed on to the wrapped input. */
    method Read() returns (r: Result<uint8>)
      modifies input
      ensures old(input.rest) == [] ==> r == Err(EndOfInput) && input.rest == old(input.rest)
      ensures old(input.rest) != [] ==> r == Ok(old(input.rest)[0]) && input.rest == old(input.rest)[1..]
    {
      r := input.Read();
    }

    /** read(buffer, length): passed on to the wrapped input. */
    method ReadInto(buffer: array<uint8>, length: int32) returns (r: Outcome)
      modifies input, buffer
      ensures length < 0 || length > buffer.Length ==>
                r == Fail(OutOfBounds) && input.rest == old(input.rest) && buffer[..] == old(buffer[..])
      ensures 0 <= length <= buffer.Length && |old(input.rest)| < length ==> r == Fail(EndOfInput)
      ensures 0 <= length <= buffer.Length && length <= |old(input.rest)| ==>
                r == Pass && input.rest == old(input.rest)[length..]
                && buffer[..length] == old(input.rest)[..length]
                && buffer[length..] == old(buffer[length..])
    {
      r := input.ReadInto(buffer, length);
    }

    /** readLength: the first byte, then while the byte just read has its high
        bit set and fewer than four were read, one more byte shifted by seven. */
    method ReadLength() returns (r: Result<int32>)
      modifies input
      ensures Agrees<int, uint8>(r, AdditiveLength(old(input.rest)), old(input.rest), input.rest)
    {
      AdditiveLengthCases(input.rest);
      var result: int := 0;
      var b :- Read();
      result := result + b;
      if b >= 0x80 {
        b :- Read();
        result := result + b as int * 128;
        if b >= 0x80 {
          b :- Read();
          result := result + b as int * 128;
          if b >= 0x80 {
            b :- Read();
            result := result + b as int * 128;
          }
        }
      }
      return Ok(result);
    }

    /** readInt16: `(short) (read() + (read() << 8))`. */
    method ReadInt16() returns (r: Result<int16>)
      modifies input
      ensures Agrees<int, uint8>(r, RawInt16(old(input.rest)), old(input.rest), input.rest)
    {
      var b0 :- Read();
      var b1 :- Read();
      return Ok(ToInt16(b0 as int + b1 as int * 0x100));
    }

    /** readInt32: four bytes added with shifts in int arithmetic, which wraps. */
    method ReadInt32() returns (r: Result<int32>)
      modifies input
      ensures Agrees<int, uint8>(r, RawInt32(old(input.rest)), old(input.rest), input.rest)
    {
      var b0 :- Read();
      var b1 :- Read();
      var b2 :- Read();
      var b3 :- Read();
      return Ok(ToInt32(b0 as int + b1 as int * 0x100 + b2 as int * 0x1_0000 + b3 as int * 0x100_0000));
    }

    /** readInt64: eight bytes widened to long and added with shifts. */
    method ReadInt64() returns (r: Result<int64>)
      modifies input
      ensures Agrees<int, uint8>(r, RawInt64(old(input.rest)), old(input.rest), input.rest)
    {
      var b0 :- Read();
      var b1 :- Read();
      var b2 :- Read();
      var b3 :- Read();
      var b4 :- Read();
      var b5 :- Read();
      var b6 :- Read();
      var b7 :- Read();
      var low := b0 as int + b1 as int * 0x100 + b2 as int * 0x1_0000 + b3 as int * 0x100_0000;
      var high := b4 as int + b5 as int * 0x100 + b6 as int * 0x1_0000 + b7 as int * 0x100_0000;
      return Ok(ToInt64(low + high * 0x1_0000_0000));
    }

    /** readFloat: the raw bits of the float. */
    method ReadFloat() returns (r: Result<int32>)
      modifies input
      ensures Agrees<int, uint8>(r, RawInt32(old(input.rest)), old(input.rest), input.rest)
    {
      r := ReadInt32();
    }

    /** readDouble: the raw bits of the double. */
    method ReadDouble() returns (r: Result<int64>)
      modifies input
      ensures Agrees<int, uint8>(r, RawInt64(old(input.rest)), old(input.rest), input.rest)
    {
      r := ReadInt64();
    }
  }
}
