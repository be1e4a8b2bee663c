/** The byte source and the byte sink the codec is built on: BinaryInput over
    a finite sequence of bytes that fails when it runs out, and BinaryOutput as
    a growing sequence of bytes. */
module Streams {
  import opened Bytes
  import opened Failures

  /** A BinaryInput: the bytes not consumed yet. */
  class Input {
    var rest: seq<uint8>

    constructor (data: seq<uint8>)
      ensures rest == data
    {
      rest := data;
    }

    /** read(): the next byte, 0..255, or an I/O failure at the end of the data. */
    method Read() returns (r: Result<uint8>)
      modifies this
      ensures old(rest) == [] ==> r == Err(EndOfInput) && rest == old(rest)
      ensures old(rest) != [] ==> r == Ok(old(rest)[0]) && rest == old(rest)[1..]
    {
      if rest == [] {
        return Err(EndOfInput);
      }
      r := Ok(rest[0]);
      rest := rest[1..];
    }

    /** read(buffer, length): exactly `length` bytes into the front of the
        buffer. A count outside the buffer is rejected before anything is
        read; a short source is an I/O failure ("Partial read"). */
    method ReadInto(buffer: array<uint8>, length: int) returns (r: Outcome)
      modifies this, buffer
      ensures length < 0 || length > buffer.Length ==>
                r == Fail(OutOfBounds) && rest == old(rest) && buffer[..] == old(buffer[..])
      ensures 0 <= length <= buffer.Length && |old(rest)| < length ==> r == Fail(EndOfInput)
      ensures 0 <= length <= buffer.Length && length <= |old(rest)| ==>
                r == Pass && rest == old(rest)[length..]
                && buffer[..length] == old(rest)[..length]
                && buffer[length..] == old(buffer[length..])
    {
      if length < 0 || length > buffer.Length {
        return Fail(OutOfBounds);
      }
      if |rest| < length {
        return Fail(EndOfInput);
      }
      var i := 0;
      while i < length
        invariant 0 <= i <= length <= |rest|
        invariant rest == old(rest)
        invariant buffer[..i] == rest[..i]
        invariant buffer[length..] == old(buffer[length..])
      {
        buffer[i] := rest[i];
        i := i + 1;
      }
      rest := rest[length..];
      r := Pass;
    }

    /** The bytes a user-type reader callback consumes on its own. */
    method Skip(n: nat)
      requires n <= |rest|
      modifies this
      ensures rest == old(rest)[n..]
    {
      rest := rest[n..];
    }
  }

  /** A BinaryOutput: everything written so far. NoOpBinaryOutput is an Output
      that nobody reads afterwards. */
  class Output {
    var bytes: seq<uint8>

    constructor ()
      ensures bytes == []
    {
      bytes := [];
    }

    /** write(int): keeps the lower eight bits of the value. */
    method Write(value: int)
      modifies this
      ensures bytes == old(bytes) + [value % 0x100]
    {
      bytes := bytes + [value % 0x100];
    }

    /** write(data, offset, length): the slice, unchanged. A slice outside
        the array is rejected before anything is written. */
    method WriteArray(data: array<uint8>, offset: int, length: int) returns (r: Outcome)
      modifies this
      ensures 0 <= offset && 0 <= length && offset + length <= data.Length ==>
                r == Pass && bytes == old(bytes) + data[offset..offset + length]
      ensures !(0 <= offset && 0 <= length && offset + length <= data.Length) ==>
                r == Fail(OutOfBounds) && bytes == old(bytes)
    {
      if offset < 0 || length < 0 || offset + length > data.Length {
        return Fail(OutOfBounds);
      }
      bytes := bytes + data[offset..offset + length];
      r := Pass;
    }

    /** The bytes a user-type writer callback emits on its own. */
    method WriteAll(s: seq<uint8>)
      modifies this
      ensures bytes == old(bytes) + s
    {
      bytes := bytes + s;
    }
  }
}
