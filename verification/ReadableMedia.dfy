/** SimpleReadableMedia: the tagged reader of the current format. Every
    method consumes the bytes of one entry from the BinaryInput; what it
    returns, how many bytes it consumes and which exception it throws are
    the Decoding function of the bytes in front of the cursor. */
module ReadableMedia {
  import opened Bytes
  import opened Failures
  import opened Types
  import opened Packing
  import opened Encoding
  import opened Decoding
  import opened Streams
  import opened PrimitiveInput
  import opened Scanning
  import opened ArrayFactory

  /** The elements of an array that was returned, or the exception. */
  function Items<X>(r: Result<array<X>>): Result<seq<X>>
    reads if r.Ok? then {r.value} else {}
  {
    match r
    case Err(e) => Err(e)
    case Ok(a) => Ok(a[..])
  }

  /** The reader over an input and a user-type reader `fields`. The private
      read/readInt16/readInt32/readInt64 helpers of the class are the code of
      DefaultPrimitiveBinaryInput, so the media reads through one of those
      around the same input; readLength is its own. */
  class SimpleReadableMedia<T> {
    const input: Input
    const primitives: DefaultPrimitiveBinaryInput
    const fields: seq<uint8> -> Result<Decoded<T>>

    ghost predicate Valid()
    {
      primitives.input == input
    }

    constructor (input: Input, fields: seq<uint8> -> Result<Decoded<T>>)
      ensures Valid() && this.input == input && this.fields == fields
    {
      this.input := input;
      this.fields := fields;
      primitives := new DefaultPrimitiveBinaryInput(input);
    }

    method Read() returns (r: Result<uint8>)
      requires Valid()
      modifies input
      ensures old(input.rest) == [] ==> r == Err(EndOfInput) && input.rest == old(input.rest)
      ensures old(input.rest) != [] ==> r == Ok(old(input.rest)[0]) && input.rest == old(input.rest)[1..]
    {
      r := primitives.Read();
    }

    method ReadInto(buffer: array<uint8>, length: int32) returns (r: Outcome)
      requires Valid()
      modifies input, buffer
      ensures length < 0 || length > buffer.Length ==>
                r == Fail(OutOfBounds) && input.rest == old(input.rest) && buffer[..] == old(buffer[..])
      ensures 0 <= length <= buffer.Length && |old(input.rest)| < length ==> r == Fail(EndOfInput)
      ensures 0 <= length <= buffer.Length && length <= |old(input.rest)| ==>
                r == Pass && input.rest == old(input.rest)[length..]
                && buffer[..length] == old(input.rest)[..length]
    {
      r := primitives.ReadInto(buffer, length);
    }

    /** readLength(output): the for-loop adds `b << shift` and echoes b for
        up to four bytes, stopping after a byte with a clear high bit; its
        update step reads the next byte even when the loop then ends. */
    method ReadLengthTo(output: Output) returns (r: Result<int32>)
      requires Valid()
      modifies input, output
      ensures Agrees<int, uint8>(r, ShiftedLength(old(input.rest)), old(input.rest), input.rest)
      ensures r.Ok? ==> output.bytes == old(output.bytes) + old(input.rest)[..ShiftedUsed(old(input.rest))]
    {
      ghost var s := input.rest;
      var result: int := 0;
      var i := 0;
      var shift := 0;
      var read := Read();
      if read.Err? {
        LengthRunsOut(s);
        return Err(read.error);
      }
      var b := read.value;
      while i < 4
        invariant 0 <= i <= 4 && shift == 7 * i
        invariant i < |s| && b == s[i] && input.rest == s[i + 1..]
        invariant AllHigh(s, i)
        invariant result == Weighted(s[..i])
        invariant output.bytes == old(output.bytes) + s[..i]
      {
        WeightedStep(s, i);
        result := result + b * Pow2(shift);
        output.Write(b);
        if b < 0x80 {
          LengthStops(s, i);
          return Ok(result);
        }
        i := i + 1;
        shift := shift + 7;
        read := Read();
        if read.Err? {
          LengthRunsOut(s);
          return Err(read.error);
        }
        b := read.value;
      }
      LengthFifth(s);
      return Ok(result);
    }

    /** readLength(): the same loop echoing to NoOpBinaryOutput. */
    method ReadLength() returns (r: Result<int32>)
      requires Valid()
      modifies input
      ensures Agrees(r, ShiftedLength(old(input.rest)), old(input.rest), input.rest)
    {
      var sink := new Output();
      r := ReadLengthTo(sink);
    }

    method ReadInt16() returns (r: Result<int16>)
      requires Valid()
      modifies input
      ensures Agrees(r, RawInt16(old(input.rest)), old(input.rest), input.rest)
    {
      r := primitives.ReadInt16();
    }

    method ReadInt32() returns (r: Result<int32>)
      requires Valid()
      modifies input
      ensures Agrees(r, RawInt32(old(input.rest)), old(input.rest), input.rest)
    {
      r := primitives.ReadInt32();
    }

    method ReadInt64() returns (r: Result<int64>)
      requires Valid()
      modifies input
      ensures Agrees(r, RawInt64(old(input.rest)), old(input.rest), input.rest)
    {
      r := primitives.ReadInt64();
    }

    /** readFloat32: the raw bits of the float. */
    method ReadFloat32() returns (r: Result<int32>)
      requires Valid()
      modifies input
      ensures Agrees(r, RawInt32(old(input.rest)), old(input.rest), input.rest)
    {
      r := primitives.ReadFloat();
    }

    /** readFloat64: the raw bits of the double. */
    method ReadFloat64() returns (r: Result<int64>)
      requires Valid()
      modifies input
      ensures Agrees(r, RawInt64(old(input.rest)), old(input.rest), input.rest)
    {
      r := primitives.ReadDouble();
    }

    /** readString, giving the UTF-8 bytes of the string or null. */
    method ReadString() returns (r: Result<Option<seq<uint8>>>)
      requires Valid()
      modifies input
      ensures Agrees(r, DecodeString(Shifted, old(input.rest)), old(input.rest), input.rest)
    {
      ghost var s := input.rest;
      var t :- Read();
      if t == NULL {
        return Ok(None);
      } else if t == STRING {
        var length :- ReadLength();
        ghost var start := 1 + ShiftedLength(s[1..]).value.size;
        assert input.rest == s[start..];
        if length == 0 {
          assert s[start..start + length] == [];
          return Ok(Some([]));
        }
        var tmp := new uint8[length];
        var o := ReadInto(tmp, length);
        if o.Fail? {
          return Err(o.error);
        }
        assert tmp[..] == tmp[..length] == s[start..start + length];
        return Ok(Some(tmp[..]));
      } else {
        return Err(NotAString(t));
      }
    }

    method ReadByte() returns (r: Result<int8>)
      requires Valid()
      modifies input
      ensures Agrees(r, DecodeByte(old(input.rest)), old(input.rest), input.rest)
    {
      var t :- Read();
      if t != BYTE {
        return Err(NotAByte(t));
      }
      var b :- Read();
      return Ok(ToInt8(b));
    }

    method ReadChar() returns (r: Result<char16>)
      requires Valid()
      modifies input
      ensures Agrees(r, DecodeChar(old(input.rest)), old(input.rest), input.rest)
    {
      var t :- Read();
      if t == BYTE {
        var b :- Read();
        return Ok(ToChar(b));
      } else if t == CHAR {
        var v :- ReadInt16();
        return Ok(ToChar(v));
      } else {
        return Err(NotCharCompatible(t));
      }
    }

    method ReadShort() returns (r: Result<int16>)
      requires Valid()
      modifies input
      ensures Agrees(r, DecodeShort(old(input.rest)), old(input.rest), input.rest)
    {
      var t :- Read();
      if t == BYTE {
        var b :- Read();
        return Ok(b);
      } else if t == SHORT {
        r := ReadInt16();
      } else {
        return Err(NotShortCompatible(t));
      }
    }

    /** readInt: a BYTE entry is widened through `(short) read()`. */
    method ReadInt() returns (r: Result<int32>)
      requires Valid()
      modifies input
      ensures Agrees(r, DecodeInt(old(input.rest)), old(input.rest), input.rest)
    {
      var t :- Read();
      if t == BYTE {
        var b :- Read();
        return Ok(b);
      } else if t == SHORT {
        var v :- ReadInt16();
        return Ok(v);
      } else if t == INT {
        r := ReadInt32();
      } else {
        return Err(NotIntCompatible(t));
      }
    }

    method ReadLong() returns (r: Result<int64>)
      requires Valid()
      modifies input
      ensures Agrees(r, DecodeLong(old(input.rest)), old(input.rest), input.rest)
    {
      var t :- Read();
      if t == BYTE {
        var b :- Read();
        return Ok(b);
      } else if t == SHORT {
        var v :- ReadInt16();
        return Ok(v);
      } else if t == INT {
        var v :- ReadInt32();
        return Ok(v);
      } else if t == LONG {
        r := ReadInt64();
      } else {
        return Err(NotIntCompatible(t));
      }
    }

    /** readFloat: exactly FLOAT, then the raw bits. */
    method ReadFloat() returns (r: Result<int32>)
      requires Valid()
      modifies input
      ensures Agrees(r, DecodeFloat(old(input.rest)), old(input.rest), input.rest)
    {
      var t :- Read();
      if t != FLOAT {
        return Err(NotAFloat(t));
      }
      r := ReadFloat32();
    }

    /** readDouble: exactly DOUBLE, then the raw bits. */
    method ReadDouble() returns (r: Result<int64>)
      requires Valid()
      modifies input
      ensures Agrees(r, DecodeDouble(old(input.rest)), old(input.rest), input.rest)
    {
      var t :- Read();
      if t != DOUBLE {
        return Err(NotADouble(t));
      }
      r := ReadFloat64();
    }

    /** userTypeInput.read(this, clazz): the callback reads its fields and
        leaves the cursor after them. */
    method ReadFields() returns (r: Result<T>)
      requires Valid()
      modifies input
      ensures Agrees(r, RunFields(fields, old(input.rest)), old(input.rest), input.rest)
    {
      match fields(input.rest)
      case Err(e) =>
        return Err(e);
      case Ok(d) =>
        if |input.rest| < d.size {
          return Err(EndOfInput);
        }
        input.Skip(d.size);
        return Ok(d.value);
    }

    /** readObject: USER_TYPE, then the value. */
    method ReadObject() returns (r: Result<T>)
      requires Valid()
      modifies input
      ensures Agrees(r, DecodeObject(fields, old(input.rest)), old(input.rest), input.rest)
    {
      var t :- Read();
      if t != USER_TYPE {
        return Err(NotAUserType(t));
      }
      r := ReadObjectValue();
    }

    /** readObjectValue: the fields, then END_MARKER. */
    method ReadObjectValue() returns (r: Result<T>)
      requires Valid()
      modifies input
      ensures Agrees(r, DecodeObjectValue(fields, old(input.rest)), old(input.rest), input.rest)
    {
      var v :- ReadFields();
      var endMarker :- Read();
      if endMarker != END_MARKER {
        return Err(ExpectedEndMarker(endMarker));
      }
      return Ok(v);
    }

    /** `ensureArray(read(), expectedSubType)` followed by readLength(), as
        every array reader starts. */
    method ReadArrayHeader(expectedSubType: int) returns (r: Result<int32>)
      requires Valid()
      modifies input
      ensures Agrees(r, DecodeArrayHeader(Shifted, expectedSubType, old(input.rest)), old(input.rest), input.rest)
    {
      var t :- Read();
      var ok := EnsureArray(t, expectedSubType);
      if ok.Fail? {
        return Err(ok.error);
      }
      r := ReadLength();
    }

    /** readByteArray: the header, then one bulk read. */
    method ReadByteArray() returns (r: Result<array<uint8>>)
      requires Valid()
      modifies input
      ensures r.Ok? ==> fresh(r.value)
      ensures Agrees<seq<int>, uint8>(Items(r), DecodeArray(Shifted, KByte, old(input.rest)), old(input.rest), input.rest)
    {
      ghost var s := input.rest;
      var length :- ReadArrayHeader(BYTE);
      ghost var mid := input.rest;
      var result := new uint8[length];
      var o := ReadInto(result, length);
      if o == Pass {
        ByteElements(mid, length);
        assert result[..] == result[..length];
      }
      ArrayRead(Shifted, KByte, s, mid, input.rest, length, o, result[..]);
      if o.Fail? {
        return Err(o.error);
      }
      return Ok(result);
    }

    /** readCharArray: the header, then `length` elements. */
    method ReadCharArray() returns (r: Result<array<char16>>)
      requires Valid()
      modifies input
      ensures r.Ok? ==> fresh(r.value)
      ensures Agrees<seq<int>, uint8>(Items(r), DecodeArray(Shifted, KChar, old(input.rest)), old(input.rest), input.rest)
    {
      ghost var s := input.rest;
      var length :- ReadArrayHeader(CHAR);
      ghost var mid := input.rest;
      var result := new char16[length];
      var o := ReadCharElements(primitives, result);
      ArrayRead(Shifted, KChar, s, mid, input.rest, length, o, result[..]);
      if o.Fail? {
        return Err(o.error);
      }
      return Ok(result);
    }

    /** readShortArray: the header, then `length` elements. */
    method ReadShortArray() returns (r: Result<array<int16>>)
      requires Valid()
      modifies input
      ensures r.Ok? ==> fresh(r.value)
      ensures Agrees<seq<int>, uint8>(Items(r), DecodeArray(Shifted, KShort, old(input.rest)), old(input.rest), input.rest)
    {
      ghost var s := input.rest;
      var length :- ReadArrayHeader(SHORT);
      ghost var mid := input.rest;
      var result := new int16[length];
      var o := ReadShortElements(primitives, result);
      ArrayRead(Shifted, KShort, s, mid, input.rest, length, o, result[..]);
      if o.Fail? {
        return Err(o.error);
      }
      return Ok(result);
    }

    /** readIntArray: the header, then `length` elements. */
    method ReadIntArray() returns (r: Result<array<int32>>)
      requires Valid()
      modifies input
      ensures r.Ok? ==> fresh(r.value)
      ensures Agrees<seq<int>, uint8>(Items(r), DecodeArray(Shifted, KInt, old(input.rest)), old(input.rest), input.rest)
    {
      ghost var s := input.rest;
      var length :- ReadArrayHeader(INT);
      ghost var mid := input.rest;
      var result := new int32[length];
      var o := ReadIntElements(primitives, result);
      ArrayRead(Shifted, KInt, s, mid, input.rest, length, o, result[..]);
      if o.Fail? {
        return Err(o.error);
      }
      return Ok(result);
    }

    /** readLongArray: the header, then `length` elements. */
    method ReadLongArray() returns (r: Result<array<int64>>)
      requires Valid()
      modifies input
      ensures r.Ok? ==> fresh(r.value)
      ensures Agrees<seq<int>, uint8>(Items(r), DecodeArray(Shifted, KLong, old(input.rest)), old(input.rest), input.rest)
    {
      ghost var s := input.rest;
      var length :- ReadArrayHeader(LONG);
      ghost var mid := input.rest;
      var result := new int64[length];
      var o := ReadLongElements(primitives, result);
      ArrayRead(Shifted, KLong, s, mid, input.rest, length, o, result[..]);
      if o.Fail? {
        return Err(o.error);
      }
      return Ok(result);
    }

    /** readFloatArray: the header, then `length` elements. */
    method ReadFloatArray() returns (r: Result<array<int32>>)
      requires Valid()
      modifies input
      ensures r.Ok? ==> fresh(r.value)
      ensures Agrees<seq<int>, uint8>(Items(r), DecodeArray(Shifted, KFloat, old(input.rest)), old(input.rest), input.rest)
    {
      ghost var s := input.rest;
      var length :- ReadArrayHeader(FLOAT);
      ghost var mid := input.rest;
      var result := new int32[length];
      var o := ReadFloatElements(primitives, result);
      ArrayRead(Shifted, KFloat, s, mid, input.rest, length, o, result[..]);
      if o.Fail? {
        return Err(o.error);
      }
      return Ok(result);
    }

    /** readDoubleArray: the header, then `length` elements. */
    method ReadDoubleArray() returns (r: Result<array<int64>>)
      requires Valid()
      modifies input
      ensures r.Ok? ==> fresh(r.value)
      ensures Agrees<seq<int>, uint8>(Items(r), DecodeArray(Shifted, KDouble, old(input.rest)), old(input.rest), input.rest)
    {
      ghost var s := input.rest;
      var length :- ReadArrayHeader(DOUBLE);
      ghost var mid := input.rest;
      var result := new int64[length];
      var o := ReadDoubleElements(primitives, result);
      ArrayRead(Shifted, KDouble, s, mid, input.rest, length, o, result[..]);
      if o.Fail? {
        return Err(o.error);
      }
      return Ok(result);
    }

    /** readObjectArray: the header, then `length` values in a new array of
        references. */
    method ReadObjectArray() returns (r: Result<array<Option<T>>>)
      requires Valid()
      modifies input
      ensures r.Ok? ==> fresh(r.value)
      ensures Agrees(Items(r), Filled(DecodeObjectArray(Shifted, fields, old(input.rest))), old(input.rest), input.rest)
    {
      ghost var s := input.rest;
      var length :- ReadArrayHeader(USER_TYPE);
      ghost var mid := input.rest;
      var result := new Option<T>[length](_ => None);
      var o := ReadValues(result);
      ObjectArrayRead(Shifted, fields, s, mid, input.rest, length, o, result[..]);
      if o.Fail? {
        return Err(o.error);
      }
      return Ok(result);
    }

    /** The for-loop of readObjectArray. */
    method ReadValues(result: array<Option<T>>) returns (r: Outcome)
      requires Valid()
      modifies input, result
      ensures Completes(r, DecodeValues(fields, old(input.rest), result.Length), old(input.rest), input.rest)
      ensures r == Pass ==> result[..] == Present(DecodeValues(fields, old(input.rest), result.Length).value.value)
    {
      ghost var s := input.rest;
      ghost var vals: seq<T> := [];
      ghost var used: nat := 0;
      for i := 0 to result.Length
        invariant DecodeValues(fields, s, i) == Ok(Decoded(vals, used))
        invariant used <= |s| && input.rest == s[used..]
        invariant |vals| == i && forall j :: 0 <= j < i ==> result[j] == Some(vals[j])
      {
        var v := ReadObjectValue();
        if v.Err? {
          ValuesFail(fields, s, i, result.Length, vals, used);
          return Fail(v.error);
        }
        ghost var d := DecodeObjectValue(fields, s[used..]).value;
        ValuesReadSnoc(fields, s, i, vals, used, d);
        SliceSlice(s, used, d.size);
        result[i] := Some(v.value);
        vals := vals + [v.value];
        used := used + d.size;
      }
      assert result[..] == Present(vals);
      return Pass;
    }

    /** ensureArray: passes exactly for the array tag of the expected kind. */
    method EnsureArray(value: uint8, expectedSubType: int) returns (r: Outcome)
      ensures r == Pass <==> value == ARRAY + 16 * expectedSubType
      ensures r == CheckArray(value, expectedSubType)
    {
      if !IsArray(value) {
        return Fail(NotAnArray(value));
      }
      if SubType(value) != expectedSubType {
        return Fail(ItemTypeMismatch(value));
      }
      return Pass;
    }

    /** readRest: a Scanner at depth one scans entries until the depth is no
        longer positive, echoing what it scans to `output`. */
    method ReadRest(output: Output, arrayFactory: SimpleArrayFactory) returns (r: Outcome)
      requires Valid() && arrayFactory.Valid()
      modifies input, output, arrayFactory, arrayFactory.buffer
      ensures ScanRest(old(input.rest), 1).Ok? ==>
                var d := ScanRest(old(input.rest), 1).value;
                r == Pass && input.rest == old(input.rest)[d.size..] && output.bytes == old(output.bytes) + d.value
      ensures ScanRest(old(input.rest), 1).Err? ==> r == Fail(ScanRest(old(input.rest), 1).error)
    {
      var scanner := new Scanner(this, output, arrayFactory);
      ghost var s := input.rest;
      ghost var total := ScanRest(s, 1);
      ghost var out0 := output.bytes;
      ghost var echoed: seq<uint8> := [];
      ghost var used: nat := 0;
      assert s[0..] == s;
      assert total.Ok? ==> echoed + total.value.value == total.value.value;
      while scanner.Depth() > 0
        invariant fresh(scanner) && scanner.media == this && scanner.output == output
        invariant scanner.arrayFactory == arrayFactory && arrayFactory.Valid()
        invariant arrayFactory.buffer == old(arrayFactory.buffer) || fresh(arrayFactory.buffer)
        invariant used <= |s| && input.rest == s[used..]
        invariant output.bytes == out0 + echoed
        invariant total == Then(echoed, used, ScanRest(input.rest, scanner.depth))
        decreases |s| - used
      {
        ghost var rest, depth;
        r, echoed, used, rest, depth := scanner.Advance(s, total, out0, echoed, used);
        if r.Fail? {
          return;
        }
      }
      assert ScanRest(input.rest, scanner.depth) == Ok(Decoded([], 0));
      assert echoed + [] == echoed;
      return Pass;
    }

  }


  /** The Scanner of readRest: the depth inside nested user types, and
      scan(), which consumes one entry and echoes it to the output. */
  class Scanner<T> {
    const media: SimpleReadableMedia<T>
    const output: Output
    const arrayFactory: SimpleArrayFactory
    var depth: int

    constructor (media: SimpleReadableMedia<T>, output: Output, arrayFactory: SimpleArrayFactory)
      ensures this.media == media && this.output == output && this.arrayFactory == arrayFactory
      ensures depth == 1
    {
      this.media := media;
      this.output := output;
      this.arrayFactory := arrayFactory;
      depth := 1;
    }

    function Depth(): int
      reads this
    {
      depth
    }

    /** One turn of the loop of readRest: scan() once, and carry forward
        what readRest has consumed and echoed since it began. */
    method Advance(ghost s: seq<uint8>, ghost total: Result<Decoded<seq<uint8>>>, ghost out0: seq<uint8>,
                   ghost echoed: seq<uint8>, ghost used: nat)
      returns (r: Outcome, ghost echoed': seq<uint8>, ghost used': nat, ghost rest': seq<uint8>, ghost depth': int)
      requires media.Valid() && arrayFactory.Valid() && depth > 0
      requires used <= |s| && media.input.rest == s[used..] && output.bytes == out0 + echoed
      requires total == Then(echoed, used, ScanRest(media.input.rest, depth))
      modifies this, media.input, output, arrayFactory, arrayFactory.buffer
      ensures arrayFactory.Valid()
      ensures arrayFactory.buffer == old(arrayFactory.buffer) || fresh(arrayFactory.buffer)
      ensures r.Fail? ==> total.Err? && r == Fail(total.error)
      ensures r == Pass ==>
                used < used' <= |s| && media.input.rest == rest' == s[used'..] && output.bytes == out0 + echoed'
                && depth == depth' && total == Then(echoed', used', ScanRest(rest', depth'))
    {
      ghost var before := media.input.rest;
      ghost var d := depth;
      r := Scan();
      if r.Fail? {
        ScanRestFails(total, echoed, used, before, d);
        return r, echoed, used, before, d;
      }
      ghost var st := ScanStep(before, d).value;
      ScanRestAdvances(total, echoed, used, before, d, st);
      Consumed(s, used, before, st.size, out0, echoed, st.echo, output.bytes);
      echoed', used', rest', depth' := echoed + st.echo, used + st.size, before[st.size..], st.depth;
    }

    /** scan(): the entry in front of the input, as ScanStep describes it. */
    method Scan() returns (r: Outcome)
      requires media.Valid() && arrayFactory.Valid()
      modifies this, media.input, output, arrayFactory, arrayFactory.buffer
      ensures arrayFactory.Valid()
      ensures arrayFactory.buffer == old(arrayFactory.buffer) || fresh(arrayFactory.buffer)
      ensures ScanStep(old(media.input.rest), old(depth)).Ok? ==>
                var st := ScanStep(old(media.input.rest), old(depth)).value;
                r == Pass && depth == st.depth && media.input.rest == old(media.input.rest)[st.size..]
                && output.bytes == old(output.bytes) + st.echo
      ensures ScanStep(old(media.input.rest), old(depth)).Err? ==>
                r == Fail(ScanStep(old(media.input.rest), old(depth)).error)
    {
      ghost var s := media.input.rest;
      ghost var out := output.bytes;
      var read := media.Read();
      if read.Err? {
        return Fail(read.error);
      }
      var tag := read.value;
      if tag == END_MARKER {
        depth := depth - 1;
      }
      if depth <= 0 {
        return Pass;
      }
      output.Write(tag);
      if tag == NULL || tag == END_MARKER {
        r := Pass;
      } else if tag == USER_TYPE {
        depth := depth + 1;
        r := Pass;
      } else if tag == STRING {
        r := CopyCounted(tag, s, out);
      } else if tag == BYTE {
        r := Echo(1, s, out);
      } else if tag == CHAR || tag == SHORT {
        r := Echo(2, s, out);
      } else if tag == INT || tag == FLOAT {
        r := Copy(4);
        if r == Pass {
          EchoJoin(out, s, 5);
        }
      } else if tag == LONG || tag == DOUBLE {
        r := Copy(8);
        if r == Pass {
          EchoJoin(out, s, 9);
        }
      } else if IsArray(tag) {
        r := CopyCounted(tag, s, out);
      } else {
        r := Fail(InvalidType(tag));
      }
    }

    /** `output.write(read())`, once or twice. */
    method Echo(count: nat, ghost s: seq<uint8>, ghost out: seq<uint8>) returns (r: Outcome)
      requires count == 1 || count == 2
      requires media.Valid() && |s| >= 1 && media.input.rest == s[1..] && output.bytes == out + [s[0]]
      modifies media.input, output
      ensures |s| < 1 + count ==> r == Fail(EndOfInput)
      ensures |s| >= 1 + count ==> r == Pass && media.input.rest == s[1 + count..] && output.bytes == out + s[..1 + count]
    {
      var b := media.Read();
      if b.Err? {
        return Fail(b.error);
      }
      output.Write(b.value);
      if count == 2 {
        b := media.Read();
        if b.Err? {
          return Fail(b.error);
        }
        output.Write(b.value);
      }
      EchoJoin(out, s, 1 + count);
      r := Pass;
    }

    /** STRING and arrays: readLength(output), then the payload copied. */
    method CopyCounted(tag: uint8, ghost s: seq<uint8>, ghost out: seq<uint8>) returns (r: Outcome)
      requires media.Valid() && arrayFactory.Valid()
      requires |s| >= 1 && s[0] == tag && media.input.rest == s[1..] && output.bytes == out + [tag]
      modifies media.input, output, arrayFactory, arrayFactory.buffer
      ensures arrayFactory.Valid()
      ensures arrayFactory.buffer == old(arrayFactory.buffer) || fresh(arrayFactory.buffer)
      ensures Scanning.ScanCounted(depth, s).Ok? ==>
                var st := Scanning.ScanCounted(depth, s).value;
                r == Pass && media.input.rest == s[st.size..] && output.bytes == out + st.echo
      ensures Scanning.ScanCounted(depth, s).Err? ==> r == Fail(Scanning.ScanCounted(depth, s).error)
    {
      var length := media.ReadLengthTo(output);
      if length.Err? {
        return Fail(length.error);
      }
      ghost var start := 1 + ShiftedLength(s[1..]).value.size;
      ghost var head := s[..1 + ShiftedUsed(s[1..])];
      assert media.input.rest == s[start..];
      EchoJoin(out, s, 1 + ShiftedUsed(s[1..]));
      var count := if tag == STRING then Some(length.value as int) else PayloadBytes(SubType(tag), length.value);
      CountedIs(depth, s, start, head, count);
      if count.None? {
        return Pass;
      }
      r := Copy(count.value as int32);
      if r == Pass {
        SliceSlice(s, start, count.value);
        Regroup(out, head, s[start..][..count.value]);
      }
    }

    /** copy(bytes): the scratch buffer from the array factory, filled by
        read(buffer, bytes) and written out whole. */
    method Copy(bytes: int32) returns (r: Outcome)
      requires media.Valid() && arrayFactory.Valid()
      modifies media.input, output, arrayFactory, arrayFactory.buffer
      ensures arrayFactory.Valid()
      ensures arrayFactory.buffer == old(arrayFactory.buffer) || fresh(arrayFactory.buffer)
      ensures Completes(r, Scanning.Copy(bytes, old(media.input.rest)), old(media.input.rest), media.input.rest)
      ensures r == Pass ==> output.bytes == old(output.bytes) + old(media.input.rest)[..bytes]
    {
      var buffer := arrayFactory.Get(bytes);
      r := media.ReadInto(buffer, bytes);
      if r.Fail? {
        return;
      }
      r := output.WriteArray(buffer, 0, bytes);
    }
  }

  /** An int array whose length bytes are 128, 128, 128, 128 and a fifth:
      readRest asks copy() for 4 · 270,549,120 = 1,082,196,480 bytes, more
      than 2^30, and SimpleArrayFactory(16).refine doubling in Java int
      never reaches that capacity. Scanner.Copy uses the corrected refine. */
  lemma LargeCopyOverflowsRefine(x: uint8)
    ensures SubType(ARRAY + 16 * INT) == INT
    ensures ShiftedLength([128, 128, 128, 128, x]) == Ok(Decoded(270_549_120, 5))
    ensures PayloadBytes(INT, 270_549_120) == Some(1_082_196_480) && 1_082_196_480 > 0x4000_0000
    ensures forall steps: nat :: WrappedDoubling(16, steps) < 1_082_196_480
  {
    var s: seq<uint8> := [128, 128, 128, 128, x];
    FifthByteConsumed(s);
    assert s[..4] == [128, 128, 128, 128];
    AllHighLength();
    forall steps: nat
      ensures WrappedDoubling(16, steps) < 1_082_196_480
    {
      RefineOverflows(steps);
    }
  }

  /** The for-loop of readCharArray. */
  method ReadCharElements(primitives: DefaultPrimitiveBinaryInput, result: array<char16>) returns (r: Outcome)
    modifies primitives.input, result
    ensures Completes(r, DecodeElements(KChar, old(primitives.input.rest), result.Length),
                      old(primitives.input.rest), primitives.input.rest)
    ensures r == Pass ==> result[..] == Elements(KChar, old(primitives.input.rest), result.Length)
  {
    ghost var s := primitives.input.rest;
    for i := 0 to result.Length
      invariant 2 * i <= |s| && primitives.input.rest == s[2 * i..]
      invariant result[..i] == Elements(KChar, s, i)
    {
      var v := primitives.ReadInt16();
      if v.Err? {
        return Fail(v.error);
      }
      SpanIs(KChar, i);
      ElementsSnoc(KChar, s, i, 2 * i);
      SliceSlice(s, 2 * i, 2);
      result[i] := ToChar(v.value);
    }
    return Pass;
  }

  /** The for-loop of readShortArray. */
  method ReadShortElements(primitives: DefaultPrimitiveBinaryInput, result: array<int16>) returns (r: Outcome)
    modifies primitives.input, result
    ensures Completes(r, DecodeElements(KShort, old(primitives.input.rest), result.Length),
                      old(primitives.input.rest), primitives.input.rest)
    ensures r == Pass ==> result[..] == Elements(KShort, old(primitives.input.rest), result.Length)
  {
    ghost var s := primitives.input.rest;
    for i := 0 to result.Length
      invariant 2 * i <= |s| && primitives.input.rest == s[2 * i..]
      invariant result[..i] == Elements(KShort, s, i)
    {
      var v := primitives.ReadInt16();
      if v.Err? {
        return Fail(v.error);
      }
      SpanIs(KShort, i);
      ElementsSnoc(KShort, s, i, 2 * i);
      SliceSlice(s, 2 * i, 2);
      result[i] := v.value;
    }
    return Pass;
  }

  /** The for-loop of readIntArray. */
  method ReadIntElements(primitives: DefaultPrimitiveBinaryInput, result: array<int32>) returns (r: Outcome)
    modifies primitives.input, result
    ensures Completes(r, DecodeElements(KInt, old(primitives.input.rest), result.Length),
                      old(primitives.input.rest), primitives.input.rest)
    ensures r == Pass ==> result[..] == Elements(KInt, old(primitives.input.rest), result.Length)
  {
    ghost var s := primitives.input.rest;
    for i := 0 to result.Length
      invariant 4 * i <= |s| && primitives.input.rest == s[4 * i..]
      invariant result[..i] == Elements(KInt, s, i)
    {
      var v := primitives.ReadInt32();
      if v.Err? {
        return Fail(v.error);
      }
      SpanIs(KInt, i);
      ElementsSnoc(KInt, s, i, 4 * i);
      SliceSlice(s, 4 * i, 4);
      result[i] := v.value;
    }
    return Pass;
  }

  /** The for-loop of readLongArray. */
  method ReadLongElements(primitives: DefaultPrimitiveBinaryInput, result: array<int64>) returns (r: Outcome)
    modifies primitives.input, result
    ensures Completes(r, DecodeElements(KLong, old(primitives.input.rest), result.Length),
                      old(primitives.input.rest), primitives.input.rest)
    ensures r == Pass ==> result[..] == Elements(KLong, old(primitives.input.rest), result.Length)
  {
    ghost var s := primitives.input.rest;
    for i := 0 to result.Length
      invariant 8 * i <= |s| && primitives.input.rest == s[8 * i..]
      invariant result[..i] == Elements(KLong, s, i)
    {
      var v := primitives.ReadInt64();
      if v.Err? {
        return Fail(v.error);
      }
      SpanIs(KLong, i);
      ElementsSnoc(KLong, s, i, 8 * i);
      SliceSlice(s, 8 * i, 8);
      result[i] := v.value;
    }
    return Pass;
  }

  /** The for-loop of readFloatArray. */
  method ReadFloatElements(primitives: DefaultPrimitiveBinaryInput, result: array<int32>) returns (r: Outcome)
    modifies primitives.input, result
    ensures Completes(r, DecodeElements(KFloat, old(primitives.input.rest), result.Length),
                      old(primitives.input.rest), primitives.input.rest)
    ensures r == Pass ==> result[..] == Elements(KFloat, old(primitives.input.rest), result.Length)
  {
    ghost var s := primitives.input.rest;
    for i := 0 to result.Length
      invariant 4 * i <= |s| && primitives.input.rest == s[4 * i..]
      invariant result[..i] == Elements(KFloat, s, i)
    {
      var v := primitives.ReadFloat();
      if v.Err? {
        return Fail(v.error);
      }
      SpanIs(KFloat, i);
      ElementsSnoc(KFloat, s, i, 4 * i);
      SliceSlice(s, 4 * i, 4);
      result[i] := v.value;
    }
    return Pass;
  }

  /** The for-loop of readDoubleArray. */
  method ReadDoubleElements(primitives: DefaultPrimitiveBinaryInput, result: array<int64>) returns (r: Outcome)
    modifies primitives.input, result
    ensures Completes(r, DecodeElements(KDouble, old(primitives.input.rest), result.Length),
                      old(primitives.input.rest), primitives.input.rest)
    ensures r == Pass ==> result[..] == Elements(KDouble, old(primitives.input.rest), result.Length)
  {
    ghost var s := primitives.input.rest;
    for i := 0 to result.Length
      invariant 8 * i <= |s| && primitives.input.rest == s[8 * i..]
      invariant result[..i] == Elements(KDouble, s, i)
    {
      var v := primitives.ReadDouble();
      if v.Err? {
        return Fail(v.error);
      }
      SpanIs(KDouble, i);
      ElementsSnoc(KDouble, s, i, 8 * i);
      SliceSlice(s, 8 * i, 8);
      result[i] := v.value;
    }
    return Pass;
  }

  /** ScanCounted in terms of the length readLength decodes, the bytes it
      echoes and the payload count that follows. */
  lemma CountedIs(depth: int, s: seq<uint8>, start: int, head: seq<uint8>, count: Option<int>)
    requires |s| >= 1 && ShiftedLength(s[1..]).Ok?
    requires start == 1 + ShiftedLength(s[1..]).value.size && head == s[..1 + ShiftedUsed(s[1..])]
    requires var len := ShiftedLength(s[1..]).value.value;
             count == if s[0] == STRING then Some(len) else PayloadBytes(SubType(s[0]), len)
    ensures start <= |s|
    ensures count.None? ==> ScanCounted(depth, s) == Ok(Scanned(depth, head, start))
    ensures count.Some? && Copy(count.value, s[start..]).Err? ==>
              ScanCounted(depth, s) == Err(Copy(count.value, s[start..]).error)
    ensures count.Some? && Copy(count.value, s[start..]).Ok? ==>
              ScanCounted(depth, s) == Ok(Scanned(depth, head + s[start..][..count.value], start + count.value))
  {
  }

  /** One more byte of the length loop: its weighted value and its echo. */
  lemma WeightedStep(s: seq<uint8>, i: nat)
    requires i < |s|
    ensures Weighted(s[..i + 1]) == Weighted(s[..i]) + s[i] * Pow2(7 * i)
    ensures s[..i] + [s[i] % 0x100] == s[..i + 1]
  {
    assert s[..i + 1][..i] == s[..i];
  }

  /** The first i bytes all have the high bit set, one byte at a time. */
  ghost predicate AllHigh(s: seq<uint8>, i: nat)
    requires i <= |s|
  {
    i == 0 || (AllHigh(s, i - 1) && s[i - 1] >= 0x80)
  }

  lemma {:induction false} AllHighBytes(s: seq<uint8>, i: nat)
    requires i <= |s| && AllHigh(s, i)
    ensures forall j :: 0 <= j < i ==> s[j] >= 0x80
  {
    if i > 0 {
      AllHighBytes(s, i - 1);
    }
  }

  lemma LengthStops(s: seq<uint8>, i: nat)
    requires i < 4 && i < |s| && s[i] < 0x80 && AllHigh(s, i)
    ensures ShiftedUsed(s) == i + 1
    ensures ShiftedLength(s) == Ok(Decoded(Weighted(s[..i + 1]), i + 1))
    ensures Weighted(s[..i + 1]) < 0x8000_0000
  {
    AllHighBytes(s, i);
    RunIs(s, 4, i);
    LengthsFitInt(Shifted, s);
  }

  /** Four bytes with the high bit set and a fifth one read. */
  lemma LengthFifth(s: seq<uint8>)
    requires |s| >= 5 && AllHigh(s, 4)
    ensures ShiftedUsed(s) == 4
    ensures ShiftedLength(s) == Ok(Decoded(Weighted(s[..4]), 5))
    ensures Weighted(s[..4]) < 0x8000_0000
  {
    AllHighBytes(s, 4);
    FifthByteConsumed(s);
    LengthsFitInt(Shifted, s);
  }

  lemma LengthRunsOut(s: seq<uint8>)
    requires |s| <= 4 && AllHigh(s, |s|)
    ensures ShiftedLength(s) == Err(EndOfInput)
  {
    AllHighBytes(s, |s|);
    RunIs(s, 4, |s|);
  }

  /** A byte array's elements are its bytes. */
  lemma {:induction false} ByteElements(s: seq<uint8>, n: nat)
    requires n <= |s|
    ensures Elements(KByte, s, n) == s[..n]
    decreases n
  {
    if n > 0 {
      ByteElements(s[1..], n - 1);
      assert s[..n] == [s[0]] + s[1..][..n - 1];
    }
  }

  /** The bytes taken by i elements, one width at a time. */
  function Span(k: Kind, i: nat): nat
  {
    if i == 0 then 0 else Width(k) + Span(k, i - 1)
  }

  lemma {:induction false} SpanIs(k: Kind, i: nat)
    ensures Span(k, i) == Width(k) * i
  {
    if i > 0 {
      SpanIs(k, i - 1);
      assert Width(k) * i == Width(k) + Width(k) * (i - 1);
    }
  }

  /** One more element read at the end of the loop, from offset `at`. */
  lemma {:induction false} ElementsSnoc(k: Kind, s: seq<uint8>, i: nat, at: nat)
    requires at == Span(k, i) && at + Width(k) <= |s|
    ensures Elements(k, s, i + 1) == Elements(k, s, i) + [DecodeElement(k, s[at..])]
    decreases i
  {
    var w := Width(k);
    var x := DecodeElement(k, s[at..]);
    ElementsCons(k, s, i + 1);
    if i > 0 {
      var t := s[w..];
      assert Elements(k, t, i) == Elements(k, t, i - 1) + [x] by {
        ElementsSnoc(k, t, i - 1, at - w);
        SliceSlice(s, w, at - w);
      }
      ElementsCons(k, s, i);
      Regroup([DecodeElement(k, s)], Elements(k, t, i - 1), [x]);
    }
  }

  /** Concatenation is associative. */
  lemma Regroup<X>(a: seq<X>, b: seq<X>, c: seq<X>)
    ensures a + (b + c) == a + b + c
  {
  }

  /** Dropping a then b elements drops a + b. */
  lemma SliceSlice<X>(s: seq<X>, a: nat, b: nat)
    requires a + b <= |s|
    ensures s[a..][b..] == s[a + b..]
  {
  }

  /** A primitive array reader put together from its header and its loop. */
  lemma ArrayRead(coding: LengthCoding, k: Kind, s: seq<uint8>, mid: seq<uint8>, after: seq<uint8>,
                  length: int, o: Outcome, vals: seq<int>)
    requires Agrees<int, uint8>(Ok(length), DecodeArrayHeader(coding, KindTag(k), s), s, mid)
    requires Completes(o, DecodeElements(k, mid, length), mid, after)
    requires o == Pass ==> vals == Elements(k, mid, length)
    ensures o == Pass ==> Agrees<seq<int>, uint8>(Ok(vals), DecodeArray(coding, k, s), s, after)
    ensures o.Fail? ==> DecodeArray(coding, k, s) == Err(o.error)
  {
    var h := DecodeArrayHeader(coding, KindTag(k), s).value;
    if o == Pass {
      var d := DecodeElements(k, mid, length).value;
      ArrayParts(coding, k, s, h, d);
      assert after == s[h.size + d.size..];
    }
  }

  /** The object array reader put together from its header and its loop. */
  lemma ObjectArrayRead<T>(coding: LengthCoding, fields: seq<uint8> -> Result<Decoded<T>>, s: seq<uint8>,
                           mid: seq<uint8>, after: seq<uint8>, length: int, o: Outcome, items: seq<Option<T>>)
    requires Agrees<int, uint8>(Ok(length), DecodeArrayHeader(coding, USER_TYPE, s), s, mid)
    requires Completes(o, DecodeValues(fields, mid, length), mid, after)
    requires o == Pass ==> items == Present(DecodeValues(fields, mid, length).value.value)
    ensures o == Pass ==> Agrees(Ok(items), Filled(DecodeObjectArray(coding, fields, s)), s, after)
    ensures o.Fail? ==> DecodeObjectArray(coding, fields, s) == Err(o.error)
  {
    var h := DecodeArrayHeader(coding, USER_TYPE, s).value;
    if o == Pass {
      var d := DecodeValues(fields, mid, length).value;
      assert after == s[h.size + d.size..];
    }
  }

  /** One more value read at the end of the value loop. */
  lemma {:induction false} ValuesReadSnoc<T>(fields: seq<uint8> -> Result<Decoded<T>>, s: seq<uint8>, i: nat,
                                             vals: seq<T>, used: nat, d: Decoded<T>)
    requires DecodeValues(fields, s, i) == Ok(Decoded(vals, used))
    requires used <= |s| && DecodeObjectValue(fields, s[used..]) == Ok(d)
    ensures DecodeValues(fields, s, i + 1) == Ok(Decoded(vals + [d.value], used + d.size))
    decreases i, 1
  {
    var all := Decoded(vals + [d.value], used + d.size);
    if i == 0 {
      assert s[used..] == s;
      ValuesCons(fields, s, 1, d, Decoded([], 0), all);
    } else {
      ValuesUncons(fields, s, i, Decoded(vals, used));
      var d0 := DecodeObjectValue(fields, s).value;
      ValuesReadStep(fields, s, i, vals, used, d, d0, DecodeValues(fields, s[d0.size..], i - 1).value);
    }
  }

  /** The inductive step of ValuesReadSnoc: the first value, then the
      remaining i - 1 and the new one. */
  lemma {:induction false} ValuesReadStep<T>(fields: seq<uint8> -> Result<Decoded<T>>, s: seq<uint8>, i: nat,
                                             vals: seq<T>, used: nat, d: Decoded<T>, d0: Decoded<T>, ds: Decoded<seq<T>>)
    requires i > 0 && DecodeObjectValue(fields, s) == Ok(d0)
    requires DecodeValues(fields, s[d0.size..], i - 1) == Ok(ds)
    requires vals == [d0.value] + ds.value && used == d0.size + ds.size
    requires used <= |s| && DecodeObjectValue(fields, s[used..]) == Ok(d)
    ensures DecodeValues(fields, s, i + 1) == Ok(Decoded(vals + [d.value], used + d.size))
    decreases i, 0
  {
    var t := s[d0.size..];
    assert DecodeValues(fields, t, i) == Ok(Decoded(ds.value + [d.value], ds.size + d.size)) by {
      SliceSlice(s, d0.size, ds.size);
      ValuesReadSnoc(fields, t, i - 1, ds.value, ds.size, d);
    }
    Regroup([d0.value], ds.value, [d.value]);
    ValuesCons(fields, s, i + 1, d0, Decoded(ds.value + [d.value], ds.size + d.size),
               Decoded(vals + [d.value], used + d.size));
  }

  /** A value that fails ends the whole value loop with its error. */
  lemma {:induction false} ValuesFail<T>(fields: seq<uint8> -> Result<Decoded<T>>, s: seq<uint8>, i: nat,
                                         n: nat, vals: seq<T>, used: nat)
    requires i < n && DecodeValues(fields, s, i) == Ok(Decoded(vals, used))
    requires used <= |s| && DecodeObjectValue(fields, s[used..]).Err?
    ensures DecodeValues(fields, s, n) == Err(DecodeObjectValue(fields, s[used..]).error)
    decreases i
  {
    if i == 0 {
      assert s[used..] == s;
    } else {
      ValuesUncons(fields, s, i, Decoded(vals, used));
      var d0 := DecodeObjectValue(fields, s).value;
      var t := s[d0.size..];
      var ds := DecodeValues(fields, t, i - 1).value;
      SliceSlice(s, d0.size, ds.size);
      ValuesFail(fields, t, i - 1, n - 1, ds.value, ds.size);
    }
  }

  lemma ThenAssoc(a: seq<uint8>, n: nat, b: seq<uint8>, m: nat, r: Result<Decoded<seq<uint8>>>)
    ensures Then(a, n, Then(b, m, r)) == Then(a + b, n + m, r)
  {
    if r.Ok? {
      assert a + (b + r.value.value) == (a + b) + r.value.value;
    }
  }

  /** The tag echoed first, then the next n - 1 bytes: the first n bytes. */
  lemma EchoJoin(out: seq<uint8>, s: seq<uint8>, n: nat)
    requires 1 <= n <= |s|
    ensures out + [s[0]] + s[1..][..n - 1] == out + s[..n]
  {
    assert [s[0]] + s[1..][..n - 1] == s[..n];
  }

  /** The loop invariant of readRest carried over one successful scan(). */
  lemma ScanRestAdvances(total: Result<Decoded<seq<uint8>>>, echoed: seq<uint8>, used: nat,
                         before: seq<uint8>, depth: int, st: Scanned)
    requires depth > 0 && ScanStep(before, depth) == Ok(st)
    requires total == Then(echoed, used, ScanRest(before, depth))
    ensures total == Then(echoed + st.echo, used + st.size, ScanRest(before[st.size..], st.depth))
  {
    assert ScanRest(before, depth) == Then(st.echo, st.size, ScanRest(before[st.size..], st.depth)) by {
      ScanRestStep(before, depth);
    }
    ThenAssoc(echoed, used, st.echo, st.size, ScanRest(before[st.size..], st.depth));
  }

  /** The input and output halves of readRest's loop invariant carried over
      one successful scan(). */
  lemma Consumed(s: seq<uint8>, used: nat, before: seq<uint8>, size: nat,
                 out0: seq<uint8>, echoed: seq<uint8>, echo: seq<uint8>, out: seq<uint8>)
    requires used <= |s| && before == s[used..] && size <= |before|
    requires out == out0 + echoed + echo
    ensures used + size <= |s| && before[size..] == s[used + size..]
    ensures out == out0 + (echoed + echo)
  {
    SliceSlice(s, used, size);
    Regroup(out0, echoed, echo);
  }

  /** A scan() that fails ends readRest with its exception. */
  lemma ScanRestFails(total: Result<Decoded<seq<uint8>>>, echoed: seq<uint8>, used: nat,
                      before: seq<uint8>, depth: int)
    requires depth > 0 && ScanStep(before, depth).Err?
    requires total == Then(echoed, used, ScanRest(before, depth))
    ensures total == Err(ScanStep(before, depth).error)
  {
    ScanRestStep(before, depth);
  }
}
