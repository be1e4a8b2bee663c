/** SimpleReadableMedia of the older org.uze snapshot: the same tagged
    reader as the current one, except that lengths are read with the additive
    four-byte reader and that there is no readRest. */
module LegacyReadableMedia {
  import opened Bytes
  import opened Failures
  import opened Types
  import opened Packing
  import opened Encoding
  import opened Decoding
  import opened Streams
  import opened PrimitiveInput
  import opened ReadableMedia

  /** The older reader over an input and a user-type reader `fields`; its
      private read/readInt16/readInt32/readInt64/readLength helpers are the
      code of DefaultPrimitiveBinaryInput. */
  class SimpleReadableMedia<T> {
    const input: Input
    const primitives: DefaultPrimitiveBinaryInput
    const fields: seq<uint8> -> Result<Decoded<T>>

    ghost predicate Valid()
    {
      primitives.input == input
    }

    constructor (input: Input, fields: seq<uint8> -> Result<Decoded<T>>)
      ensures Valid() && this.input == input && this.fields == fields
    {
      this.input := input;
      this.fields := fields;
      primitives := new DefaultPrimitiveBinaryInput(input);
    }

    method Read() returns (r: Result<uint8>)
      requires Valid()
      modifies input
      ensures old(input.rest) == [] ==> r == Err(EndOfInput) && input.rest == old(input.rest)
      ensures old(input.rest) != [] ==> r == Ok(old(input.rest)[0]) && input.rest == old(input.rest)[1..]
    {
      r := primitives.Read();
    }

    method ReadInto(buffer: array<uint8>, length: int32) returns (r: Outcome)
      requires Valid()
      modifies input, buffer
      ensures length < 0 || length > buffer.Length ==>
                r == Fail(OutOfBounds) && input.rest == old(input.rest) && buffer[..] == old(buffer[..])
      ensures 0 <= length <= buffer.Length && |old(input.rest)| < length ==> r == Fail(EndOfInput)
      ensures 0 <= length <= buffer.Length && length <= |old(input.rest)| ==>
                r == Pass && input.rest == old(input.rest)[length..]
                && buffer[..length] == old(input.rest)[..length]
    {
      r := primitives.ReadInto(buffer, length);
    }

    /** readLength: at most four bytes, each one after the first added
        shifted by seven; the same code as DefaultPrimitiveBinaryInput's. */
    method ReadLength() returns (r: Result<int32>)
      requires Valid()
      modifies input
      ensures Agrees(r, AdditiveLength(old(input.rest)), old(input.rest), input.rest)
    {
      r := primitives.ReadLength();
    }

    method ReadInt16() returns (r: Result<int16>)
      requires Valid()
      modifies input
      ensures Agrees(r, RawInt16(old(input.rest)), old(input.rest), input.rest)
    {
      r := primitives.ReadInt16();
    }

    method ReadInt32() returns (r: Result<int32>)
      requires Valid()
      modifies input
      ensures Agrees(r, RawInt32(old(input.rest)), old(input.rest), input.rest)
    {
      r := primitives.ReadInt32();
    }

    method ReadInt64() returns (r: Result<int64>)
      requires Valid()
      modifies input
      ensures Agrees(r, RawInt64(old(input.rest)), old(input.rest), input.rest)
    {
      r := primitives.ReadInt64();
    }

    /** readFloat32: the raw bits of the float. */
    method ReadFloat32() returns (r: Result<int32>)
      requires Valid()
      modifies input
      ensures Agrees(r, RawInt32(old(input.rest)), old(input.rest), input.rest)
    {
      r := primitives.ReadFloat();
    }

    /** readFloat64: the raw bits of the double. */
    method ReadFloat64() returns (r: Result<int64>)
      requires Valid()
      modifies input
      ensures Agrees(r, RawInt64(old(input.rest)), old(input.rest), input.rest)
    {
      r := primitives.ReadDouble();
    }

    /** readString, giving the UTF-8 bytes of the string or null. */
    method ReadString() returns (r: Result<Option<seq<uint8>>>)
      requires Valid()
      modifies input
      ensures Agrees(r, DecodeString(Additive, old(input.rest)), old(input.rest), input.rest)
    {
      ghost var s := input.rest;
      var t :- Read();
      if t == NULL {
        return Ok(None);
      } else if t == STRING {
        var length :- ReadLength();
        ghost var start := 1 + AdditiveLength(s[1..]).value.size;
        assert input.rest == s[start..];
        if length == 0 {
          assert s[start..start + length] == [];
          return Ok(Some([]));
        }
        var tmp := new uint8[length];
        var o := ReadInto(tmp, length);
        if o.Fail? {
          return Err(o.error);
        }
        assert tmp[..] == tmp[..length] == s[start..start + length];
        return Ok(Some(tmp[..]));
      } else {
        return Err(NotAString(t));
      }
    }

    method ReadByte() returns (r: Result<int8>)
      requires Valid()
      modifies input
      ensures Agrees(r, DecodeByte(old(input.rest)), old(input.rest), input.rest)
    {
      var t :- Read();
      if t != BYTE {
        return Err(NotAByte(t));
      }
      var b :- Read();
      return Ok(ToInt8(b));
    }

    method ReadChar() returns (r: Result<char16>)
      requires Valid()
      modifies input
      ensures Agrees(r, DecodeChar(old(input.rest)), old(input.rest), input.rest)
    {
      var t :- Read();
      if t == BYTE {
        var b :- Read();
        return Ok(ToChar(b));
      } else if t == CHAR {
        var v :- ReadInt16();
        return Ok(ToChar(v));
      } else {
        return Err(NotCharCompatible(t));
      }
    }

    method ReadShort() returns (r: Result<int16>)
      requires Valid()
      modifies input
      ensures Agrees(r, DecodeShort(old(input.rest)), old(input.rest), input.rest)
    {
      var t :- Read();
      if t == BYTE {
        var b :- Read();
        return Ok(b);
      } else if t == SHORT {
        r := ReadInt16();
      } else {
        return Err(NotShortCompatible(t));
      }
    }

    /** readInt: a BYTE entry is widened through `(short) read()`. */
    method ReadInt() returns (r: Result<int32>)
      requires Valid()
      modifies input
      ensures Agrees(r, DecodeInt(old(input.rest)), old(input.rest), input.rest)
    {
      var t :- Read();
      if t == BYTE {
        var b :- Read();
        return Ok(b);
      } else if t == SHORT {
        var v :- ReadInt16();
        return Ok(v);
      } else if t == INT {
        r := ReadInt32();
      } else {
        return Err(NotIntCompatible(t));
      }
    }

    method ReadLong() returns (r: Result<int64>)
      requires Valid()
      modifies input
      ensures Agrees(r, DecodeLong(old(input.rest)), old(input.rest), input.rest)
    {
      var t :- Read();
      if t == BYTE {
        var b :- Read();
        return Ok(b);
      } else if t == SHORT {
        var v :- ReadInt16();
        return Ok(v);
      } else if t == INT {
        var v :- ReadInt32();
        return Ok(v);
      } else if t == LONG {
        r := ReadInt64();
      } else {
        return Err(NotIntCompatible(t));
      }
    }

    /** readFloat: exactly FLOAT, then the raw bits. */
    method ReadFloat() returns (r: Result<int32>)
      requires Valid()
      modifies input
      ensures Agrees(r, DecodeFloat(old(input.rest)), old(input.rest), input.rest)
    {
      var t :- Read();
      if t != FLOAT {
        return Err(NotAFloat(t));
      }
      r := ReadFloat32();
    }

    /** readDouble: exactly DOUBLE, then the raw bits. */
    method ReadDouble() returns (r: Result<int64>)
      requires Valid()
      modifies input
      ensures Agrees(r, DecodeDouble(old(input.rest)), old(input.rest), input.rest)
    {
      var t :- Read();
      if t != DOUBLE {
        return Err(NotADouble(t));
      }
      r := ReadFloat64();
    }

    /** userTypeInput.read(this, clazz): the callback reads its fields and
        leaves the cursor after them. */
    method ReadFields() returns (r: Result<T>)
      requires Valid()
      modifies input
      ensures Agrees(r, RunFields(fields, old(input.rest)), old(input.rest), input.rest)
    {
      match fields(input.rest)
      case Err(e) =>
        return Err(e);
      case Ok(d) =>
        if |input.rest| < d.size {
          return Err(EndOfInput);
        }
        input.Skip(d.size);
        return Ok(d.value);
    }

    /** readObject: USER_TYPE, then the value. */
    method ReadObject() returns (r: Result<T>)
      requires Valid()
      modifies input
      ensures Agrees(r, DecodeObject(fields, old(input.rest)), old(input.rest), input.rest)
    {
      var t :- Read();
      if t != USER_TYPE {
        return Err(NotAUserType(t));
      }
      r := ReadObjectValue();
    }

    /** readObjectValue: the fields, then END_MARKER. */
    method ReadObjectValue() returns (r: Result<T>)
      requires Valid()
      modifies input
      ensures Agrees(r, DecodeObjectValue(fields, old(input.rest)), old(input.rest), input.rest)
    {
      var v :- ReadFields();
      var endMarker :- Read();
      if endMarker != END_MARKER {
        return Err(ExpectedEndMarker(endMarker));
      }
      return Ok(v);
    }

    /** `ensureArray(read(), expectedSubType)` followed by readLength(), as
        every array reader starts. */
    method ReadArrayHeader(expectedSubType: int) returns (r: Result<int32>)
      requires Valid()
      modifies input
      ensures Agrees(r, DecodeArrayHeader(Additive, expectedSubType, old(input.rest)), old(input.rest), input.rest)
    {
      var t :- Read();
      var ok := EnsureArray(t, expectedSubType);
      if ok.Fail? {
        return Err(ok.error);
      }
      r := ReadLength();
    }

    /** readByteArray: the header, then one bulk read. */
    method ReadByteArray() returns (r: Result<array<uint8>>)
      requires Valid()
      modifies input
      ensures r.Ok? ==> fresh(r.value)
      ensures Agrees<seq<int>, uint8>(Items(r), DecodeArray(Additive, KByte, old(input.rest)), old(input.rest), input.rest)
    {
      ghost var s := input.rest;
      var length :- ReadArrayHeader(BYTE);
      ghost var mid := input.rest;
      var result := new uint8[length];
      var o := ReadInto(result, length);
      if o == Pass {
        ByteElements(mid, length);
        assert result[..] == result[..length];
      }
      ArrayRead(Additive, KByte, s, mid, input.rest, length, o, result[..]);
      if o.Fail? {
        return Err(o.error);
      }
      return Ok(result);
    }

    /** readCharArray: the header, then `length` elements. */
    method ReadCharArray() returns (r: Result<array<char16>>)
      requires Valid()
      modifies input
      ensures r.Ok? ==> fresh(r.value)
      ensures Agrees<seq<int>, uint8>(Items(r), DecodeArray(Additive, KChar, old(input.rest)), old(input.rest), input.rest)
    {
      ghost var s := input.rest;
      var length :- ReadArrayHeader(CHAR);
      ghost var mid := input.rest;
      var result := new char16[length];
      var o := ReadCharElements(primitives, result);
      ArrayRead(Additive, KChar, s, mid, input.rest, length, o, result[..]);
      if o.Fail? {
        return Err(o.error);
      }
      return Ok(result);
    }

    /** readShortArray: the header, then `length` elements. */
    method ReadShortArray() returns (r: Result<array<int16>>)
      requires Valid()
      modifies input
      ensures r.Ok? ==> fresh(r.value)
      ensures Agrees<seq<int>, uint8>(Items(r), DecodeArray(Additive, KShort, old(input.rest)), old(input.rest), input.rest)
    {
      ghost var s := input.rest;
      var length :- ReadArrayHeader(SHORT);
      ghost var mid := input.rest;
      var result := new int16[length];
      var o := ReadShortElements(primitives, result);
      ArrayRead(Additive, KShort, s, mid, input.rest, length, o, result[..]);
      if o.Fail? {
        return Err(o.error);
      }
      return Ok(result);
    }

    /** readIntArray: the header, then `length` elements. */
    method ReadIntArray() returns (r: Result<array<int32>>)
      requires Valid()
      modifies input
      ensures r.Ok? ==> fresh(r.value)
      ensures Agrees<seq<int>, uint8>(Items(r), DecodeArray(Additive, KInt, old(input.rest)), old(input.rest), input.rest)
    {
      ghost var s := input.rest;
      var length :- ReadArrayHeader(INT);
      ghost var mid := input.rest;
      var result := new int32[length];
      var o := ReadIntElements(primitives, result);
      ArrayRead(Additive, KInt, s, mid, input.rest, length, o, result[..]);
      if o.Fail? {
        return Err(o.error);
      }
      return Ok(result);
    }

    /** readLongArray: the header, then `length` elements. */
    method ReadLongArray() returns (r: Result<array<int64>>)
      requires Valid()
      modifies input
      ensures r.Ok? ==> fresh(r.value)
      ensures Agrees<seq<int>, uint8>(Items(r), DecodeArray(Additive, KLong, old(input.rest)), old(input.rest), input.rest)
    {
      ghost var s := input.rest;
      var length :- ReadArrayHeader(LONG);
      ghost var mid := input.rest;
      var result := new int64[length];
      var o := ReadLongElements(primitives, result);
      ArrayRead(Additive, KLong, s, mid, input.rest, length, o, result[..]);
      if o.Fail? {
        return Err(o.error);
      }
      return Ok(result);
    }

    /** readFloatArray: the header, then `length` elements. */
    method ReadFloatArray() returns (r: Result<array<int32>>)
      requires Valid()
      modifies input
      ensures r.Ok? ==> fresh(r.value)
      ensures Agrees<seq<int>, uint8>(Items(r), DecodeArray(Additive, KFloat, old(input.rest)), old(input.rest), input.rest)
    {
      ghost var s := input.rest;
      var length :- ReadArrayHeader(FLOAT);
      ghost var mid := input.rest;
      var result := new int32[length];
      var o := ReadFloatElements(primitives, result);
      ArrayRead(Additive, KFloat, s, mid, input.rest, length, o, result[..]);
      if o.Fail? {
        return Err(o.error);
      }
      return Ok(result);
    }

    /** readDoubleArray: the header, then `length` elements. */
    method ReadDoubleArray() returns (r: Result<array<int64>>)
      requires Valid()
      modifies input
      ensures r.Ok? ==> fresh(r.value)
      ensures Agrees<seq<int>, uint8>(Items(r), DecodeArray(Additive, KDouble, old(input.rest)), old(input.rest), input.rest)
    {
      ghost var s := input.rest;
      var length :- ReadArrayHeader(DOUBLE);
      ghost var mid := input.rest;
      var result := new int64[length];
      var o := ReadDoubleElements(primitives, result);
      ArrayRead(Additive, KDouble, s, mid, input.rest, length, o, result[..]);
      if o.Fail? {
        return Err(o.error);
      }
      return Ok(result);
    }

    /** readObjectArray: the header, then `length` values in a new array of
        references. */
    method ReadObjectArray() returns (r: Result<array<Option<T>>>)
      requires Valid()
      modifies input
      ensures r.Ok? ==> fresh(r.value)
      ensures Agrees(Items(r), Filled(DecodeObjectArray(Additive, fields, old(input.rest))), old(input.rest), input.rest)
    {
      ghost var s := input.rest;
      var length :- ReadArrayHeader(USER_TYPE);
      ghost var mid := input.rest;
      var result := new Option<T>[length](_ => None);
      var o := ReadValues(result);
      ObjectArrayRead(Additive, fields, s, mid, input.rest, length, o, result[..]);
      if o.Fail? {
        return Err(o.error);
      }
      return Ok(result);
    }

    /** The for-loop of readObjectArray. */
    method ReadValues(result: array<Option<T>>) returns (r: Outcome)
      requires Valid()
      modifies input, result
      ensures Completes(r, DecodeValues(fields, old(input.rest), result.Length), old(input.rest), input.rest)
      ensures r == Pass ==> result[..] == Present(DecodeValues(fields, old(input.rest), result.Length).value.value)
    {
      ghost var s := input.rest;
      ghost var vals: seq<T> := [];
      ghost var used: nat := 0;
      for i := 0 to result.Length
        invariant DecodeValues(fields, s, i) == Ok(Decoded(vals, used))
        invariant used <= |s| && input.rest == s[used..]
        invariant |vals| == i && forall j :: 0 <= j < i ==> result[j] == Some(vals[j])
      {
        var v := ReadObjectValue();
        if v.Err? {
          ValuesFail(fields, s, i, result.Length, vals, used);
          return Fail(v.error);
        }
        ghost var d := DecodeObjectValue(fields, s[used..]).value;
        ValuesReadSnoc(fields, s, i, vals, used, d);
        SliceSlice(s, used, d.size);
        result[i] := Some(v.value);
        vals := vals + [v.value];
        used := used + d.size;
      }
      assert result[..] == Present(vals);
      return Pass;
    }

    /** ensureArray: passes exactly for the array tag of the expected kind. */
    method EnsureArray(value: uint8, expectedSubType: int) returns (r: Outcome)
      ensures r == Pass <==> value == ARRAY + 16 * expectedSubType
      ensures r == CheckArray(value, expectedSubType)
    {
      if !IsArray(value) {
        return Fail(NotAnArray(value));
      }
      if SubType(value) != expectedSubType {
        return Fail(ItemTypeMismatch(value));
      }
      return Pass;
    }
  }
}
