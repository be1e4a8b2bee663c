/** SimpleWritableMedia: the tagged writer of the current format. Every
    method appends its entry to the BinaryOutput; what it appends is the
    Encoding function of the value written. */
module WritableMedia {
  import opened Bytes
  import opened Failures
  import opened Types
  import opened Packing
  import opened Encoding
  import opened Streams
  import opened PrimitiveOutput

  /** A Java array reference: null, or the elements it holds. */
  function Contents<X>(a: array?<X>): (r: Option<seq<X>>)
    reads a
    ensures r.None? <==> a == null
    ensures a != null ==> r.value == a[..]
  {
    if a == null then None else Some(a[..])
  }

  /** The writer over an output and a user-type writer `fields`. The private
      write/writeLength/writeIntN helpers of the class are the code of
      DefaultPrimitiveBinaryOutput, so the media writes through one of those
      around the same output. */
  class SimpleWritableMedia<T> {
    const out: Output
    const primitives: DefaultPrimitiveBinaryOutput
    const fields: T -> seq<uint8>

    ghost predicate Valid()
    {
      primitives.out == out
    }

    constructor (out: Output, fields: T -> seq<uint8>)
      ensures Valid() && this.out == out && this.fields == fields
    {
      this.out := out;
      this.fields := fields;
      primitives := new DefaultPrimitiveBinaryOutput(out);
    }

    method WriteType(t: uint8)
      requires Valid()
      modifies out
      ensures out.bytes == old(out.bytes) + [t]
    {
      primitives.Write(t);
    }

    method WriteNull()
      requires Valid()
      modifies out
      ensures out.bytes == old(out.bytes) + [NULL]
    {
      WriteType(NULL);
    }

    /** writeString, given the UTF-8 bytes of the string or null. */
    method WriteString(value: Option<seq<uint8>>)
      requires Valid()
      requires value.Some? ==> |value.value| < 0x8000_0000
      modifies out
      ensures out.bytes == old(out.bytes) + StringEntry(value)
    {
      if value.None? {
        WriteNull();
      } else {
        WriteType(STRING);
        var b := value.value;
        if |b| == 0 {
          var _ := primitives.WriteLength(0);
        } else {
          var bytes := new uint8[|b|](i requires 0 <= i < |b| => b[i]);
          assert bytes[..] == b;
          var _ := primitives.WriteLength(bytes.Length);
          var _ := primitives.WriteArray(bytes, 0, bytes.Length);
        }
      }
    }

    method WriteByte(value: int8)
      requires Valid()
      modifies out
      ensures out.bytes == old(out.bytes) + ByteEntry(value)
    {
      WriteType(BYTE);
      primitives.Write(value);
    }

    method WriteChar(value: char16)
      requires Valid()
      modifies out
      ensures out.bytes == old(out.bytes) + CharEntry(value)
    {
      if value <= 127 {
        WriteByte(ToInt8(value));
      } else {
        WriteType(CHAR);
        primitives.WriteInt16(value);
      }
    }

    method WriteShort(value: int16)
      requires Valid()
      modifies out
      ensures out.bytes == old(out.bytes) + ShortEntry(value)
    {
      if -128 < value <= 127 {
        WriteByte(value);
      } else {
        WriteType(SHORT);
        primitives.WriteInt16(value);
      }
    }

    method WriteInt(value: int32)
      requires Valid()
      modifies out
      ensures out.bytes == old(out.bytes) + IntEntry(value)
    {
      if -0x8000 <= value <= 0x7FFF {
        WriteShort(value);
      } else {
        WriteType(INT);
        primitives.WriteInt32(value);
      }
    }

    method WriteLong(value: int64)
      requires Valid()
      modifies out
      ensures out.bytes == old(out.bytes) + LongEntry(value)
    {
      if -0x8000_0000 <= value <= 0x7FFF_FFFF {
        WriteInt(value);
      } else {
        WriteType(LONG);
        primitives.WriteInt64(value);
      }
    }

    /** writeFloat, given the raw bits of the float. */
    method WriteFloat(bits: int32)
      requires Valid()
      modifies out
      ensures out.bytes == old(out.bytes) + FloatEntry(bits)
    {
      WriteType(FLOAT);
      primitives.WriteFloat(bits);
    }

    /** writeDouble, given the raw bits of the double. */
    method WriteDouble(bits: int64)
      requires Valid()
      modifies out
      ensures out.bytes == old(out.bytes) + DoubleEntry(bits)
    {
      WriteType(DOUBLE);
      primitives.WriteDouble(bits);
    }

    /** writeValue: the user-type writer's bytes, then END_MARKER. */
    method WriteValue(value: Option<T>)
      requires Valid()
      modifies out
      ensures out.bytes == old(out.bytes) + ValueEntry(value, fields)
    {
      if value.None? {
        WriteNull();
      } else {
        out.WriteAll(fields(value.value));
        WriteType(END_MARKER);
      }
    }

    method WriteObject(value: Option<T>)
      requires Valid()
      modifies out
      ensures out.bytes == old(out.bytes) + ObjectEntry(value, fields)
    {
      if value.None? {
        WriteNull();
      } else {
        WriteType(USER_TYPE);
        WriteValue(value);
      }
    }

    /** The tag and the count that open a non-null array. */
    method WriteArrayHeader(k: Kind, count: nat)
      requires Valid() && count < 0x8000_0000
      modifies out
      ensures out.bytes == old(out.bytes) + [ArrayTag(k)] + PackedLength(count)
    {
      ArrayTagIsTypesArray(k);
      WriteType(Types.Array(KindTag(k)).value);
      var _ := primitives.WriteLength(count);
    }

    /** writeByteArray: the bytes in one bulk write. */
    method WriteByteArray(value: array?<uint8>)
      requires Valid()
      requires value != null ==> value.Length < 0x8000_0000
      modifies out
      ensures out.bytes == old(out.bytes) + ArrayEntry(KByte, Contents(value))
    {
      if value == null {
        WriteNull();
        return;
      }
      WriteArrayHeader(KByte, value.Length);
      ghost var header := out.bytes;
      var _ := primitives.WriteArray(value, 0, value.Length);
      assert out.bytes == header + Payload(KByte, value[..]) by {
        assert value[0..value.Length] == value[..];
        BytePayload(value[..]);
      }
      ArrayAssembled(KByte, value[..], old(out.bytes), out.bytes);
    }

    /** writeCharArray: each char through `writeInt16((short) c)`. */
    method WriteCharArray(value: array?<char16>)
      requires Valid()
      requires value != null ==> value.Length < 0x8000_0000
      modifies out
      ensures out.bytes == old(out.bytes) + ArrayEntry(KChar, Contents(value))
    {
      if value == null {
        WriteNull();
        return;
      }
      WriteArrayHeader(KChar, value.Length);
      WriteCharElements(primitives, value);
      ArrayAssembled(KChar, value[..], old(out.bytes), out.bytes);
    }

    /** writeShortArray: each element through writeInt16. */
    method WriteShortArray(value: array?<int16>)
      requires Valid()
      requires value != null ==> value.Length < 0x8000_0000
      modifies out
      ensures out.bytes == old(out.bytes) + ArrayEntry(KShort, Contents(value))
    {
      if value == null {
        WriteNull();
        return;
      }
      WriteArrayHeader(KShort, value.Length);
      WriteShortElements(primitives, value);
      ArrayAssembled(KShort, value[..], old(out.bytes), out.bytes);
    }

    /** writeIntArray: each element through writeInt32. */
    method WriteIntArray(value: array?<int32>)
      requires Valid()
      requires value != null ==> value.Length < 0x8000_0000
      modifies out
      ensures out.bytes == old(out.bytes) + ArrayEntry(KInt, Contents(value))
    {
      if value == null {
        WriteNull();
        return;
      }
      WriteArrayHeader(KInt, value.Length);
      WriteIntElements(primitives, value);
      ArrayAssembled(KInt, value[..], old(out.bytes), out.bytes);
    }

    /** writeLongArray: each element through writeInt64. */
    method WriteLongArray(value: array?<int64>)
      requires Valid()
      requires value != null ==> value.Length < 0x8000_0000
      modifies out
      ensures out.bytes == old(out.bytes) + ArrayEntry(KLong, Contents(value))
    {
      if value == null {
        WriteNull();
        return;
      }
      WriteArrayHeader(KLong, value.Length);
      WriteLongElements(primitives, value);
      ArrayAssembled(KLong, value[..], old(out.bytes), out.bytes);
    }

    /** writeFloatArray, given the raw bits of the floats. */
    method WriteFloatArray(value: array?<int32>)
      requires Valid()
      requires value != null ==> value.Length < 0x8000_0000
      modifies out
      ensures out.bytes == old(out.bytes) + ArrayEntry(KFloat, Contents(value))
    {
      if value == null {
        WriteNull();
        return;
      }
      WriteArrayHeader(KFloat, value.Length);
      WriteFloatElements(primitives, value);
      ArrayAssembled(KFloat, value[..], old(out.bytes), out.bytes);
    }

    /** writeDoubleArray, given the raw bits of the doubles. */
    method WriteDoubleArray(value: array?<int64>)
      requires Valid()
      requires value != null ==> value.Length < 0x8000_0000
      modifies out
      ensures out.bytes == old(out.bytes) + ArrayEntry(KDouble, Contents(value))
    {
      if value == null {
        WriteNull();
        return;
      }
      WriteArrayHeader(KDouble, value.Length);
      WriteDoubleElements(primitives, value);
      ArrayAssembled(KDouble, value[..], old(out.bytes), out.bytes);
    }

    /** writeObjectArray: each element through writeValue. */
    method WriteObjectArray(value: array?<Option<T>>)
      requires Valid()
      requires value != null ==> value.Length < 0x8000_0000
      modifies out
      ensures out.bytes == old(out.bytes) + ObjectArrayEntry(Contents(value), fields)
    {
      if value == null {
        WriteNull();
        return;
      }
      ObjectArrayTagIsTypesArray();
      WriteType(Types.Array(USER_TYPE).value);
      var _ := primitives.WriteLength(value.Length);
      WriteValues(value);
      ObjectArrayAssembled(value[..], fields, old(out.bytes), out.bytes);
    }

    /** The for-each loop of writeObjectArray. */
    method WriteValues(value: array<Option<T>>)
      requires Valid()
      modifies out
      ensures out.bytes == old(out.bytes) + Values(value[..], fields)
    {
      for i := 0 to value.Length
        invariant out.bytes == old(out.bytes) + Values(value[..i], fields)
      {
        ghost var before := out.bytes;
        WriteValue(value[i]);
        ValuesStep(value[..], i, fields, old(out.bytes), before, out.bytes);
      }
      assert value[..value.Length] == value[..];
    }

    /** writeRest is not implemented: it throws and writes nothing. */
    method WriteRest(blob: array?<uint8>) returns (r: Outcome)
      requires Valid()
      modifies out
      ensures r == Fail(Unsupported) && out.bytes == old(out.bytes)
    {
      r := Fail(Unsupported);
    }
  }

  /** The for-each loop of writeCharArray: each char through `writeInt16((short) c)`. */
  method WriteCharElements(primitives: DefaultPrimitiveBinaryOutput, value: array<char16>)
    modifies primitives.out
    ensures primitives.out.bytes == old(primitives.out.bytes) + Payload(KChar, value[..])
  {
    for i := 0 to value.Length
      invariant primitives.out.bytes == old(primitives.out.bytes) + Payload(KChar, value[..i])
    {
      ghost var before := primitives.out.bytes;
      primitives.WriteInt16(ToInt16(value[i]));
      LE16Cast(value[i]);
      PayloadStep(KChar, value[..], i, old(primitives.out.bytes), before, primitives.out.bytes);
    }
    assert value[..value.Length] == value[..];
  }

  /** The for-each loop of writeShortArray: each element through writeInt16. */
  method WriteShortElements(primitives: DefaultPrimitiveBinaryOutput, value: array<int16>)
    modifies primitives.out
    ensures primitives.out.bytes == old(primitives.out.bytes) + Payload(KShort, value[..])
  {
    for i := 0 to value.Length
      invariant primitives.out.bytes == old(primitives.out.bytes) + Payload(KShort, value[..i])
    {
      ghost var before := primitives.out.bytes;
      primitives.WriteInt16(value[i]);
      PayloadStep(KShort, value[..], i, old(primitives.out.bytes), before, primitives.out.bytes);
    }
    assert value[..value.Length] == value[..];
  }

  /** The for-each loop of writeIntArray: each element through writeInt32. */
  method WriteIntElements(primitives: DefaultPrimitiveBinaryOutput, value: array<int32>)
    modifies primitives.out
    ensures primitives.out.bytes == old(primitives.out.bytes) + Payload(KInt, value[..])
  {
    for i := 0 to value.Length
      invariant primitives.out.bytes == old(primitives.out.bytes) + Payload(KInt, value[..i])
    {
      ghost var before := primitives.out.bytes;
      primitives.WriteInt32(value[i]);
      PayloadStep(KInt, value[..], i, old(primitives.out.bytes), before, primitives.out.bytes);
    }
    assert value[..value.Length] == value[..];
  }

  /** The for-each loop of writeLongArray: each element through writeInt64. */
  method WriteLongElements(primitives: DefaultPrimitiveBinaryOutput, value: array<int64>)
    modifies primitives.out
    ensures primitives.out.bytes == old(primitives.out.bytes) + Payload(KLong, value[..])
  {
    for i := 0 to value.Length
      invariant primitives.out.bytes == old(primitives.out.bytes) + Payload(KLong, value[..i])
    {
      ghost var before := primitives.out.bytes;
      primitives.WriteInt64(value[i]);
      PayloadStep(KLong, value[..], i, old(primitives.out.bytes), before, primitives.out.bytes);
    }
    assert value[..value.Length] == value[..];
  }

  /** The for-each loop of writeFloatArray: each raw bit pattern through writeFloat. */
  method WriteFloatElements(primitives: DefaultPrimitiveBinaryOutput, value: array<int32>)
    modifies primitives.out
    ensures primitives.out.bytes == old(primitives.out.bytes) + Payload(KFloat, value[..])
  {
    for i := 0 to value.Length
      invariant primitives.out.bytes == old(primitives.out.bytes) + Payload(KFloat, value[..i])
    {
      ghost var before := primitives.out.bytes;
      primitives.WriteFloat(value[i]);
      PayloadStep(KFloat, value[..], i, old(primitives.out.bytes), before, primitives.out.bytes);
    }
    assert value[..value.Length] == value[..];
  }

  /** The for-each loop of writeDoubleArray: each raw bit pattern through writeDouble. */
  method WriteDoubleElements(primitives: DefaultPrimitiveBinaryOutput, value: array<int64>)
    modifies primitives.out
    ensures primitives.out.bytes == old(primitives.out.bytes) + Payload(KDouble, value[..])
  {
    for i := 0 to value.Length
      invariant primitives.out.bytes == old(primitives.out.bytes) + Payload(KDouble, value[..i])
    {
      ghost var before := primitives.out.bytes;
      primitives.WriteDouble(value[i]);
      PayloadStep(KDouble, value[..], i, old(primitives.out.bytes), before, primitives.out.bytes);
    }
    assert value[..value.Length] == value[..];
  }

  /** One more element written by an array writer's loop. */
  lemma PayloadStep(k: Kind, xs: seq<int>, i: nat, header: seq<uint8>, before: seq<uint8>, after: seq<uint8>)
    requires i < |xs|
    requires before == header + Payload(k, xs[..i])
    requires after == before + EncodeElement(k, xs[i])
    ensures after == header + Payload(k, xs[..i + 1])
  {
    var a, b := Payload(k, xs[..i]), EncodeElement(k, xs[i]);
    PrefixSnoc(xs, i);
    PayloadSnoc(k, xs[..i], xs[i]);
    Regrouped(header, a, b, []);
  }

  /** One more element written by writeObjectArray's loop. */
  lemma ValuesStep<T>(xs: seq<Option<T>>, i: nat, fields: T -> seq<uint8>,
                      header: seq<uint8>, before: seq<uint8>, after: seq<uint8>)
    requires i < |xs|
    requires before == header + Values(xs[..i], fields)
    requires after == before + ValueEntry(xs[i], fields)
    ensures after == header + Values(xs[..i + 1], fields)
  {
    var a, b := Values(xs[..i], fields), ValueEntry(xs[i], fields);
    PrefixSnoc(xs, i);
    ValuesSnoc(xs[..i], xs[i], fields);
    Regrouped(header, a, b, []);
  }

  /** The header and the elements, written one after the other, make the
      array entry. */
  lemma ArrayAssembled(k: Kind, xs: seq<int>, start: seq<uint8>, done: seq<uint8>)
    requires done == start + [ArrayTag(k)] + PackedLength(|xs|) + Payload(k, xs)
    ensures done == start + ArrayEntry(k, Some(xs))
  {
    Regrouped(start, [ArrayTag(k)], PackedLength(|xs|), Payload(k, xs));
  }

  lemma ObjectArrayAssembled<T>(xs: seq<Option<T>>, fields: T -> seq<uint8>, start: seq<uint8>, done: seq<uint8>)
    requires done == start + [ARRAY + 16 * USER_TYPE] + PackedLength(|xs|) + Values(xs, fields)
    ensures done == start + ObjectArrayEntry(Some(xs), fields)
  {
    Regrouped(start, [ARRAY + 16 * USER_TYPE], PackedLength(|xs|), Values(xs, fields));
  }

  lemma PrefixSnoc<X>(xs: seq<X>, i: nat)
    requires i < |xs|
    ensures xs[..i + 1] == xs[..i] + [xs[i]]
  {
  }

  lemma PrefixSuffix<X>(xs: seq<X>, j: nat)
    requires j <= |xs|
    ensures xs == xs[..j] + xs[j..]
  {
  }

  lemma Regrouped(s: seq<uint8>, a: seq<uint8>, b: seq<uint8>, c: seq<uint8>)
    ensures s + a + b + c == s + (a + b + c)
  {
  }

  /** A byte array's payload is its bytes. */
  lemma {:induction false} BytePayload(xs: seq<uint8>)
    ensures Payload(KByte, xs) == xs
    decreases |xs|
  {
    if |xs| > 0 {
      BytePayload(xs[1..]);
      assert [xs[0]] + xs[1..] == xs;
    }
  }
}
