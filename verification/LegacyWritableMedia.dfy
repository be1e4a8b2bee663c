/** AbstractWritableMedia of the older org.uze snapshot: the same tagged
    writer as the current one, except that every tag goes through a checked
    putType, that user types are printed by a Printable value or a resolved
    printer (and fail when there is none), and that objects end without
    END_MARKER. */
module LegacyWritableMedia {
  import opened Bytes
  import opened Failures
  import opened Types
  import opened Packing
  import opened Encoding
  import opened Decoding
  import opened Streams
  import opened PrimitiveOutput
  import opened WritableMedia
  import opened RoundTrips

  /** putType(type, subType): both must fit the low nibble; the tag byte
      carries the type in its low nibble and the subtype in its high one. */
  function TypeByte(t: int8, subType: int8): (r: Result<uint8>)
    ensures r.Ok? <==> 0 <= t <= MASK && 0 <= subType <= MASK
    ensures r.Ok? ==> LowNibble(r.value) == t && SubType(r.value) == subType
    ensures r.Err? ==> r.error == IllegalArgument
  {
    if LowNibble(t) != t || LowNibble(subType) != subType then Err(IllegalArgument)
    else Ok(t + 16 * subType)
  }

  /** The checked tag agrees with the current writer: a kind on its own is
      its own tag byte, and an array tag is what Types.array computes. */
  lemma {:induction false} TypeByteAgrees(t: int8, subType: int8)
    ensures 0 <= t <= MASK ==> TypeByte(t, 0) == Ok(t)
    ensures TypeByte(ARRAY, subType) == Types.Array(subType)
  {
    if 0 <= t <= MASK {
      assert LowNibble(t) == t && LowNibble(0) == 0;
    }
    if 0 <= subType <= MASK {
      assert LowNibble(subType) == subType;
    } else {
      assert LowNibble(subType) != subType;
    }
  }

  /** What a legacy write appends, and whether it ends with an exception. */
  datatype Written = Written(bytes: seq<uint8>, outcome: Outcome)

  /** putValue: NULL for null; otherwise what the value prints itself as
      (a Printable) or what the resolved printer prints; with no printer
      the IOException comes before anything is written. `printer` gives
      None exactly when the value is not Printable and resolve finds no
      printer. */
  function ValueWritten<T>(v: Option<T>, printer: T -> Option<seq<uint8>>): (w: Written)
    ensures w.outcome == Pass <==> v.None? || printer(v.value).Some?
    ensures w.outcome.Fail? ==> w == Written([], Fail(NoPrinter))
    ensures w.outcome == Pass && v.Some? ==> w.bytes == printer(v.value).value
    ensures v.None? ==> w.bytes == [NULL]
  {
    match v
    case None => Written([NULL], Pass)
    case Some(x) =>
      match printer(x)
      case None => Written([], Fail(NoPrinter))
      case Some(b) => Written(b, Pass)
  }

  /** putObject: NULL for null; otherwise USER_TYPE, then putValue. There is
      no END_MARKER; a missing printer fails after the USER_TYPE byte. */
  function ObjectWritten<T>(v: Option<T>, printer: T -> Option<seq<uint8>>): (w: Written)
  {
    match v
    case None => Written([NULL], Pass)
    case Some(_) =>
      var e := ValueWritten(v, printer);
      Written([USER_TYPE] + e.bytes, e.outcome)
  }

  /** The first write, then the second unless the first threw. */
  function AndThen(a: Written, b: Written): Written
  {
    if a.outcome.Fail? then a else Written(a.bytes + b.bytes, b.outcome)
  }

  /** The for-each loop of putObjectArray: putValue for each element until
      one of them throws. */
  function ValuesWritten<T>(xs: seq<Option<T>>, printer: T -> Option<seq<uint8>>): Written
  {
    if |xs| == 0 then Written([], Pass)
    else AndThen(ValueWritten(xs[0], printer), ValuesWritten(xs[1..], printer))
  }

  /** putObjectArray: NULL for null; otherwise the USER_TYPE array tag, the
      packed length, then the values. */
  function ObjectArrayWritten<T>(xs: Option<seq<Option<T>>>, printer: T -> Option<seq<uint8>>): (w: Written)
  {
    match xs
    case None => Written([NULL], Pass)
    case Some(a) =>
      var vs := ValuesWritten(a, printer);
      Written([ARRAY + 16 * USER_TYPE] + PackedLength(|a|) + vs.bytes, vs.outcome)
  }

  /** One turn of putObjectArray's loop: a value that throws ends the loop
      with what was written before it; otherwise its bytes are appended. */
  lemma WrittenStep<T>(xs: seq<Option<T>>, i: nat, printer: T -> Option<seq<uint8>>, written: seq<uint8>)
    requires i < |xs| && ValuesWritten(xs[..i], printer) == Written(written, Pass)
    ensures ValueWritten(xs[i], printer).outcome.Fail? ==>
              ValuesWritten(xs, printer) == Written(written, ValueWritten(xs[i], printer).outcome)
    ensures ValueWritten(xs[i], printer).outcome == Pass ==>
              ValuesWritten(xs[..i + 1], printer) == Written(written + ValueWritten(xs[i], printer).bytes, Pass)
  {
    var v := ValueWritten(xs[i], printer);
    PrefixSnoc(xs, i);
    WrittenAppend(xs[..i], [xs[i]], printer);
    OneValue(xs[i], printer);
    assert ValuesWritten(xs[..i + 1], printer) == AndThen(Written(written, Pass), v);
    if v.outcome.Fail? {
      PrefixSuffix(xs, i + 1);
      WrittenAppend(xs[..i + 1], xs[i + 1..], printer);
    }
  }

  /** A run of one value is that value's putValue. */
  lemma OneValue<T>(x: Option<T>, printer: T -> Option<seq<uint8>>)
    ensures ValuesWritten([x], printer) == ValueWritten(x, printer)
  {
    var v := ValueWritten(x, printer);
    assert [x][1..] == [];
    assert v.bytes + [] == v.bytes;
  }

  /** Every element can be printed. */
  ghost predicate Printable<T>(xs: seq<Option<T>>, printer: T -> Option<seq<uint8>>)
  {
    forall i :: 0 <= i < |xs| && xs[i].Some? ==> printer(xs[i].value).Some?
  }

  /** Writing two runs of values is writing the first, then the second
      unless the first threw. */
  lemma {:induction false} WrittenAppend<T>(a: seq<Option<T>>, b: seq<Option<T>>, printer: T -> Option<seq<uint8>>)
    ensures ValuesWritten(a + b, printer) == AndThen(ValuesWritten(a, printer), ValuesWritten(b, printer))
    decreases |a|
  {
    if |a| > 0 {
      assert (a + b)[1..] == a[1..] + b;
      WrittenAppend(a[1..], b, printer);
      var e := ValueWritten(a[0], printer);
      var x, y := ValuesWritten(a[1..], printer), ValuesWritten(b, printer);
      if e.outcome == Pass && x.outcome == Pass {
        assert e.bytes + (x.bytes + y.bytes) == e.bytes + x.bytes + y.bytes;
      }
    } else {
      assert a + b == b;
    }
  }

  /** The value loop completes exactly when every element can be printed,
      and otherwise fails for want of a printer. */
  lemma {:induction false} ValuesCompleteIff<T>(xs: seq<Option<T>>, printer: T -> Option<seq<uint8>>)
    ensures ValuesWritten(xs, printer).outcome == Pass <==> Printable(xs, printer)
    ensures ValuesWritten(xs, printer).outcome.Fail? ==> ValuesWritten(xs, printer).outcome == Fail(NoPrinter)
    decreases |xs|
  {
    if |xs| > 0 {
      ValuesCompleteIff(xs[1..], printer);
      if Printable(xs, printer) {
        assert Printable(xs[1..], printer) by {
          forall i | 0 <= i < |xs[1..]| && xs[1..][i].Some?
            ensures printer(xs[1..][i].value).Some?
          {
            assert xs[1..][i] == xs[i + 1];
          }
        }
      } else if ValueWritten(xs[0], printer).outcome == Pass {
        var i :| 0 <= i < |xs| && xs[i].Some? && printer(xs[i].value).None?;
        assert i > 0 && xs[1..][i - 1] == xs[i];
      }
    }
  }

  /** When the element at i is the first that cannot be printed, the loop
      leaves the entries of the elements before it and then throws. */
  lemma StopsAtFirstUnprintable<T>(xs: seq<Option<T>>, i: nat, printer: T -> Option<seq<uint8>>)
    requires i < |xs| && xs[i].Some? && printer(xs[i].value).None?
    requires Printable(xs[..i], printer)
    ensures ValuesWritten(xs[..i], printer).outcome == Pass
    ensures ValuesWritten(xs, printer) == Written(ValuesWritten(xs[..i], printer).bytes, Fail(NoPrinter))
  {
    ValuesCompleteIff(xs[..i], printer);
    assert xs == xs[..i] + xs[i..];
    WrittenAppend(xs[..i], xs[i..], printer);
  }

  /** A legacy object with a printer that prints what the current field
      writer writes is the current entry without its END_MARKER. */
  lemma LegacyObjectLacksEndMarker<T>(v: Option<T>, printer: T -> Option<seq<uint8>>, fields: T -> seq<uint8>)
    requires v.Some? ==> printer(v.value) == Some(fields(v.value))
    ensures ObjectWritten(v, printer).outcome == Pass
    ensures v.None? ==> ObjectWritten(v, printer).bytes == ObjectEntry(v, fields)
    ensures v.Some? ==> ObjectWritten(v, printer).bytes + [END_MARKER] == ObjectEntry(v, fields)
  {
  }

  /** readObject (of either reader) does not read a legacy object back: it
      wants END_MARKER where the next entry starts. */
  lemma LegacyObjectMisread<T(!new)>(printer: T -> Option<seq<uint8>>, fields: T -> seq<uint8>,
                                     readFields: seq<uint8> -> Result<Decoded<T>>, x: T, t: seq<uint8>)
    requires printer(x) == Some(fields(x)) && Inverts(fields, readFields)
    ensures var s := ObjectWritten(Some(x), printer).bytes + t;
            DecodeObject(readFields, s)
            == if |t| == 0 then Err(EndOfInput)
               else if t[0] != END_MARKER then Err(ExpectedEndMarker(t[0]))
               else Ok(Decoded(x, |s| - |t| + 1))
  {
    var f := fields(x);
    var s := ObjectWritten(Some(x), printer).bytes + t;
    assert s == [USER_TYPE] + (f + t);
    assert s[1..] == f + t;
    assert readFields(f + t) == Ok(Decoded(x, |f|));
    if |t| > 0 {
      assert s[1..][|f|] == t[0];
    }
  }

  /** The writer over an output: `put` and `putBytes` append to it, and the
      private putLength/putIntN helpers are the code of
      DefaultPrimitiveBinaryOutput, so the media writes through one of those
      around the same output. */
  class AbstractWritableMedia<T> {
    const out: Output
    const primitives: DefaultPrimitiveBinaryOutput
    const printer: T -> Option<seq<uint8>>

    ghost predicate Valid()
    {
      primitives.out == out
    }

    constructor (out: Output, printer: T -> Option<seq<uint8>>)
      ensures Valid() && this.out == out && this.printer == printer
    {
      this.out := out;
      this.printer := printer;
      primitives := new DefaultPrimitiveBinaryOutput(out);
    }

    /** putType(type, subType): the checked tag byte, or IllegalArgumentException
        with nothing written. */
    method PutType(t: int8, subType: int8) returns (r: Outcome)
      requires Valid()
      modifies out
      ensures TypeByte(t, subType).Ok? ==> r == Pass && out.bytes == old(out.bytes) + [TypeByte(t, subType).value]
      ensures TypeByte(t, subType).Err? ==> r == Fail(IllegalArgument) && out.bytes == old(out.bytes)
    {
      var low := LowNibble(t);
      var st := LowNibble(subType);
      if low != t {
        return Fail(IllegalArgument);
      }
      if st != subType {
        return Fail(IllegalArgument);
      }
      primitives.Write(low + subType * 16);
      return Pass;
    }

    /** putType(type): the same check with subtype 0. */
    method PutSimpleType(t: int8) returns (r: Outcome)
      requires Valid()
      modifies out
      ensures 0 <= t <= MASK ==> r == Pass && out.bytes == old(out.bytes) + [t as uint8]
      ensures !(0 <= t <= MASK) ==> r == Fail(IllegalArgument) && out.bytes == old(out.bytes)
    {
      r := PutType(t, 0);
    }

    method PutNull()
      requires Valid()
      modifies out
      ensures out.bytes == old(out.bytes) + [NULL]
    {
      var _ := PutSimpleType(NULL);
    }

    method PutLength(length: int32) returns (r: Outcome)
      requires Valid()
      modifies out
      ensures length < 0 ==> r == Fail(IllegalArgument) && out.bytes == old(out.bytes)
      ensures length >= 0 ==> r == Pass && out.bytes == old(out.bytes) + PackedLength(length)
    {
      r := primitives.WriteLength(length);
    }

    method PutInt16(value: int16)
      requires Valid()
      modifies out
      ensures out.bytes == old(out.bytes) + LE16(value)
    {
      primitives.WriteInt16(value);
    }

    method PutInt32(value: int32)
      requires Valid()
      modifies out
      ensures out.bytes == old(out.bytes) + LE32(value)
    {
      primitives.WriteInt32(value);
    }

    method PutInt64(value: int64)
      requires Valid()
      modifies out
      ensures out.bytes == old(out.bytes) + LE64(value)
    {
      primitives.WriteInt64(value);
    }

    /** putString, given the UTF-8 bytes of the string or null. */
    method PutString(value: Option<seq<uint8>>)
      requires Valid()
      requires value.Some? ==> |value.value| < 0x8000_0000
      modifies out
      ensures out.bytes == old(out.bytes) + StringEntry(value)
    {
      if value.None? {
        PutNull();
      } else {
        var _ := PutSimpleType(STRING);
        var b := value.value;
        if |b| == 0 {
          var _ := PutLength(0);
        } else {
          var bytes := new uint8[|b|](i requires 0 <= i < |b| => b[i]);
          assert bytes[..] == b;
          var _ := PutLength(bytes.Length);
          var _ := primitives.WriteArray(bytes, 0, bytes.Length);
        }
      }
    }

    method PutByte(value: int8)
      requires Valid()
      modifies out
      ensures out.bytes == old(out.bytes) + ByteEntry(value)
    {
      var _ := PutSimpleType(BYTE);
      primitives.Write(value);
    }

    method PutChar(value: char16)
      requires Valid()
      modifies out
      ensures out.bytes == old(out.bytes) + CharEntry(value)
    {
      if value <= 127 {
        PutByte(ToInt8(value));
      } else {
        var _ := PutSimpleType(CHAR);
        PutInt16(ToInt16(value));
        LE16Cast(value);
      }
    }

    method PutShort(value: int16)
      requires Valid()
      modifies out
      ensures out.bytes == old(out.bytes) + ShortEntry(value)
    {
      if -128 < value <= 127 {
        PutByte(value);
      } else {
        var _ := PutSimpleType(SHORT);
        PutInt16(value);
      }
    }

    method PutInt(value: int32)
      requires Valid()
      modifies out
      ensures out.bytes == old(out.bytes) + IntEntry(value)
    {
      if -0x8000 <= value <= 0x7FFF {
        PutShort(value);
      } else {
        var _ := PutSimpleType(INT);
        PutInt32(value);
      }
    }

    method PutLong(value: int64)
      requires Valid()
      modifies out
      ensures out.bytes == old(out.bytes) + LongEntry(value)
    {
      if -0x8000_0000 <= value <= 0x7FFF_FFFF {
        PutInt(value);
      } else {
        var _ := PutSimpleType(LONG);
        PutInt64(value);
      }
    }

    /** putFloat, given the raw bits of the float. */
    method PutFloat(bits: int32)
      requires Valid()
      modifies out
      ensures out.bytes == old(out.bytes) + FloatEntry(bits)
    {
      var _ := PutSimpleType(FLOAT);
      PutInt32(bits);
    }

    /** putDouble, given the raw bits of the double. */
    method PutDouble(bits: int64)
      requires Valid()
      modifies out
      ensures out.bytes == old(out.bytes) + DoubleEntry(bits)
    {
      var _ := PutSimpleType(DOUBLE);
      PutInt64(bits);
    }

    method PutValue(value: Option<T>) returns (r: Outcome)
      requires Valid()
      modifies out
      ensures r == ValueWritten(value, printer).outcome
      ensures out.bytes == old(out.bytes) + ValueWritten(value, printer).bytes
    {
      if value.None? {
        PutNull();
        return Pass;
      }
      match printer(value.value)
      case None =>
        return Fail(NoPrinter);
      case Some(b) =>
        out.WriteAll(b);
        return Pass;
    }

    method PutObject(value: Option<T>) returns (r: Outcome)
      requires Valid()
      modifies out
      ensures r == ObjectWritten(value, printer).outcome
      ensures out.bytes == old(out.bytes) + ObjectWritten(value, printer).bytes
    {
      if value.None? {
        PutNull();
        return Pass;
      }
      var _ := PutSimpleType(USER_TYPE);
      r := PutValue(value);
    }

    /** `putType(Types.ARRAY, subType)` followed by putLength, as every
        non-null array starts. */
    method PutArrayHeader(subType: uint8, count: nat)
      requires Valid() && subType <= MASK && count < 0x8000_0000
      modifies out
      ensures out.bytes == old(out.bytes) + [ARRAY + 16 * subType] + PackedLength(count)
    {
      var _ := PutType(ARRAY, subType);
      var _ := PutLength(count);
    }

    /** putByteArray: the bytes in one bulk write. */
    method PutByteArray(value: array?<uint8>)
      requires Valid()
      requires value != null ==> value.Length < 0x8000_0000
      modifies out
      ensures out.bytes == old(out.bytes) + ArrayEntry(KByte, Contents(value))
    {
      if value == null {
        PutNull();
        return;
      }
      PutArrayHeader(KindTag(KByte), value.Length);
      ghost var header := out.bytes;
      var _ := primitives.WriteArray(value, 0, value.Length);
      assert out.bytes == header + Payload(KByte, value[..]) by {
        assert value[0..value.Length] == value[..];
        BytePayload(value[..]);
      }
      ArrayAssembled(KByte, value[..], old(out.bytes), out.bytes);
    }

    /** putCharArray: each char through `putInt16((short) c)`. */
    method PutCharArray(value: array?<char16>)
      requires Valid()
      requires value != null ==> value.Length < 0x8000_0000
      modifies out
      ensures out.bytes == old(out.bytes) + ArrayEntry(KChar, Contents(value))
    {
      if value == null {
        PutNull();
        return;
      }
      PutArrayHeader(KindTag(KChar), value.Length);
      WriteCharElements(primitives, value);
      ArrayAssembled(KChar, value[..], old(out.bytes), out.bytes);
    }

    /** putShortArray: each element through putInt16. */
    method PutShortArray(value: array?<int16>)
      requires Valid()
      requires value != null ==> value.Length < 0x8000_0000
      modifies out
      ensures out.bytes == old(out.bytes) + ArrayEntry(KShort, Contents(value))
    {
      if value == null {
        PutNull();
        return;
      }
      PutArrayHeader(KindTag(KShort), value.Length);
      WriteShortElements(primitives, value);
      ArrayAssembled(KShort, value[..], old(out.bytes), out.bytes);
    }

    /** putIntArray: each element through putInt32. */
    method PutIntArray(value: array?<int32>)
      requires Valid()
      requires value != null ==> value.Length < 0x8000_0000
      modifies out
      ensures out.bytes == old(out.bytes) + ArrayEntry(KInt, Contents(value))
    {
      if value == null {
        PutNull();
        return;
      }
      PutArrayHeader(KindTag(KInt), value.Length);
      WriteIntElements(primitives, value);
      ArrayAssembled(KInt, value[..], old(out.bytes), out.bytes);
    }

    /** putLongArray: each element through putInt64. */
    method PutLongArray(value: array?<int64>)
      requires Valid()
      requires value != null ==> value.Length < 0x8000_0000
      modifies out
      ensures out.bytes == old(out.bytes) + ArrayEntry(KLong, Contents(value))
    {
      if value == null {
        PutNull();
        return;
      }
      PutArrayHeader(KindTag(KLong), value.Length);
      WriteLongElements(primitives, value);
      ArrayAssembled(KLong, value[..], old(out.bytes), out.bytes);
    }

    /** putFloatArray, given the raw bits of the floats. */
    method PutFloatArray(value: array?<int32>)
      requires Valid()
      requires value != null ==> value.Length < 0x8000_0000
      modifies out
      ensures out.bytes == old(out.bytes) + ArrayEntry(KFloat, Contents(value))
    {
      if value == null {
        PutNull();
        return;
      }
      PutArrayHeader(KindTag(KFloat), value.Length);
      WriteFloatElements(primitives, value);
      ArrayAssembled(KFloat, value[..], old(out.bytes), out.bytes);
    }

    /** putDoubleArray, given the raw bits of the doubles. */
    method PutDoubleArray(value: array?<int64>)
      requires Valid()
      requires value != null ==> value.Length < 0x8000_0000
      modifies out
      ensures out.bytes == old(out.bytes) + ArrayEntry(KDouble, Contents(value))
    {
      if value == null {
        PutNull();
        return;
      }
      PutArrayHeader(KindTag(KDouble), value.Length);
      WriteDoubleElements(primitives, value);
      ArrayAssembled(KDouble, value[..], old(out.bytes), out.bytes);
    }

    /** putObjectArray: putValue for each element, until one throws. */
    method PutObjectArray(value: array?<Option<T>>) returns (r: Outcome)
      requires Valid()
      requires value != null ==> value.Length < 0x8000_0000
      modifies out
      ensures r == ObjectArrayWritten(Contents(value), printer).outcome
      ensures out.bytes == old(out.bytes) + ObjectArrayWritten(Contents(value), printer).bytes
    {
      if value == null {
        PutNull();
        return Pass;
      }
      PutArrayHeader(USER_TYPE, value.Length);
      r := PutValues(value);
      Regrouped(old(out.bytes), [ARRAY + 16 * USER_TYPE], PackedLength(value.Length),
                ValuesWritten(value[..], printer).bytes);
    }

    /** The for-each loop of putObjectArray. */
    method PutValues(value: array<Option<T>>) returns (r: Outcome)
      requires Valid()
      modifies out
      ensures r == ValuesWritten(value[..], printer).outcome
      ensures out.bytes == old(out.bytes) + ValuesWritten(value[..], printer).bytes
    {
      ghost var written: seq<uint8> := [];
      for i := 0 to value.Length
        invariant ValuesWritten(value[..i], printer) == Written(written, Pass)
        invariant out.bytes == old(out.bytes) + written
      {
        var o := PutValue(value[i]);
        WrittenStep(value[..], i, printer, written);
        if o.Fail? {
          return o;
        }
        written := written + ValueWritten(value[i], printer).bytes;
      }
      assert value[..value.Length] == value[..];
      return Pass;
    }
  }
}
