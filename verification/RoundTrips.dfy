/** What a reader makes of what a writer wrote, entry by entry. */
module RoundTrips {
  import opened Bytes
  import opened Failures
  import opened Types
  import opened Packing
  import opened Encoding
  import opened Decoding

  /** A value narrowed to BYTE comes back as `(short) read()`, the unsigned
      byte: -127..-1 come back 256 higher. */
  function Widened(v: int): int
  {
    if -128 < v < 0 then v + 0x100 else v
  }

  lemma ByteRoundTrip(v: int8, t: seq<uint8>)
    ensures DecodeByte(ByteEntry(v) + t) == Ok(Decoded(v, 2))
  {
  }

  /** Every char comes back, whether it went out as BYTE or as CHAR. */
  lemma CharRoundTrip(c: char16, t: seq<uint8>)
    ensures DecodeChar(CharEntry(c) + t) == Ok(Decoded(c, |CharEntry(c)|))
  {
    if c > 127 {
      var s := CharEntry(c) + t;
      assert s[1..] == LE16(c) + t;
      ReadPrefix(LE16(c), t);
      Bytes.CharRoundTrip(c);
    }
  }

  lemma ShortRoundTrip(v: int16, t: seq<uint8>)
    ensures DecodeShort(ShortEntry(v) + t) == Ok(Decoded(Widened(v), |ShortEntry(v)|))
  {
    if !(-128 < v <= 127) {
      var s := ShortEntry(v) + t;
      assert s[1..] == LE16(v) + t;
      ReadPrefix(LE16(v), t);
      Int16RoundTrip(v);
    }
  }

  lemma IntRoundTrip(v: int32, t: seq<uint8>)
    ensures DecodeInt(IntEntry(v) + t) == Ok(Decoded(Widened(v), |IntEntry(v)|))
  {
    var s := IntEntry(v) + t;
    if -0x8000 <= v <= 0x7FFF {
      ShortRoundTrip(v, t);
    } else {
      assert s[1..] == LE32(v) + t;
      ReadPrefix(LE32(v), t);
      Int32RoundTrip(v);
    }
  }

  lemma LongRoundTrip(v: int64, t: seq<uint8>)
    ensures DecodeLong(LongEntry(v) + t) == Ok(Decoded(Widened(v), |LongEntry(v)|))
  {
    var s := LongEntry(v) + t;
    if -0x8000_0000 <= v <= 0x7FFF_FFFF {
      IntRoundTrip(v, t);
      if -0x8000 <= v <= 0x7FFF {
        ShortRoundTrip(v, t);
      }
    } else {
      assert s[1..] == LE64(v) + t;
      ReadPrefix(LE64(v), t);
      Int64RoundTrip(v);
    }
  }

  /** Exactly the values -127..-1 do not survive writeLong followed by readLong. */
  lemma LongSurvivesIff(v: int64, t: seq<uint8>)
    ensures DecodeLong(LongEntry(v) + t).Ok?
    ensures DecodeLong(LongEntry(v) + t).value.value == v <==> !(-127 <= v <= -1)
  {
    LongRoundTrip(v, t);
  }

  /** A short written by writeShort reads back the same through readInt and readLong. */
  lemma WiderReaders(v: int16, t: seq<uint8>)
    ensures DecodeInt(ShortEntry(v) + t) == DecodeShort(ShortEntry(v) + t)
    ensures DecodeLong(ShortEntry(v) + t) == DecodeShort(ShortEntry(v) + t)
  {
  }

  lemma FloatRoundTrip(bits: int32, t: seq<uint8>)
    ensures DecodeFloat(FloatEntry(bits) + t) == Ok(Decoded(bits, 5))
  {
    var s := FloatEntry(bits) + t;
    assert s[1..] == LE32(bits) + t;
    ReadPrefix(LE32(bits), t);
    Int32RoundTrip(bits);
  }

  lemma DoubleRoundTrip(bits: int64, t: seq<uint8>)
    ensures DecodeDouble(DoubleEntry(bits) + t) == Ok(Decoded(bits, 9))
  {
    var s := DoubleEntry(bits) + t;
    assert s[1..] == LE64(bits) + t;
    ReadPrefix(LE64(bits), t);
    Int64RoundTrip(bits);
  }

  /** Each reader accepts only its own tags and names the offending tag otherwise. */
  lemma AcceptedTags(s: seq<uint8>)
    requires |s| >= 1
    ensures s[0] != BYTE ==> DecodeByte(s) == Err(NotAByte(s[0]))
    ensures s[0] != BYTE && s[0] != CHAR ==> DecodeChar(s) == Err(NotCharCompatible(s[0]))
    ensures s[0] != BYTE && s[0] != SHORT ==> DecodeShort(s) == Err(NotShortCompatible(s[0]))
    ensures s[0] !in {BYTE, SHORT, INT} ==> DecodeInt(s) == Err(NotIntCompatible(s[0]))
    ensures s[0] !in {BYTE, SHORT, INT, LONG} ==> DecodeLong(s) == Err(NotIntCompatible(s[0]))
    ensures s[0] != FLOAT ==> DecodeFloat(s) == Err(NotAFloat(s[0]))
    ensures s[0] != DOUBLE ==> DecodeDouble(s) == Err(NotADouble(s[0]))
  {
  }

  lemma NullStringRoundTrip(coding: LengthCoding, t: seq<uint8>)
    ensures DecodeString(coding, StringEntry(None) + t) == Ok(Decoded(None, 1))
  {
  }

  /** Strings of up to 127 bytes come back, the empty one included. */
  lemma StringRoundTrip(coding: LengthCoding, b: seq<uint8>, t: seq<uint8>)
    requires |b| < 128
    ensures DecodeString(coding, StringEntry(Some(b)) + t) == Ok(Decoded(Some(b), |StringEntry(Some(b))|))
  {
    var s := StringEntry(Some(b)) + t;
    assert s[1..] == PackedLength(|b|) + (b + t);
    LengthRoundTrip(coding, |b|, b + t);
    assert s[2..2 + |b|] == b;
  }

  /** Strings of 128..16383 bytes do not: the length read back is wrong. */
  lemma LongerStringsDoNotSurvive(coding: LengthCoding, b: seq<uint8>, t: seq<uint8>)
    requires 128 <= |b| < 0x4000
    ensures DecodeString(coding, StringEntry(Some(b)) + t) != Ok(Decoded(Some(b), |StringEntry(Some(b))|))
  {
    var s := StringEntry(Some(b)) + t;
    assert s[1..] == PackedLength(|b|) + (b + t);
    TwoByteLengths(coding, |b|, b + t);
  }

  /** The user-type reader reads back exactly what the user-type writer wrote,
      whatever follows it. */
  ghost predicate Inverts<T(!new)>(writeFields: T -> seq<uint8>, readFields: seq<uint8> -> Result<Decoded<T>>)
  {
    forall y: T, u: seq<uint8> {:trigger readFields(writeFields(y) + u)} ::
      readFields(writeFields(y) + u) == Ok(Decoded(y, |writeFields(y)|))
  }

  /** writeValue followed by readObjectValue gives the value back when the
      field reader inverts the field writer. */
  lemma ValueRoundTrip<T(!new)>(writeFields: T -> seq<uint8>, readFields: seq<uint8> -> Result<Decoded<T>>,
                                x: T, t: seq<uint8>)
    requires Inverts(writeFields, readFields)
    ensures DecodeObjectValue(readFields, ValueEntry(Some(x), writeFields) + t)
            == Ok(Decoded(x, |ValueEntry(Some(x), writeFields)|))
  {
    var f := writeFields(x);
    assert ValueEntry(Some(x), writeFields) + t == f + ([END_MARKER] + t);
    assert readFields(f + ([END_MARKER] + t)) == Ok(Decoded(x, |f|));
  }

  /** A user type comes back when its field reader inverts its field writer. */
  lemma ObjectRoundTrip<T(!new)>(writeFields: T -> seq<uint8>, readFields: seq<uint8> -> Result<Decoded<T>>,
                                 x: T, t: seq<uint8>)
    requires Inverts(writeFields, readFields)
    ensures DecodeObject(readFields, ObjectEntry(Some(x), writeFields) + t)
            == Ok(Decoded(x, |ObjectEntry(Some(x), writeFields)|))
  {
    var s := ObjectEntry(Some(x), writeFields) + t;
    assert s[1..] == ValueEntry(Some(x), writeFields) + t;
    ValueRoundTrip(writeFields, readFields, x, t);
  }

  /** writeObject(null) cannot be read back by readObject. */
  lemma NullObjectRejected<T>(writeFields: T -> seq<uint8>, readFields: seq<uint8> -> Result<Decoded<T>>,
                              t: seq<uint8>)
    ensures DecodeObject(readFields, ObjectEntry(None, writeFields) + t) == Err(NotAUserType(NULL))
  {
  }

  lemma ElementRoundTrip(k: Kind, v: int, t: seq<uint8>)
    requires InRange(k, v)
    ensures DecodeElement(k, EncodeElement(k, v) + t) == v
  {
    var b := EncodeElement(k, v);
    ReadPrefix(b, t);
    match k
    case KByte =>
    case KChar => Bytes.CharRoundTrip(v);
    case KShort => Int16RoundTrip(v);
    case KInt => Int32RoundTrip(v);
    case KFloat => Int32RoundTrip(v);
    case KLong => Int64RoundTrip(v);
    case KDouble => Int64RoundTrip(v);
  }

  lemma {:induction false} ElementsRoundTrip(k: Kind, xs: seq<int>, t: seq<uint8>)
    requires forall i :: 0 <= i < |xs| ==> InRange(k, xs[i])
    ensures Elements(k, Payload(k, xs) + t, |xs|) == xs
    decreases |xs|
  {
    if |xs| > 0 {
      var e := EncodeElement(k, xs[0]);
      var rest := Payload(k, xs[1..]) + t;
      assert Payload(k, xs) + t == e + rest;
      ElementRoundTrip(k, xs[0], rest);
      assert (e + rest)[Width(k)..] == rest;
      ElementsCons(k, e + rest, |xs|);
      ElementsRoundTrip(k, xs[1..], t);
      assert xs == [xs[0]] + xs[1..];
    }
  }

  /** Primitive arrays of up to 127 elements come back. */
  lemma ArrayRoundTrip(coding: LengthCoding, k: Kind, xs: seq<int>, t: seq<uint8>)
    requires |xs| < 128
    requires forall i :: 0 <= i < |xs| ==> InRange(k, xs[i])
    ensures DecodeArray(coding, k, ArrayEntry(k, Some(xs)) + t) == Ok(Decoded(xs, |ArrayEntry(k, Some(xs))|))
  {
    var s := ArrayEntry(k, Some(xs)) + t;
    var p := Payload(k, xs);
    assert |PackedLength(|xs|)| == 1;
    assert DecodeArrayHeader(coding, KindTag(k), s) == Ok(Decoded(|xs|, 2)) by {
      EntrySplit(ArrayTag(k), PackedLength(|xs|), p, t);
      HeaderRoundTrip(coding, KindTag(k), |xs|, p + t);
    }
    assert DecodeElements(k, s[2..], |xs|) == Ok(Decoded(xs, |p|)) by {
      EntrySplit(ArrayTag(k), PackedLength(|xs|), p, t);
      ElementsRoundTrip(k, xs, t);
    }
    ArrayParts(coding, k, s, Decoded(|xs|, 2), Decoded(xs, |p|));
    EntrySplit(ArrayTag(k), PackedLength(|xs|), p, t);
  }

  /** A tag and a one-byte count make a two-byte header in front of the body. */
  lemma EntrySplit(tag: uint8, count: seq<uint8>, body: seq<uint8>, t: seq<uint8>)
    requires |count| == 1
    ensures [tag] + count + body + t == [tag] + count + (body + t)
    ensures ([tag] + count + body + t)[2..] == body + t
    ensures |[tag] + count + body| == 2 + |body|
  {
    assert ([tag] + count + body + t)[2..] == body + t;
  }

  /** An array written as null cannot be read back: NULL is not an array tag. */
  lemma NullArrayRejected(coding: LengthCoding, k: Kind, t: seq<uint8>)
    ensures DecodeArray(coding, k, ArrayEntry(k, None) + t) == Err(NotAnArray(NULL))
  {
  }

  lemma {:induction false} ValuesRoundTrip<T(!new)>(writeFields: T -> seq<uint8>,
                                                    readFields: seq<uint8> -> Result<Decoded<T>>,
                                                    xs: seq<T>, t: seq<uint8>)
    requires Inverts(writeFields, readFields)
    ensures DecodeValues(readFields, Values(Present(xs), writeFields) + t, |xs|)
            == Ok(Decoded(xs, |Values(Present(xs), writeFields)|))
    decreases |xs|
  {
    if |xs| > 0 {
      var e := ValueEntry(Some(xs[0]), writeFields);
      var rest := Values(Present(xs[1..]), writeFields);
      var v := Values(Present(xs), writeFields);
      PresentValues(writeFields, xs);
      var s := e + (rest + t);
      assert v + t == s && |v| == |e| + |rest|;
      ValueRoundTrip(writeFields, readFields, xs[0], rest + t);
      assert s[|e|..] == rest + t;
      ValuesRoundTrip(writeFields, readFields, xs[1..], t);
      assert [xs[0]] + xs[1..] == xs;
      ValuesCons(readFields, s, |xs|, Decoded(xs[0], |e|), Decoded(xs[1..], |rest|), Decoded(xs, |v|));
    }
  }

  /** The entries of non-null values: the first one, then the others. */
  lemma PresentValues<T>(writeFields: T -> seq<uint8>, xs: seq<T>)
    requires |xs| > 0
    ensures Values(Present(xs), writeFields)
            == ValueEntry(Some(xs[0]), writeFields) + Values(Present(xs[1..]), writeFields)
  {
    assert Present(xs)[1..] == Present(xs[1..]);
  }

  /** An array tag and a one-byte count make a two-byte header. */
  lemma HeaderRoundTrip(coding: LengthCoding, expected: int, n: nat, body: seq<uint8>)
    requires n < 128 && 0 <= ARRAY + 16 * expected < 0x100
    ensures DecodeArrayHeader(coding, expected, [ARRAY + 16 * expected] + PackedLength(n) + body)
            == Ok(Decoded(n, 2))
  {
    var s := [ARRAY + 16 * expected] + PackedLength(n) + body;
    assert CheckArray(s[0], expected) == Pass;
    assert s[1..] == PackedLength(n) + body;
    LengthRoundTrip(coding, n, body);
  }

  /** readObjectArray past a one-byte count. */
  lemma ObjectArrayHeader<T>(coding: LengthCoding, readFields: seq<uint8> -> Result<Decoded<T>>,
                             n: nat, body: seq<uint8>, vs: seq<T>, size: nat)
    requires n < 128
    requires DecodeValues(readFields, body, n) == Ok(Decoded(vs, size))
    ensures DecodeObjectArray(coding, readFields, [ARRAY + 16 * USER_TYPE] + PackedLength(n) + body)
            == Ok(Decoded(vs, 2 + size))
  {
    HeaderRoundTrip(coding, USER_TYPE, n, body);
    HeaderDrop(ARRAY + 16 * USER_TYPE, PackedLength(n), body);
  }

  /** The body behind a tag and a one-byte count. */
  lemma HeaderDrop(tag: uint8, count: seq<uint8>, body: seq<uint8>)
    requires |count| == 1
    ensures ([tag] + count + body)[2..] == body
  {
    assert ([tag] + count + body)[2..] == body;
  }

  /** Object arrays without null elements and of up to 127 elements come back:
      the writer's elements have no USER_TYPE and the reader expects none. */
  lemma ObjectArrayRoundTrip<T(!new)>(coding: LengthCoding, writeFields: T -> seq<uint8>,
                                readFields: seq<uint8> -> Result<Decoded<T>>, xs: seq<T>, t: seq<uint8>)
    requires |xs| < 128
    requires Inverts(writeFields, readFields)
    ensures DecodeObjectArray(coding, readFields, ObjectArrayEntry(Some(Present(xs)), writeFields) + t)
            == Ok(Decoded(xs, |ObjectArrayEntry(Some(Present(xs)), writeFields)|))
  {
    var ys := Present(xs);
    var p := Values(ys, writeFields);
    var h := [ARRAY + 16 * USER_TYPE] + PackedLength(|xs|);
    var e := ObjectArrayEntry(Some(ys), writeFields);
    assert |ys| == |xs|;
    assert e == h + p;
    ValuesRoundTrip(writeFields, readFields, xs, t);
    ObjectArrayHeader(coding, readFields, |xs|, p + t, xs, |p|);
    EntrySplit(ARRAY + 16 * USER_TYPE, PackedLength(|xs|), p, t);
  }
}
