/** What the writers put on the wire for each kind of entry. Both writer
    snapshots produce these bytes for scalars, strings and arrays; they differ
    only on user types. */
module Encoding {
  import opened Bytes
  import opened Failures
  import opened Types
  import opened Packing

  /** writeByte: BYTE, then the byte's bit pattern. */
  function ByteEntry(v: int8): seq<uint8>
  {
    [BYTE, v % 0x100]
  }

  /** writeChar: a char up to 127 goes out as a byte. */
  function CharEntry(c: char16): seq<uint8>
  {
    if c <= 127 then ByteEntry(c) else [CHAR] + LE16(c)
  }

  /** writeShort: a byte only for -127..127 (-128 is excluded by a strict test). */
  function ShortEntry(v: int16): seq<uint8>
  {
    if -128 < v <= 127 then ByteEntry(v) else [SHORT] + LE16(v)
  }

  /** writeInt: delegates to writeShort inside the short range. */
  function IntEntry(v: int32): seq<uint8>
  {
    if -0x8000 <= v <= 0x7FFF then ShortEntry(v) else [INT] + LE32(v)
  }

  /** writeLong: delegates to writeInt inside the int range. */
  function LongEntry(v: int64): seq<uint8>
  {
    if -0x8000_0000 <= v <= 0x7FFF_FFFF then IntEntry(v) else [LONG] + LE64(v)
  }

  /** writeFloat, given the raw bits of the float. */
  function FloatEntry(bits: int32): seq<uint8>
  {
    [FLOAT] + LE32(bits)
  }

  /** writeDouble, given the raw bits of the double. */
  function DoubleEntry(bits: int64): seq<uint8>
  {
    [DOUBLE] + LE64(bits)
  }

  /** writeString, given the UTF-8 bytes of the string or null. */
  function StringEntry(s: Option<seq<uint8>>): seq<uint8>
  {
    match s
    case None => [NULL]
    case Some(b) => [STRING] + PackedLength(|b|) + b
  }

  /** writeValue: the fields the user-type writer emits, then END_MARKER. */
  function ValueEntry<T>(v: Option<T>, fields: T -> seq<uint8>): seq<uint8>
  {
    match v
    case None => [NULL]
    case Some(x) => fields(x) + [END_MARKER]
  }

  /** writeObject of the current writer. */
  function ObjectEntry<T>(v: Option<T>, fields: T -> seq<uint8>): seq<uint8>
  {
    match v
    case None => [NULL]
    case Some(_) => [USER_TYPE] + ValueEntry(v, fields)
  }

  /** The element kinds of primitive arrays. */
  datatype Kind = KByte | KChar | KShort | KInt | KLong | KFloat | KDouble

  /** The element kind as the high nibble of the array tag. */
  function KindTag(k: Kind): uint8
  {
    match k
    case KByte => BYTE
    case KChar => CHAR
    case KShort => SHORT
    case KInt => INT
    case KLong => LONG
    case KFloat => FLOAT
    case KDouble => DOUBLE
  }

  /** Bytes per element. */
  function Width(k: Kind): nat
  {
    match k
    case KByte => 1
    case KChar | KShort => 2
    case KInt | KFloat => 4
    case KLong | KDouble => 8
  }

  /** The values a Java array of that kind holds (byte arrays by their bit
      patterns, float and double arrays by their raw bits). */
  predicate InRange(k: Kind, v: int)
  {
    match k
    case KByte => 0 <= v < 0x100
    case KChar => 0 <= v < 0x1_0000
    case KShort => -0x8000 <= v < 0x8000
    case KInt | KFloat => -0x8000_0000 <= v < 0x8000_0000
    case KLong | KDouble => -0x8000_0000_0000_0000 <= v < 0x8000_0000_0000_0000
  }

  /** One untagged element, little-endian. */
  function EncodeElement(k: Kind, v: int): (r: seq<uint8>)
    ensures |r| == Width(k)
  {
    match k
    case KByte => [v % 0x100]
    case KChar | KShort => LE16(v)
    case KInt | KFloat => LE32(v)
    case KLong | KDouble => LE64(v)
  }

  function Payload(k: Kind, xs: seq<int>): (r: seq<uint8>)
    ensures |r| == Width(k) * |xs|
  {
    if |xs| == 0 then [] else EncodeElement(k, xs[0]) + Payload(k, xs[1..])
  }

  /** The array tag `ARRAY | kind << 4`. */
  function ArrayTag(k: Kind): uint8
  {
    ARRAY + 16 * KindTag(k)
  }

  /** The primitive array writers: NULL for a null array, otherwise the
      array tag, the packed element count and the untagged elements. */
  function ArrayEntry(k: Kind, xs: Option<seq<int>>): seq<uint8>
  {
    match xs
    case None => [NULL]
    case Some(a) => [ArrayTag(k)] + PackedLength(|a|) + Payload(k, a)
  }

  function Values<T>(xs: seq<Option<T>>, fields: T -> seq<uint8>): seq<uint8>
  {
    if |xs| == 0 then [] else ValueEntry(xs[0], fields) + Values(xs[1..], fields)
  }

  /** writeObjectArray: each element through writeValue, so an element has no
      USER_TYPE of its own and a null element is a bare NULL. */
  function ObjectArrayEntry<T>(xs: Option<seq<Option<T>>>, fields: T -> seq<uint8>): seq<uint8>
  {
    match xs
    case None => [NULL]
    case Some(a) => [ARRAY + 16 * USER_TYPE] + PackedLength(|a|) + Values(a, fields)
  }

  /** Appending one more element to the array being written. */
  lemma {:induction false} PayloadSnoc(k: Kind, xs: seq<int>, x: int)
    ensures Payload(k, xs + [x]) == Payload(k, xs) + EncodeElement(k, x)
    decreases |xs|
  {
    if |xs| == 0 {
      assert Payload(k, [x]) == EncodeElement(k, x) + Payload(k, []);
    } else {
      assert (xs + [x])[1..] == xs[1..] + [x];
      PayloadSnoc(k, xs[1..], x);
    }
  }

  lemma {:induction false} ValuesSnoc<T>(xs: seq<Option<T>>, x: Option<T>, fields: T -> seq<uint8>)
    ensures Values(xs + [x], fields) == Values(xs, fields) + ValueEntry(x, fields)
    decreases |xs|
  {
    if |xs| == 0 {
      assert Values([x], fields) == ValueEntry(x, fields) + Values([], fields);
    } else {
      assert (xs + [x])[1..] == xs[1..] + [x];
      ValuesSnoc(xs[1..], x, fields);
    }
  }

  /** The array tags are what Types.array computes for the element kind. */
  lemma ArrayTagIsTypesArray(k: Kind)
    ensures Types.Array(KindTag(k)) == Ok(ArrayTag(k))
    ensures IsArray(ArrayTag(k)) && SubType(ArrayTag(k)) == KindTag(k)
  {
  }

  /** The object-array tag is what Types.array computes for USER_TYPE. */
  lemma ObjectArrayTagIsTypesArray()
    ensures Types.Array(USER_TYPE) == Ok(ARRAY + 16 * USER_TYPE)
    ensures IsArray(ARRAY + 16 * USER_TYPE) && SubType(ARRAY + 16 * USER_TYPE) == USER_TYPE
  {
  }

  /** The narrowing chain: the tag writeLong picks and the size of the entry. */
  lemma LongEntryShape(v: int64)
    ensures LongEntry(v)[0] == (if -128 < v <= 127 then BYTE
                                else if -0x8000 <= v <= 0x7FFF then SHORT
                                else if -0x8000_0000 <= v <= 0x7FFF_FFFF then INT
                                else LONG)
    ensures |LongEntry(v)| == (if -128 < v <= 127 then 2
                               else if -0x8000 <= v <= 0x7FFF then 3
                               else if -0x8000_0000 <= v <= 0x7FFF_FFFF then 5
                               else 9)
  {
  }
}
