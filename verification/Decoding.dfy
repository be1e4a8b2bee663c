/** What the readers make of the bytes in front of the cursor: the value and
    the number of bytes consumed, or the exception they throw. */
module Decoding {
  import opened Bytes
  import opened Failures
  import opened Types
  import opened Packing
  import opened Encoding

  /** readInt16: `(short) (read() + (read() << 8))`. */
  function RawInt16(s: seq<uint8>): (r: Result<Decoded<int16>>)
    ensures r.Ok? <==> |s| >= 2
  {
    if |s| < 2 then Err(EndOfInput) else Ok(Decoded(ToInt16(U16(s)), 2))
  }

  /** readInt32: the four bytes summed with shifts, wrapped to an int. */
  function RawInt32(s: seq<uint8>): (r: Result<Decoded<int32>>)
    ensures r.Ok? <==> |s| >= 4
  {
    if |s| < 4 then Err(EndOfInput) else Ok(Decoded(ToInt32(U32(s)), 4))
  }

  /** readInt64: the eight bytes summed with shifts, wrapped to a long. */
  function RawInt64(s: seq<uint8>): (r: Result<Decoded<int64>>)
    ensures r.Ok? <==> |s| >= 8
  {
    if |s| < 8 then Err(EndOfInput) else Ok(Decoded(ToInt64(U64(s)), 8))
  }

  /** readByte: exactly BYTE, then `(byte) read()`. */
  function DecodeByte(s: seq<uint8>): Result<Decoded<int8>>
  {
    if |s| == 0 then Err(EndOfInput)
    else if s[0] != BYTE then Err(NotAByte(s[0]))
    else if |s| < 2 then Err(EndOfInput)
    else Ok(Decoded(ToInt8(s[1]), 2))
  }

  /** readChar: BYTE gives `(char) read()`, CHAR gives `(char) readInt16()`. */
  function DecodeChar(s: seq<uint8>): Result<Decoded<char16>>
  {
    if |s| == 0 then Err(EndOfInput)
    else if s[0] == BYTE then (if |s| < 2 then Err(EndOfInput) else Ok(Decoded(ToChar(s[1]), 2)))
    else if s[0] == CHAR then (if |s| < 3 then Err(EndOfInput) else Ok(Decoded(ToChar(ToInt16(U16(s[1..]))), 3)))
    else Err(NotCharCompatible(s[0]))
  }

  /** readShort: BYTE gives `(short) read()`, which is 0..255. */
  function DecodeShort(s: seq<uint8>): Result<Decoded<int16>>
  {
    if |s| == 0 then Err(EndOfInput)
    else if s[0] == BYTE then (if |s| < 2 then Err(EndOfInput) else Ok(Decoded(s[1], 2)))
    else if s[0] == SHORT then (if |s| < 3 then Err(EndOfInput) else Ok(Decoded(ToInt16(U16(s[1..])), 3)))
    else Err(NotShortCompatible(s[0]))
  }

  /** readInt: BYTE, SHORT or INT. */
  function DecodeInt(s: seq<uint8>): Result<Decoded<int32>>
  {
    if |s| == 0 then Err(EndOfInput)
    else if s[0] == BYTE then (if |s| < 2 then Err(EndOfInput) else Ok(Decoded(s[1], 2)))
    else if s[0] == SHORT then (if |s| < 3 then Err(EndOfInput) else Ok(Decoded(ToInt16(U16(s[1..])), 3)))
    else if s[0] == INT then (if |s| < 5 then Err(EndOfInput) else Ok(Decoded(ToInt32(U32(s[1..])), 5)))
    else Err(NotIntCompatible(s[0]))
  }

  /** readLong: BYTE, SHORT, INT or LONG; the error message is shared with readInt. */
  function DecodeLong(s: seq<uint8>): Result<Decoded<int64>>
  {
    if |s| == 0 then Err(EndOfInput)
    else if s[0] == BYTE then (if |s| < 2 then Err(EndOfInput) else Ok(Decoded(s[1], 2)))
    else if s[0] == SHORT then (if |s| < 3 then Err(EndOfInput) else Ok(Decoded(ToInt16(U16(s[1..])), 3)))
    else if s[0] == INT then (if |s| < 5 then Err(EndOfInput) else Ok(Decoded(ToInt32(U32(s[1..])), 5)))
    else if s[0] == LONG then (if |s| < 9 then Err(EndOfInput) else Ok(Decoded(ToInt64(U64(s[1..])), 9)))
    else Err(NotIntCompatible(s[0]))
  }

  /** readFloat: exactly FLOAT, then the raw bits. */
  function DecodeFloat(s: seq<uint8>): Result<Decoded<int32>>
  {
    if |s| == 0 then Err(EndOfInput)
    else if s[0] != FLOAT then Err(NotAFloat(s[0]))
    else if |s| < 5 then Err(EndOfInput)
    else Ok(Decoded(ToInt32(U32(s[1..])), 5))
  }

  /** readDouble: exactly DOUBLE, then the raw bits. */
  function DecodeDouble(s: seq<uint8>): Result<Decoded<int64>>
  {
    if |s| == 0 then Err(EndOfInput)
    else if s[0] != DOUBLE then Err(NotADouble(s[0]))
    else if |s| < 9 then Err(EndOfInput)
    else Ok(Decoded(ToInt64(U64(s[1..])), 9))
  }

  /** readString: null for NULL; for STRING the packed length, then that many
      bytes ("" when the length is 0); any other tag is an error. */
  function DecodeString(coding: LengthCoding, s: seq<uint8>): (r: Result<Decoded<Option<seq<uint8>>>>)
    ensures r.Ok? ==> r.value.size <= |s|
  {
    if |s| == 0 then Err(EndOfInput)
    else if s[0] == NULL then Ok(Decoded(None, 1))
    else if s[0] != STRING then Err(NotAString(s[0]))
    else match DecodeLength(coding, s[1..])
      case Err(e) => Err(e)
      case Ok(len) =>
        var start := 1 + len.size;
        if |s| < start + len.value then Err(EndOfInput)
        else Ok(Decoded(Some(s[start..start + len.value]), start + len.value))
  }

  /** What a user-type reader callback does with the bytes in front of it.
      A callback that claims more bytes than there are ran out of input. */
  function RunFields<T>(fields: seq<uint8> -> Result<Decoded<T>>, s: seq<uint8>): (r: Result<Decoded<T>>)
    ensures r.Ok? ==> r.value.size <= |s|
  {
    match fields(s)
    case Err(e) => Err(e)
    case Ok(d) => if d.size <= |s| then Ok(d) else Err(EndOfInput)
  }

  /** readObjectValue: the fields, then END_MARKER. */
  function DecodeObjectValue<T>(fields: seq<uint8> -> Result<Decoded<T>>, s: seq<uint8>): (r: Result<Decoded<T>>)
    ensures r.Ok? ==> 1 <= r.value.size <= |s|
  {
    match RunFields(fields, s)
    case Err(e) => Err(e)
    case Ok(d) =>
      if |s| <= d.size then Err(EndOfInput)
      else if s[d.size] != END_MARKER then Err(ExpectedEndMarker(s[d.size]))
      else Ok(Decoded(d.value, d.size + 1))
  }

  /** readObject: USER_TYPE is required; a NULL tag is an error too. */
  function DecodeObject<T>(fields: seq<uint8> -> Result<Decoded<T>>, s: seq<uint8>): (r: Result<Decoded<T>>)
    ensures r.Ok? ==> 2 <= r.value.size <= |s|
  {
    if |s| == 0 then Err(EndOfInput)
    else if s[0] != USER_TYPE then Err(NotAUserType(s[0]))
    else match DecodeObjectValue(fields, s[1..])
      case Err(e) => Err(e)
      case Ok(d) => Ok(Decoded(d.value, d.size + 1))
  }

  /** ensureArray: the low nibble must be ARRAY and the high nibble the
      expected element kind. */
  function CheckArray(t: uint8, expected: int): (r: Outcome)
    ensures r == Pass <==> t == ARRAY + 16 * expected
  {
    if !IsArray(t) then Fail(NotAnArray(t))
    else if SubType(t) != expected then Fail(ItemTypeMismatch(t))
    else Pass
  }

  /** One element read back: `(char) readInt16()` for chars, readInt16,
      readInt32 and readInt64 for the others. */
  function DecodeElement(k: Kind, b: seq<uint8>): int
    requires |b| >= Width(k)
  {
    match k
    case KByte => b[0]
    case KChar => ToChar(ToInt16(U16(b)))
    case KShort => ToInt16(U16(b))
    case KInt | KFloat => ToInt32(U32(b))
    case KLong | KDouble => ToInt64(U64(b))
  }

  /** The first n elements, read front to back. */
  function Elements(k: Kind, s: seq<uint8>, n: nat): (r: seq<int>)
    ensures |r| <= n
  {
    if n == 0 || |s| < Width(k) then []
    else [DecodeElement(k, s)] + Elements(k, s[Width(k)..], n - 1)
  }

  /** The first element and the rest. */
  lemma ElementsCons(k: Kind, s: seq<uint8>, n: nat)
    requires n > 0 && Width(k) <= |s|
    ensures Elements(k, s, n) == [DecodeElement(k, s)] + Elements(k, s[Width(k)..], n - 1)
  {
  }

  /** With enough input, all n elements are there. */
  lemma {:induction false} ElementsLength(k: Kind, s: seq<uint8>, n: nat)
    requires Width(k) * n <= |s|
    ensures |Elements(k, s, n)| == n
  {
    if n > 0 {
      assert Width(k) * (n - 1) == Width(k) * n - Width(k);
      ElementsLength(k, s[Width(k)..], n - 1);
    }
  }

  /** The element loop of a primitive array reader: `n` elements (one bulk
      read for bytes), or the end of the input when fewer bytes are left. */
  function DecodeElements(k: Kind, s: seq<uint8>, n: nat): (r: Result<Decoded<seq<int>>>)
    ensures r.Ok? <==> Width(k) * n <= |s|
    ensures r.Ok? ==> r.value.size == Width(k) * n && |r.value.value| == n
  {
    if |s| < Width(k) * n then Err(EndOfInput)
    else ElementsLength(k, s, n); Ok(Decoded(Elements(k, s, n), Width(k) * n))
  }

  /** `ensureArray(read(), expected)` followed by readLength: the element count. */
  function DecodeArrayHeader(coding: LengthCoding, expected: int, s: seq<uint8>): (r: Result<Decoded<nat>>)
    ensures r.Ok? ==> 2 <= r.value.size <= |s| && s[0] == ARRAY + 16 * expected
  {
    if |s| == 0 then Err(EndOfInput)
    else match CheckArray(s[0], expected)
      case Fail(e) => Err(e)
      case Pass =>
        match DecodeLength(coding, s[1..])
        case Err(e) => Err(e)
        case Ok(len) => Ok(Decoded(len.value, 1 + len.size))
  }

  /** The primitive array readers: the header, then the elements. */
  function DecodeArray(coding: LengthCoding, k: Kind, s: seq<uint8>): (r: Result<Decoded<seq<int>>>)
    ensures r.Ok? ==> r.value.size <= |s|
  {
    match DecodeArrayHeader(coding, KindTag(k), s)
    case Err(e) => Err(e)
    case Ok(h) =>
      match DecodeElements(k, s[h.size..], h.value)
      case Err(e) => Err(e)
      case Ok(d) => Ok(Decoded(d.value, h.size + d.size))
  }

  /** A primitive array read as its header followed by its elements. */
  lemma ArrayParts(coding: LengthCoding, k: Kind, s: seq<uint8>, h: Decoded<nat>, d: Decoded<seq<int>>)
    requires DecodeArrayHeader(coding, KindTag(k), s) == Ok(h)
    requires DecodeElements(k, s[h.size..], h.value) == Ok(d)
    ensures DecodeArray(coding, k, s) == Ok(Decoded(d.value, h.size + d.size))
  {
  }

  /** n values, each through readObjectValue. */
  function DecodeValues<T>(fields: seq<uint8> -> Result<Decoded<T>>, s: seq<uint8>, n: nat): (r: Result<Decoded<seq<T>>>)
    ensures r.Ok? ==> |r.value.value| == n && r.value.size <= |s|
  {
    if n == 0 then Ok(Decoded([], 0))
    else match DecodeObjectValue(fields, s)
      case Err(e) => Err(e)
      case Ok(d) =>
        match DecodeValues(fields, s[d.size..], n - 1)
        case Err(e) => Err(e)
        case Ok(ds) => Ok(Decoded([d.value] + ds.value, d.size + ds.size))
  }

  /** One readObjectValue, then the remaining ones. */
  lemma ValuesCons<T>(readFields: seq<uint8> -> Result<Decoded<T>>, s: seq<uint8>, n: nat,
                      d: Decoded<T>, ds: Decoded<seq<T>>, all: Decoded<seq<T>>)
    requires n > 0 && DecodeObjectValue(readFields, s) == Ok(d)
    requires DecodeValues(readFields, s[d.size..], n - 1) == Ok(ds)
    requires all.value == [d.value] + ds.value && all.size == d.size + ds.size
    ensures DecodeValues(readFields, s, n) == Ok(all)
  {
  }

  /** The first value and the rest of a successful value loop. */
  lemma ValuesUncons<T>(fields: seq<uint8> -> Result<Decoded<T>>, s: seq<uint8>, n: nat, all: Decoded<seq<T>>)
    requires n > 0 && DecodeValues(fields, s, n) == Ok(all)
    ensures DecodeObjectValue(fields, s).Ok?
    ensures var d := DecodeObjectValue(fields, s).value;
            d.size <= |s| && DecodeValues(fields, s[d.size..], n - 1).Ok? &&
            var ds := DecodeValues(fields, s[d.size..], n - 1).value;
            all.value == [d.value] + ds.value && all.size == d.size + ds.size
  {
  }

  /** readObjectArray: the header for USER_TYPE elements, then that many values. */
  function DecodeObjectArray<T>(coding: LengthCoding, fields: seq<uint8> -> Result<Decoded<T>>, s: seq<uint8>)
    : (r: Result<Decoded<seq<T>>>)
    ensures r.Ok? ==> r.value.size <= |s|
  {
    match DecodeArrayHeader(coding, USER_TYPE, s)
    case Err(e) => Err(e)
    case Ok(h) =>
      match DecodeValues(fields, s[h.size..], h.value)
      case Err(e) => Err(e)
      case Ok(vs) => Ok(Decoded(vs.value, h.size + vs.size))
  }

  /** A Java array of references filled with non-null values. */
  function Present<T>(xs: seq<T>): (r: seq<Option<T>>)
    ensures |r| == |xs| && forall i :: 0 <= i < |xs| ==> r[i] == Some(xs[i])
  {
    if |xs| == 0 then [] else [Some(xs[0])] + Present(xs[1..])
  }

  /** A successful object-array read as the Java array it fills: every slot
      holds a reference. */
  function Filled<T>(r: Result<Decoded<seq<T>>>): (f: Result<Decoded<seq<Option<T>>>>)
    ensures f.Ok? <==> r.Ok?
    ensures f.Err? ==> f.error == r.error
    ensures f.Ok? ==> f.value.size == r.value.size && f.value.value == Present(r.value.value)
  {
    match r
    case Err(e) => Err(e)
    case Ok(d) => Ok(Decoded(Present(d.value), d.size))
  }
}
