# binary-format in Dafny

A model of the tagged binary codec of binary-format. Every entry is one tag
byte, optionally followed by a payload:
- the tag's low nibble is the kind;
- for arrays, the tag's high nibble is the element kind.

Lengths and element counts are "packed lengths" of one to four bytes.
Scalars are little-endian. The model covers:

- **Types** (`Types.dfy`): the tag constants and the tag helpers `isArray`,
  `subType` and `array`.
- **Primitive codecs** (`PrimitiveOutput.dfy`, `PrimitiveInput.dfy`):
  - `DefaultPrimitiveBinaryOutput` and `DefaultPrimitiveBinaryInput` over a
    `BinaryOutput` / `BinaryInput`;
  - `Streams.dfy` models those two interfaces. The input is the sequence of
    bytes not read yet, and reading past its end fails. The output is the
    sequence of bytes written so far;
  - the bytes written are specified by `Packing.dfy` (the packed length and
    its two readers) and `Bytes.dfy` (little-endian integers and Java's
    narrowing casts).
- **Writer** (`WritableMedia.dfy`): `SimpleWritableMedia`, specified entry by
  entry by the functions of `Encoding.dfy`.
- **Reader** (`ReadableMedia.dfy`):
  - `SimpleReadableMedia`, specified by the functions of `Decoding.dfy`:
    what is returned, how many bytes are consumed, which exception is
    thrown;
  - `readRest` and its `Scanner`, specified by the functions of
    `Scanning.dfy`.
- **Scratch buffers** (`ArrayFactory.dfy`): `SimpleArrayFactory`.
- **Older snapshot**: the org.uze writer and reader
  (`LegacyWritableMedia.dfy`, `LegacyReadableMedia.dfy`).
  - The writer checks every tag in `putType` and prints user types through
    `Printable` or a resolved `ExternalPrinter`. It writes objects without an
    END_MARKER.
  - The reader reads lengths with the additive reader of
    `DefaultPrimitiveBinaryInput`.
- **Round trips** (`RoundTrips.dfy`): what each reader makes of what each
  writer wrote.

The user-type field writer and field reader are callbacks:
- `fields: T -> seq<uint8>` gives the bytes the writer emits;
- `fields: seq<uint8> -> Result<Decoded<T>>` gives the value the reader reads
  and the number of bytes it consumes.

Exceptions are values of `Failures.Error`, carried by `Result` and `Outcome`.

The model keeps these behaviours of the code, which a reader may not
expect:
- The packed length is written without a continuation bit. Each byte is the
  shifted length `& 0xFF`.
- Both readers add the raw bytes, top bit included. The current reader
  shifts them by 0/7/14/21. `DefaultPrimitiveBinaryInput` and the older
  reader shift by 0/7/7/7. So only lengths 0..127 come back.
- The current reader reads a fifth length byte when the first four have the
  top bit set.
- `writeShort` never narrows -128 to BYTE.
- A BYTE read back as short, int or long is unsigned.
- There is no boolean writer, and `readRest` rejects the BOOLEAN tag.
- `readRest` copies no payload for arrays of user types. It gets out of step
  on them.
- `readObject` and `readObjectArray` reject NULL.
- `writeRest` only throws.

## Model

| member | source | states |
|---|---|---|
| Types.LowNibble | src/main/java/com/github/ykiselev/binary/format/Types.java:107 | `v & MASK` is in 0..15 and differs from v by a multiple of 16, for negative v too |
| Types.KindsDistinctInLowNibble | src/main/java/com/github/ykiselev/binary/format/Types.java:32-98 | the thirteen kinds BYTE..BOOLEAN are 1..13 in order, each inside the low nibble |
| Types.IsArrayIgnoresHighBits | src/main/java/com/github/ykiselev/binary/format/Types.java:106-108 | isArray holds exactly when the low nibble is 9, whatever the high bits are |
| Types.SubType | src/main/java/com/github/ykiselev/binary/format/Types.java:116-118 | subType is always in 0..15 |
| Types.SubTypeOfTag | src/main/java/com/github/ykiselev/binary/format/Types.java:116-118 | on a tag byte, subType is the high nibble, and the byte is its low nibble plus 16 times its subType |
| Types.Array | src/main/java/com/github/ykiselev/binary/format/Types.java:125-131 | array(k) succeeds exactly for k in 0..15 and throws IllegalArgument otherwise; on success the result is an array tag whose subType is k |
| Types.ArrayOfSubType | src/main/java/com/github/ykiselev/binary/format/Types.java:125-131 | array(subType(t)) gives back every array tag t |
| Types.ArrayOfArray | src/main/java/com/github/ykiselev/binary/format/Types.java:125-130 | ARRAY itself is accepted as an element kind, giving 0x99 |
| Bytes.LE16Value | src/main/java/com/github/ykiselev/binary/format/output/DefaultPrimitiveBinaryOutput.java:70-74 | the two bytes written, read back little-endian, are the value modulo 2^16 |
| Bytes.LE32Value | src/main/java/com/github/ykiselev/binary/format/output/DefaultPrimitiveBinaryOutput.java:76-82 | the four bytes written, read back little-endian, are the value modulo 2^32 |
| Bytes.LE64Value | src/main/java/com/github/ykiselev/binary/format/output/DefaultPrimitiveBinaryOutput.java:84-88 | the eight bytes written (low half, then high half), read back little-endian, are the value modulo 2^64 |
| Bytes.HighHalf | src/main/java/com/github/ykiselev/binary/format/output/DefaultPrimitiveBinaryOutput.java:86-87 | `(int) (value >>> 32)` writes the same four bytes as the value's high half |
| Bytes.Int16RoundTrip | src/main/java/com/github/ykiselev/binary/format/input/DefaultPrimitiveBinaryInput.java:67-70 | readInt16 inverts writeInt16 on every short |
| Bytes.CharRoundTrip | src/main/java/com/github/ykiselev/binary/format/media/SimpleReadableMedia.java:148-150 | `(char) readInt16()` inverts writeInt16 on every char |
| Bytes.Int32RoundTrip | src/main/java/com/github/ykiselev/binary/format/input/DefaultPrimitiveBinaryInput.java:72-75 | readInt32 inverts writeInt32 on every int |
| Bytes.Int64RoundTrip | src/main/java/com/github/ykiselev/binary/format/input/DefaultPrimitiveBinaryInput.java:77-81 | readInt64 inverts writeInt64 on every long |
| Bytes.ReadPrefix | src/main/java/com/github/ykiselev/binary/format/input/DefaultPrimitiveBinaryInput.java:67-81 | the integer readers look only at their first 2, 4 or 8 bytes |
| Bytes.U16Injective | src/main/java/com/github/ykiselev/binary/format/input/DefaultPrimitiveBinaryInput.java:67-70 | two-byte inputs with the same little-endian value are equal |
| Bytes.U32Injective | src/main/java/com/github/ykiselev/binary/format/input/DefaultPrimitiveBinaryInput.java:72-75 | four-byte inputs with the same little-endian value are equal |
| Bytes.LE16Cast | src/main/java/com/github/ykiselev/binary/format/media/SimpleWritableMedia.java:231-236 | the `(short)` cast before writeInt16 does not change the bytes written |
| Bytes.LE32Cast | src/main/java/com/github/ykiselev/binary/format/output/DefaultPrimitiveBinaryOutput.java:84-88 | the `(int)` cast before writeInt32 does not change the bytes written |
| Packing.PackedLength | src/main/java/com/github/ykiselev/binary/format/output/DefaultPrimitiveBinaryOutput.java:50-68 | writeLength writes one to four bytes, the first being the low eight bits of the length, and a single byte exactly for lengths below 128 |
| Packing.PackedLengthBytes | src/main/java/com/github/ykiselev/binary/format/output/DefaultPrimitiveBinaryOutput.java:54-67 | byte i is `(length >>> 7i) & 0xFF`, and writing stops at four bytes or once the shifted value is 0 |
| Packing.GroupsBytes | src/main/java/com/github/ykiselev/binary/format/media/SimpleWritableMedia.java:58-76 | the same for the writer's own copy of writeLength, for any byte budget |
| Packing.ShiftedLength | src/main/java/com/github/ykiselev/binary/format/media/SimpleReadableMedia.java:76-86 | the current reader adds `b << 7i` over the bytes up to the first byte with a clear top bit, at most four; it consumes a fifth byte after four with the top bit set; it runs out of input only on at most four bytes |
| Packing.AdditiveLength | src/main/java/com/github/ykiselev/binary/format/input/DefaultPrimitiveBinaryInput.java:47-65 | the additive reader consumes one to four bytes and returns b0 + 128·(b1 + b2 + b3); it runs out of input only on at most three bytes |
| Packing.AdditiveLengthCases | src/main/java/com/github/ykiselev/binary/format/input/DefaultPrimitiveBinaryInput.java:47-65 | the additive reader is the source's nested tests: going on only while the byte just read has its top bit set, failing when the input ends first |
| Packing.SingleByteLength | src/main/java/com/github/ykiselev/binary/format/input/DefaultPrimitiveBinaryInput.java:48-52 | both readers return a single byte with a clear top bit as the length, consuming one byte |
| Packing.LengthRoundTrip | src/main/java/com/github/ykiselev/binary/format/input/DefaultPrimitiveBinaryInput.java:48-65 | both readers read back every length 0..127 that writeLength wrote |
| Packing.TwoBytesWritten | src/main/java/com/github/ykiselev/binary/format/output/DefaultPrimitiveBinaryOutput.java:54-61 | a length in 128..16383 is written as its low eight bits, then length / 128 |
| Packing.TwoByteRead | src/main/java/com/github/ykiselev/binary/format/media/SimpleReadableMedia.java:76-86 | both readers read two bytes, the first with its top bit set, as b0 + 128·b1 |
| Packing.TwoByteLengths | src/main/java/com/github/ykiselev/binary/format/media/SimpleReadableMedia.java:76-86 | a written length in 128..16383 is read back either as its low seven bits from one byte or as the length plus 128 from two bytes, never as itself |
| Packing.LengthTwoHundred | src/main/java/com/github/ykiselev/binary/format/output/DefaultPrimitiveBinaryOutput.java:50-68 | the length 200 is written as 200, 1 and read back as 328 |
| Packing.FifthByteConsumed | src/main/java/com/github/ykiselev/binary/format/media/SimpleReadableMedia.java:78 | after four bytes with the top bit set, the current reader adds those four and consumes a fifth without adding it |
| Packing.LengthsFitInt | src/main/java/com/github/ykiselev/binary/format/media/SimpleReadableMedia.java:76-86 | every length either reader returns is at most 538984575, so its int arithmetic never wraps |
| Encoding.LongEntryShape | src/main/java/com/github/ykiselev/binary/format/media/SimpleWritableMedia.java:155-183 | writeLong picks BYTE for -127..127, SHORT, INT or LONG for the next ranges, and writes 2, 3, 5 or 9 bytes |
| Encoding.ObjectArrayTagIsTypesArray | src/main/java/com/github/ykiselev/binary/format/media/SimpleWritableMedia.java:310 | the object-array tag writeObjectArray writes is Types.array(USER_TYPE), an array tag whose subtype is USER_TYPE |
| Encoding.ArrayTagIsTypesArray | src/main/java/com/github/ykiselev/binary/format/media/SimpleWritableMedia.java:216-316 | each array writer's tag is what Types.array computes for its element kind |
| Encoding.PayloadSnoc | src/main/java/com/github/ykiselev/binary/format/media/SimpleWritableMedia.java:227-303 | one more element appends its fixed-width bytes to the payload |
| Encoding.ValuesSnoc | src/main/java/com/github/ykiselev/binary/format/media/SimpleWritableMedia.java:305-316 | one more object element appends its writeValue entry |
| Decoding.DecodeString | src/main/java/com/github/ykiselev/binary/format/media/SimpleReadableMedia.java:109-128 | readString never consumes more than the input |
| Decoding.DecodeObjectValue | src/main/java/com/github/ykiselev/binary/format/media/SimpleReadableMedia.java:254-261 | readObjectValue consumes at least the END_MARKER and never more than the input |
| Decoding.DecodeObject | src/main/java/com/github/ykiselev/binary/format/media/SimpleReadableMedia.java:245-252 | readObject consumes at least USER_TYPE and END_MARKER |
| Decoding.CheckArray | src/main/java/com/github/ykiselev/binary/format/media/SimpleReadableMedia.java:263-270 | ensureArray passes exactly for the tag ARRAY + 16·expected |
| Decoding.ElementsLength | src/main/java/com/github/ykiselev/binary/format/media/SimpleReadableMedia.java:281-345 | with width·n bytes of input, the element loop reads n elements |
| Decoding.DecodeElements | src/main/java/com/github/ykiselev/binary/format/media/SimpleReadableMedia.java:272-345 | the element loop succeeds exactly when width·n bytes are there, then consumes exactly those and returns n elements |
| Decoding.DecodeArrayHeader | src/main/java/com/github/ykiselev/binary/format/media/SimpleReadableMedia.java:272-274 | a header that is read has the array tag of the expected kind and takes at least two bytes |
| Decoding.DecodeValues | src/main/java/com/github/ykiselev/binary/format/media/SimpleReadableMedia.java:347-357 | the value loop returns exactly n values |
| Decoding.Present | src/main/java/com/github/ykiselev/binary/format/media/SimpleReadableMedia.java:347-357 | the array that readObjectArray fills holds a reference to each value read, in order |
| Decoding.Filled | src/main/java/com/github/ykiselev/binary/format/media/SimpleReadableMedia.java:347-357 | readObjectArray succeeds exactly when the value loop does, with the same error or the same size |
| Streams.Input.Read | src/main/java/com/github/ykiselev/binary/format/input/BinaryInput.java:25-32 | read() returns the next byte, 0..255, and consumes it; at the end of the input it fails |
| Streams.Input.ReadInto | src/main/java/com/github/ykiselev/binary/format/input/BinaryInput.java:34-41 | read(buffer, length) fills exactly `length` bytes, or fails |
| Streams.Output.Write | src/main/java/com/github/ykiselev/binary/format/output/BinaryOutput.java:28-34 | write(int) appends the low eight bits of the value |
| Streams.Output.WriteArray | src/main/java/com/github/ykiselev/binary/format/output/BinaryOutput.java:36-44 | write(data, offset, length) appends the slice unchanged |
| PrimitiveOutput.DefaultPrimitiveBinaryOutput.Write | src/main/java/com/github/ykiselev/binary/format/output/DefaultPrimitiveBinaryOutput.java:32-35 | write passes the byte to the wrapped output |
| PrimitiveOutput.DefaultPrimitiveBinaryOutput.WriteArray | src/main/java/com/github/ykiselev/binary/format/output/DefaultPrimitiveBinaryOutput.java:37-40 | write(data, offset, length) passes the slice to the wrapped output unchanged |
| PrimitiveOutput.DefaultPrimitiveBinaryOutput.WriteLength | src/main/java/com/github/ykiselev/binary/format/output/DefaultPrimitiveBinaryOutput.java:50-68 | a negative length throws IllegalArgument and writes nothing; any other length appends its packed length |
| PrimitiveOutput.DefaultPrimitiveBinaryOutput.WriteInt16 | src/main/java/com/github/ykiselev/binary/format/output/DefaultPrimitiveBinaryOutput.java:70-74 | appends the two little-endian bytes |
| PrimitiveOutput.DefaultPrimitiveBinaryOutput.WriteInt32 | src/main/java/com/github/ykiselev/binary/format/output/DefaultPrimitiveBinaryOutput.java:76-82 | appends the four little-endian bytes |
| PrimitiveOutput.DefaultPrimitiveBinaryOutput.WriteInt64 | src/main/java/com/github/ykiselev/binary/format/output/DefaultPrimitiveBinaryOutput.java:84-88 | appends the eight little-endian bytes |
| PrimitiveOutput.DefaultPrimitiveBinaryOutput.WriteFloat | src/main/java/com/github/ykiselev/binary/format/output/DefaultPrimitiveBinaryOutput.java:90-93 | appends the raw bits of the float as writeInt32 does |
| PrimitiveOutput.DefaultPrimitiveBinaryOutput.WriteDouble | src/main/java/com/github/ykiselev/binary/format/output/DefaultPrimitiveBinaryOutput.java:95-98 | appends the raw bits of the double as writeInt64 does |
| PrimitiveInput.DefaultPrimitiveBinaryInput.Read | src/main/java/com/github/ykiselev/binary/format/input/DefaultPrimitiveBinaryInput.java:32-35 | read consumes and returns the next byte, or fails at the end |
| PrimitiveInput.DefaultPrimitiveBinaryInput.ReadInto | src/main/java/com/github/ykiselev/binary/format/input/DefaultPrimitiveBinaryInput.java:37-40 | read(buffer, length) fills the buffer with the next `length` bytes, or fails |
| PrimitiveInput.DefaultPrimitiveBinaryInput.ReadLength | src/main/java/com/github/ykiselev/binary/format/input/DefaultPrimitiveBinaryInput.java:47-65 | returns and consumes what AdditiveLength describes, or throws its error |
| PrimitiveInput.DefaultPrimitiveBinaryInput.ReadInt16 | src/main/java/com/github/ykiselev/binary/format/input/DefaultPrimitiveBinaryInput.java:67-70 | the sign-extended little-endian short of the next two bytes |
| PrimitiveInput.DefaultPrimitiveBinaryInput.ReadInt32 | src/main/java/com/github/ykiselev/binary/format/input/DefaultPrimitiveBinaryInput.java:72-75 | the two's-complement int of the next four bytes |
| PrimitiveInput.DefaultPrimitiveBinaryInput.ReadInt64 | src/main/java/com/github/ykiselev/binary/format/input/DefaultPrimitiveBinaryInput.java:77-81 | the two's-complement long of the next eight bytes |
| PrimitiveInput.DefaultPrimitiveBinaryInput.ReadFloat | src/main/java/com/github/ykiselev/binary/format/input/DefaultPrimitiveBinaryInput.java:83-86 | the raw bits of a float, read as readInt32 reads |
| PrimitiveInput.DefaultPrimitiveBinaryInput.ReadDouble | src/main/java/com/github/ykiselev/binary/format/input/DefaultPrimitiveBinaryInput.java:88-91 | the raw bits of a double, read as readInt64 reads |
| WritableMedia.SimpleWritableMedia.WriteNull | src/main/java/com/github/ykiselev/binary/format/media/SimpleWritableMedia.java:103-105 | appends exactly one NULL byte |
| WritableMedia.SimpleWritableMedia.WriteType | src/main/java/com/github/ykiselev/binary/format/media/SimpleWritableMedia.java:107-109 | appends the tag byte |
| WritableMedia.SimpleWritableMedia.WriteString | src/main/java/com/github/ykiselev/binary/format/media/SimpleWritableMedia.java:123-137 | appends NULL for null, and otherwise STRING, the packed byte count and the bytes (STRING, 0 for "") |
| WritableMedia.SimpleWritableMedia.WriteByte | src/main/java/com/github/ykiselev/binary/format/media/SimpleWritableMedia.java:139-143 | appends BYTE and the byte |
| WritableMedia.SimpleWritableMedia.WriteChar | src/main/java/com/github/ykiselev/binary/format/media/SimpleWritableMedia.java:145-153 | appends a BYTE entry for chars up to 127, and otherwise CHAR and two little-endian bytes |
| WritableMedia.SimpleWritableMedia.WriteShort | src/main/java/com/github/ykiselev/binary/format/media/SimpleWritableMedia.java:155-163 | appends a BYTE entry for -127..127, and otherwise SHORT and two bytes |
| WritableMedia.SimpleWritableMedia.WriteInt | src/main/java/com/github/ykiselev/binary/format/media/SimpleWritableMedia.java:165-173 | appends writeShort's entry inside the short range, and otherwise INT and four bytes |
| WritableMedia.SimpleWritableMedia.WriteLong | src/main/java/com/github/ykiselev/binary/format/media/SimpleWritableMedia.java:175-183 | appends writeInt's entry inside the int range, and otherwise LONG and eight bytes |
| WritableMedia.SimpleWritableMedia.WriteFloat | src/main/java/com/github/ykiselev/binary/format/media/SimpleWritableMedia.java:185-189 | appends FLOAT and the four bytes of the raw bits |
| WritableMedia.SimpleWritableMedia.WriteDouble | src/main/java/com/github/ykiselev/binary/format/media/SimpleWritableMedia.java:191-195 | appends DOUBLE and the eight bytes of the raw bits |
| WritableMedia.SimpleWritableMedia.WriteValue | src/main/java/com/github/ykiselev/binary/format/media/SimpleWritableMedia.java:197-204 | appends NULL for null, and otherwise the field writer's bytes and one END_MARKER |
| WritableMedia.SimpleWritableMedia.WriteObject | src/main/java/com/github/ykiselev/binary/format/media/SimpleWritableMedia.java:206-214 | appends NULL for null, and otherwise USER_TYPE, the fields and one END_MARKER |
| WritableMedia.SimpleWritableMedia.WriteArrayHeader | src/main/java/com/github/ykiselev/binary/format/media/SimpleWritableMedia.java:221-222 | appends array(kind) and the packed element count |
| WritableMedia.SimpleWritableMedia.WriteByteArray | src/main/java/com/github/ykiselev/binary/format/media/SimpleWritableMedia.java:216-225 | appends NULL for null, and otherwise the tag, the count and the bytes |
| WritableMedia.SimpleWritableMedia.WriteCharArray | src/main/java/com/github/ykiselev/binary/format/media/SimpleWritableMedia.java:227-238 | appends NULL for null, and otherwise the tag, the count and two bytes per char, without tags |
| WritableMedia.SimpleWritableMedia.WriteShortArray | src/main/java/com/github/ykiselev/binary/format/media/SimpleWritableMedia.java:240-251 | the same, two bytes per short |
| WritableMedia.SimpleWritableMedia.WriteIntArray | src/main/java/com/github/ykiselev/binary/format/media/SimpleWritableMedia.java:253-264 | the same, four bytes per int |
| WritableMedia.SimpleWritableMedia.WriteLongArray | src/main/java/com/github/ykiselev/binary/format/media/SimpleWritableMedia.java:266-277 | the same, eight bytes per long |
| WritableMedia.SimpleWritableMedia.WriteFloatArray | src/main/java/com/github/ykiselev/binary/format/media/SimpleWritableMedia.java:279-290 | the same, four bytes of raw bits per float |
| WritableMedia.SimpleWritableMedia.WriteDoubleArray | src/main/java/com/github/ykiselev/binary/format/media/SimpleWritableMedia.java:292-303 | the same, eight bytes of raw bits per double |
| WritableMedia.SimpleWritableMedia.WriteObjectArray | src/main/java/com/github/ykiselev/binary/format/media/SimpleWritableMedia.java:305-316 | appends NULL for null, and otherwise the USER_TYPE array tag, the count and each element's writeValue entry (no USER_TYPE per element; NULL for a null element) |
| WritableMedia.SimpleWritableMedia.WriteValues | src/main/java/com/github/ykiselev/binary/format/media/SimpleWritableMedia.java:312-314 | the loop appends the writeValue entries of all elements, in order |
| WritableMedia.SimpleWritableMedia.WriteRest | src/main/java/com/github/ykiselev/binary/format/media/SimpleWritableMedia.java:318-321 | always throws Unsupported and writes nothing |
| WritableMedia.WriteCharElements | src/main/java/com/github/ykiselev/binary/format/media/SimpleWritableMedia.java:233-235 | the loop appends the payload of every char |
| WritableMedia.WriteShortElements | src/main/java/com/github/ykiselev/binary/format/media/SimpleWritableMedia.java:246-248 | the loop appends the payload of every short |
| WritableMedia.WriteIntElements | src/main/java/com/github/ykiselev/binary/format/media/SimpleWritableMedia.java:259-261 | the loop appends the payload of every int |
| WritableMedia.WriteLongElements | src/main/java/com/github/ykiselev/binary/format/media/SimpleWritableMedia.java:272-274 | the loop appends the payload of every long |
| WritableMedia.WriteFloatElements | src/main/java/com/github/ykiselev/binary/format/media/SimpleWritableMedia.java:285-287 | the loop appends the payload of every float |
| WritableMedia.WriteDoubleElements | src/main/java/com/github/ykiselev/binary/format/media/SimpleWritableMedia.java:298-300 | the loop appends the payload of every double |
| WritableMedia.PayloadStep | src/main/java/com/github/ykiselev/binary/format/media/SimpleWritableMedia.java:227-303 | one turn of an element loop extends the payload written by one element |
| WritableMedia.ValuesStep | src/main/java/com/github/ykiselev/binary/format/media/SimpleWritableMedia.java:312-314 | one turn of the object loop extends the values written by one entry |
| WritableMedia.ArrayAssembled | src/main/java/com/github/ykiselev/binary/format/media/SimpleWritableMedia.java:216-303 | the header followed by the element payload is the array entry |
| WritableMedia.ObjectArrayAssembled | src/main/java/com/github/ykiselev/binary/format/media/SimpleWritableMedia.java:305-316 | the header followed by the values is the object array entry |
| WritableMedia.BytePayload | src/main/java/com/github/ykiselev/binary/format/media/SimpleWritableMedia.java:216-225 | a byte array's payload is its bytes |
| ReadableMedia.SimpleReadableMedia.constructor | src/main/java/com/github/ykiselev/binary/format/media/SimpleReadableMedia.java:49-52 | the reader over the given input and field reader |
| ReadableMedia.SimpleReadableMedia.Read | src/main/java/com/github/ykiselev/binary/format/media/SimpleReadableMedia.java:54-56 | consumes and returns the next byte, or fails at the end |
| ReadableMedia.SimpleReadableMedia.ReadInto | src/main/java/com/github/ykiselev/binary/format/media/SimpleReadableMedia.java:58-60 | fills the buffer with the next `length` bytes, or fails |
| ReadableMedia.SimpleReadableMedia.ReadLengthTo | src/main/java/com/github/ykiselev/binary/format/media/SimpleReadableMedia.java:76-86 | returns what ShiftedLength describes and consumes as much; appends exactly the bytes it added to the output, not the fifth byte |
| ReadableMedia.SimpleReadableMedia.ReadLength | src/main/java/com/github/ykiselev/binary/format/media/SimpleReadableMedia.java:67-69 | readLength() is readLength(output) into a discarding output |
| ReadableMedia.SimpleReadableMedia.ReadInt16 | src/main/java/com/github/ykiselev/binary/format/media/SimpleReadableMedia.java:88-90 | the sign-extended little-endian short of the next two bytes |
| ReadableMedia.SimpleReadableMedia.ReadInt32 | src/main/java/com/github/ykiselev/binary/format/media/SimpleReadableMedia.java:92-94 | the two's-complement int of the next four bytes |
| ReadableMedia.SimpleReadableMedia.ReadInt64 | src/main/java/com/github/ykiselev/binary/format/media/SimpleReadableMedia.java:96-99 | the two's-complement long of the next eight bytes |
| ReadableMedia.SimpleReadableMedia.ReadFloat32 | src/main/java/com/github/ykiselev/binary/format/media/SimpleReadableMedia.java:101-103 | the raw bits of a float |
| ReadableMedia.SimpleReadableMedia.ReadFloat64 | src/main/java/com/github/ykiselev/binary/format/media/SimpleReadableMedia.java:105-107 | the raw bits of a double |
| ReadableMedia.SimpleReadableMedia.ReadString | src/main/java/com/github/ykiselev/binary/format/media/SimpleReadableMedia.java:109-128 | null after a lone NULL; "" for STRING with length 0; otherwise the counted bytes; any other tag throws NotAString; result and consumption as DecodeString describes |
| ReadableMedia.SimpleReadableMedia.ReadByte | src/main/java/com/github/ykiselev/binary/format/media/SimpleReadableMedia.java:130-137 | exactly BYTE, then the signed byte, as DecodeByte describes |
| ReadableMedia.SimpleReadableMedia.ReadChar | src/main/java/com/github/ykiselev/binary/format/media/SimpleReadableMedia.java:139-156 | BYTE (unsigned) or CHAR, as DecodeChar describes |
| ReadableMedia.SimpleReadableMedia.ReadShort | src/main/java/com/github/ykiselev/binary/format/media/SimpleReadableMedia.java:158-175 | BYTE (unsigned) or SHORT, as DecodeShort describes |
| ReadableMedia.SimpleReadableMedia.ReadInt | src/main/java/com/github/ykiselev/binary/format/media/SimpleReadableMedia.java:177-198 | BYTE (unsigned), SHORT or INT, as DecodeInt describes |
| ReadableMedia.SimpleReadableMedia.ReadLong | src/main/java/com/github/ykiselev/binary/format/media/SimpleReadableMedia.java:200-225 | BYTE (unsigned), SHORT, INT or LONG, as DecodeLong describes |
| ReadableMedia.SimpleReadableMedia.ReadFloat | src/main/java/com/github/ykiselev/binary/format/media/SimpleReadableMedia.java:227-234 | exactly FLOAT, then the raw bits |
| ReadableMedia.SimpleReadableMedia.ReadDouble | src/main/java/com/github/ykiselev/binary/format/media/SimpleReadableMedia.java:236-243 | exactly DOUBLE, then the raw bits |
| ReadableMedia.SimpleReadableMedia.ReadFields | src/main/java/com/github/ykiselev/binary/format/media/SimpleReadableMedia.java:255 | the field reader's value, consuming the bytes it claims |
| ReadableMedia.SimpleReadableMedia.ReadObject | src/main/java/com/github/ykiselev/binary/format/media/SimpleReadableMedia.java:245-252 | USER_TYPE is required (NULL throws), then readObjectValue, as DecodeObject describes |
| ReadableMedia.SimpleReadableMedia.ReadObjectValue | src/main/java/com/github/ykiselev/binary/format/media/SimpleReadableMedia.java:254-261 | the fields, then END_MARKER is required, as DecodeObjectValue describes |
| ReadableMedia.SimpleReadableMedia.ReadArrayHeader | src/main/java/com/github/ykiselev/binary/format/media/SimpleReadableMedia.java:273-274 | ensureArray on the tag, then readLength |
| ReadableMedia.SimpleReadableMedia.ReadByteArray | src/main/java/com/github/ykiselev/binary/format/media/SimpleReadableMedia.java:272-279 | a new array holding the elements DecodeArray describes, or its error |
| ReadableMedia.SimpleReadableMedia.ReadCharArray | src/main/java/com/github/ykiselev/binary/format/media/SimpleReadableMedia.java:281-290 | the same for chars |
| ReadableMedia.SimpleReadableMedia.ReadShortArray | src/main/java/com/github/ykiselev/binary/format/media/SimpleReadableMedia.java:292-301 | the same for shorts |
| ReadableMedia.SimpleReadableMedia.ReadIntArray | src/main/java/com/github/ykiselev/binary/format/media/SimpleReadableMedia.java:303-312 | the same for ints |
| ReadableMedia.SimpleReadableMedia.ReadLongArray | src/main/java/com/github/ykiselev/binary/format/media/SimpleReadableMedia.java:314-323 | the same for longs |
| ReadableMedia.SimpleReadableMedia.ReadFloatArray | src/main/java/com/github/ykiselev/binary/format/media/SimpleReadableMedia.java:325-334 | the same for floats |
| ReadableMedia.SimpleReadableMedia.ReadDoubleArray | src/main/java/com/github/ykiselev/binary/format/media/SimpleReadableMedia.java:336-345 | the same for doubles |
| ReadableMedia.SimpleReadableMedia.ReadObjectArray | src/main/java/com/github/ykiselev/binary/format/media/SimpleReadableMedia.java:347-357 | a new array holding a reference to every value DecodeObjectArray reads, or its error |
| ReadableMedia.SimpleReadableMedia.ReadValues | src/main/java/com/github/ykiselev/binary/format/media/SimpleReadableMedia.java:353-355 | the loop fills the array with the values DecodeValues reads, or stops with the first error |
| ReadableMedia.SimpleReadableMedia.EnsureArray | src/main/java/com/github/ykiselev/binary/format/media/SimpleReadableMedia.java:263-270 | passes exactly for the tag ARRAY + 16·expected; otherwise NotAnArray or ItemTypeMismatch |
| ReadableMedia.SimpleReadableMedia.ReadRest | src/main/java/com/github/ykiselev/binary/format/media/SimpleReadableMedia.java:359-365 | scans until the depth is no longer positive: consumes and echoes what ScanRest at depth one describes, or throws its error |
| ReadableMedia.Scanner.constructor | src/main/java/com/github/ykiselev/binary/format/media/SimpleReadableMedia.java:376-389 | a new scanner starts at depth one |
| ReadableMedia.Scanner.Advance | src/main/java/com/github/ykiselev/binary/format/media/SimpleReadableMedia.java:362-364 | one turn of readRest's loop: a successful scan() moves strictly forward in the input, and what readRest still has to consume and echo is then what ScanRest describes from the new position; a failed scan() is the error readRest reports |
| ReadableMedia.Scanner.Scan | src/main/java/com/github/ykiselev/binary/format/media/SimpleReadableMedia.java:396-466 | one entry: depth, bytes consumed and bytes echoed as ScanStep describes, or its error |
| ReadableMedia.Scanner.Echo | src/main/java/com/github/ykiselev/binary/format/media/SimpleReadableMedia.java:418-426 | `output.write(read())` once or twice: echoes the tag and the payload bytes |
| ReadableMedia.Scanner.CopyCounted | src/main/java/com/github/ykiselev/binary/format/media/SimpleReadableMedia.java:414-416 | STRING and arrays: echoes the length bytes it adds, then copies the payload, as ScanCounted describes |
| ReadableMedia.Scanner.Copy | src/main/java/com/github/ykiselev/binary/format/media/SimpleReadableMedia.java:468-472 | copy(n) consumes and echoes n bytes, or fails; its buffer comes from the corrected refine (see Left out) |
| ReadableMedia.LargeCopyOverflowsRefine | src/main/java/com/github/ykiselev/binary/format/media/SimpleReadableMedia.java:468-470 | an int array with length bytes 128, 128, 128, 128 and a fifth makes readRest ask copy() for 1,082,196,480 bytes, over 2^30, which SimpleArrayFactory(16)'s int doubling never reaches |
| ReadableMedia.ReadCharElements | src/main/java/com/github/ykiselev/binary/format/media/SimpleReadableMedia.java:285-287 | the loop reads the elements DecodeElements describes into the array, or stops at the end of input |
| ReadableMedia.ReadShortElements | src/main/java/com/github/ykiselev/binary/format/media/SimpleReadableMedia.java:296-298 | the same for shorts |
| ReadableMedia.ReadIntElements | src/main/java/com/github/ykiselev/binary/format/media/SimpleReadableMedia.java:307-309 | the same for ints |
| ReadableMedia.ReadLongElements | src/main/java/com/github/ykiselev/binary/format/media/SimpleReadableMedia.java:318-320 | the same for longs |
| ReadableMedia.ReadFloatElements | src/main/java/com/github/ykiselev/binary/format/media/SimpleReadableMedia.java:329-331 | the same for floats |
| ReadableMedia.ReadDoubleElements | src/main/java/com/github/ykiselev/binary/format/media/SimpleReadableMedia.java:340-342 | the same for doubles |
| ReadableMedia.ByteElements | src/main/java/com/github/ykiselev/binary/format/media/SimpleReadableMedia.java:276-277 | the bulk read of a byte array gives the elements one by one |
| ReadableMedia.ElementsSnoc | src/main/java/com/github/ykiselev/binary/format/media/SimpleReadableMedia.java:281-345 | one more turn of an element loop reads one more element |
| ReadableMedia.ArrayRead | src/main/java/com/github/ykiselev/binary/format/media/SimpleReadableMedia.java:272-345 | a primitive array reader is its header followed by its element loop |
| ReadableMedia.ObjectArrayRead | src/main/java/com/github/ykiselev/binary/format/media/SimpleReadableMedia.java:347-357 | the object array reader is its header followed by its value loop |
| ReadableMedia.ValuesReadSnoc | src/main/java/com/github/ykiselev/binary/format/media/SimpleReadableMedia.java:353-355 | one more turn of the value loop reads one more value |
| ReadableMedia.ValuesFail | src/main/java/com/github/ykiselev/binary/format/media/SimpleReadableMedia.java:353-355 | a value that fails ends readObjectArray with its error |
| ReadableMedia.ScanRestAdvances | src/main/java/com/github/ykiselev/binary/format/media/SimpleReadableMedia.java:362-364 | one turn of readRest's loop moves what has been echoed and consumed forward by one scan() |
| ReadableMedia.ScanRestFails | src/main/java/com/github/ykiselev/binary/format/media/SimpleReadableMedia.java:362-364 | a scan() that throws ends readRest with its error |
| Scanning.Copy | src/main/java/com/github/ykiselev/binary/format/media/SimpleReadableMedia.java:468-472 | copy(n) consumes and echoes exactly n bytes; a negative n or too little input is an error |
| Scanning.PayloadBytes | src/main/java/com/github/ykiselev/binary/format/media/SimpleReadableMedia.java:442-461 | the payload byte count of an array is computed in Java int arithmetic: for a count in the int range it stays in the int range |
| Scanning.ScanStep | src/main/java/com/github/ykiselev/binary/format/media/SimpleReadableMedia.java:396-466 | one scan() never consumes more than the input and never raises the depth by more than one |
| Scanning.ScanRest | src/main/java/com/github/ykiselev/binary/format/media/SimpleReadableMedia.java:359-365 | readRest never consumes more than the input |
| Scanning.ScanRestStep | src/main/java/com/github/ykiselev/binary/format/media/SimpleReadableMedia.java:362-364 | at a positive depth, readRest is one scan() followed by readRest at the new depth |
| Scanning.ScanEcho | src/main/java/com/github/ykiselev/binary/format/media/SimpleReadableMedia.java:396-466 | the echo of one scan() is what it consumed, except the final END_MARKER and a fifth length byte |
| Scanning.BooleanRejected | src/main/java/com/github/ykiselev/binary/format/media/SimpleReadableMedia.java:462-463 | the BOOLEAN tag makes readRest throw |
| Scanning.FlatIsTransparent | src/main/java/com/github/ykiselev/binary/format/media/SimpleReadableMedia.java:362-364 | bytes one scan() takes whole without a depth change let readRest go on with what follows |
| Scanning.ConcatTransparent | src/main/java/com/github/ykiselev/binary/format/media/SimpleReadableMedia.java:362-364 | entries written one after the other are transparent to readRest when each is |
| Scanning.ObjectTransparent | src/main/java/com/github/ykiselev/binary/format/media/SimpleReadableMedia.java:398-412 | a user type with transparent fields is transparent: USER_TYPE goes down one level and its END_MARKER comes back |
| Scanning.ReadRestOfObject | src/main/java/com/github/ykiselev/binary/format/media/SimpleReadableMedia.java:359-365 | readRest inside a user type echoes the remaining transparent fields and consumes the closing END_MARKER without echoing it |
| Scanning.ScalarsTransparent | src/main/java/com/github/ykiselev/binary/format/media/SimpleReadableMedia.java:418-436 | every scalar entry the writer emits is transparent to readRest |
| Scanning.StringTransparent | src/main/java/com/github/ykiselev/binary/format/media/SimpleReadableMedia.java:414-416 | a string shorter than 128 bytes is transparent to readRest |
| Scanning.ArrayTransparent | src/main/java/com/github/ykiselev/binary/format/media/SimpleReadableMedia.java:438-461 | a primitive array of fewer than 128 elements is transparent to readRest |
| Scanning.ObjectArrayDesync | src/main/java/com/github/ykiselev/binary/format/media/SimpleReadableMedia.java:442-461 | an object array inside a user type ends readRest at its first element's END_MARKER and leaves the object's own marker unread |
| Scanning.LongArrayLengthWraps | src/main/java/com/github/ykiselev/binary/format/media/SimpleReadableMedia.java:457-459 | a long array announced with 2^29 elements gets `8 * length` = 0 bytes copied |
| Scanning.IntArrayLengthWraps | src/main/java/com/github/ykiselev/binary/format/media/SimpleReadableMedia.java:452-454 | the same length on an int array makes `4 * length` negative, and the copy throws |
| ArrayFactory.Doubling | src/main/java/com/github/ykiselev/binary/format/media/SimpleArrayFactory.java:42-48 | the refined length is at least minLength and at least the capacity |
| ArrayFactory.DoublingIsLeast | src/main/java/com/github/ykiselev/binary/format/media/SimpleArrayFactory.java:42-48 | the refined length is minLength·2^k for the least k that reaches the capacity |
| ArrayFactory.RefineOverflows | src/main/java/com/github/ykiselev/binary/format/media/SimpleArrayFactory.java:43-46 | with minLength 16, int doubling never reaches the capacity 2^30 + 1 |
| ArrayFactory.SimpleArrayFactory.constructor | src/main/java/com/github/ykiselev/binary/format/media/SimpleArrayFactory.java:34-36 | a positive minLength and no stored array, so the first get allocates |
| ArrayFactory.SimpleArrayFactory.Refine | src/main/java/com/github/ykiselev/binary/format/media/SimpleArrayFactory.java:42-48 | the doubling loop computes Doubling(minLength, capacity) |
| ArrayFactory.SimpleArrayFactory.Get | src/main/java/com/github/ykiselev/binary/format/media/SimpleArrayFactory.java:50-56 | the result is stored and has at least the capacity; it is the old array when that was long enough, and otherwise a new array of the refined length; the stored array only grows |
| LegacyWritableMedia.TypeByte | src/main/java/org/uze/binary/protocol/media/AbstractWritableMedia.java:46-56 | putType succeeds exactly when type and subtype are both in 0..15, and otherwise throws IllegalArgument; the byte has the type as low nibble and the subtype as subType |
| LegacyWritableMedia.TypeByteAgrees | src/main/java/org/uze/binary/protocol/media/AbstractWritableMedia.java:42-56 | a kind on its own is its own tag byte, and putType(ARRAY, s) accepts and computes what Types.array does for every s |
| LegacyWritableMedia.ValueWritten | src/main/java/org/uze/binary/protocol/media/AbstractWritableMedia.java:176-189 | putValue completes exactly for null or a printable value; it writes NULL or what is printed, and throws NoPrinter before writing anything |
| LegacyWritableMedia.WrittenAppend | src/main/java/org/uze/binary/protocol/media/AbstractWritableMedia.java:297-299 | writing two runs of values is the first run, then the second unless the first threw |
| LegacyWritableMedia.ValuesCompleteIff | src/main/java/org/uze/binary/protocol/media/AbstractWritableMedia.java:297-299 | the value loop completes exactly when every non-null element can be printed, and otherwise throws NoPrinter |
| LegacyWritableMedia.StopsAtFirstUnprintable | src/main/java/org/uze/binary/protocol/media/AbstractWritableMedia.java:297-299 | the loop leaves the entries of the elements before the first unprintable one, then throws |
| LegacyWritableMedia.LegacyObjectLacksEndMarker | src/main/java/org/uze/binary/protocol/media/AbstractWritableMedia.java:191-199 | a legacy object is the current writer's entry without its END_MARKER |
| LegacyWritableMedia.LegacyObjectMisread | src/main/java/org/uze/binary/format/media/SimpleReadableMedia.java:223-239 | readObject does not read back a legacy object: it wants END_MARKER from the next entry and fails unless that entry starts with one |
| LegacyWritableMedia.AbstractWritableMedia.constructor | src/main/java/org/uze/binary/protocol/media/AbstractWritableMedia.java:30-36 | the writer over an output and a printer |
| LegacyWritableMedia.AbstractWritableMedia.PutType | src/main/java/org/uze/binary/protocol/media/AbstractWritableMedia.java:46-56 | appends the checked tag byte, or throws IllegalArgument and writes nothing |
| LegacyWritableMedia.AbstractWritableMedia.PutSimpleType | src/main/java/org/uze/binary/protocol/media/AbstractWritableMedia.java:42-44 | appends a type in 0..15 as it is, and otherwise throws without writing |
| LegacyWritableMedia.AbstractWritableMedia.PutNull | src/main/java/org/uze/binary/protocol/media/AbstractWritableMedia.java:38-40 | appends exactly one NULL byte |
| LegacyWritableMedia.AbstractWritableMedia.PutLength | src/main/java/org/uze/binary/protocol/media/AbstractWritableMedia.java:65-83 | throws on a negative length and writes nothing; otherwise appends the packed length |
| LegacyWritableMedia.AbstractWritableMedia.PutInt16 | src/main/java/org/uze/binary/protocol/media/AbstractWritableMedia.java:127-130 | appends two little-endian bytes |
| LegacyWritableMedia.AbstractWritableMedia.PutInt32 | src/main/java/org/uze/binary/protocol/media/AbstractWritableMedia.java:132-137 | appends four little-endian bytes |
| LegacyWritableMedia.AbstractWritableMedia.PutInt64 | src/main/java/org/uze/binary/protocol/media/AbstractWritableMedia.java:139-142 | appends eight little-endian bytes |
| LegacyWritableMedia.AbstractWritableMedia.PutString | src/main/java/org/uze/binary/protocol/media/AbstractWritableMedia.java:85-99 | the same entry as the current writeString |
| LegacyWritableMedia.AbstractWritableMedia.PutByte | src/main/java/org/uze/binary/protocol/media/AbstractWritableMedia.java:101-105 | the same entry as the current writeByte |
| LegacyWritableMedia.AbstractWritableMedia.PutChar | src/main/java/org/uze/binary/protocol/media/AbstractWritableMedia.java:107-115 | the same entry as the current writeChar |
| LegacyWritableMedia.AbstractWritableMedia.PutShort | src/main/java/org/uze/binary/protocol/media/AbstractWritableMedia.java:117-125 | the same entry as the current writeShort, BYTE only for -127..127 |
| LegacyWritableMedia.AbstractWritableMedia.PutInt | src/main/java/org/uze/binary/protocol/media/AbstractWritableMedia.java:144-152 | the same entry as the current writeInt |
| LegacyWritableMedia.AbstractWritableMedia.PutLong | src/main/java/org/uze/binary/protocol/media/AbstractWritableMedia.java:154-162 | the same entry as the current writeLong |
| LegacyWritableMedia.AbstractWritableMedia.PutFloat | src/main/java/org/uze/binary/protocol/media/AbstractWritableMedia.java:164-168 | the same entry as the current writeFloat |
| LegacyWritableMedia.AbstractWritableMedia.PutDouble | src/main/java/org/uze/binary/protocol/media/AbstractWritableMedia.java:170-174 | the same entry as the current writeDouble |
| LegacyWritableMedia.AbstractWritableMedia.PutValue | src/main/java/org/uze/binary/protocol/media/AbstractWritableMedia.java:176-189 | appends and returns what ValueWritten describes |
| LegacyWritableMedia.AbstractWritableMedia.PutObject | src/main/java/org/uze/binary/protocol/media/AbstractWritableMedia.java:191-199 | NULL for null; otherwise USER_TYPE, then putValue, with no END_MARKER; a missing printer throws after the USER_TYPE byte |
| LegacyWritableMedia.AbstractWritableMedia.PutArrayHeader | src/main/java/org/uze/binary/protocol/media/AbstractWritableMedia.java:206-207 | `putType(ARRAY, kind)` and putLength append the array tag and the count |
| LegacyWritableMedia.AbstractWritableMedia.PutByteArray | src/main/java/org/uze/binary/protocol/media/AbstractWritableMedia.java:201-210 | the same entry as the current writeByteArray |
| LegacyWritableMedia.AbstractWritableMedia.PutCharArray | src/main/java/org/uze/binary/protocol/media/AbstractWritableMedia.java:212-223 | the same entry as the current writeCharArray |
| LegacyWritableMedia.AbstractWritableMedia.PutShortArray | src/main/java/org/uze/binary/protocol/media/AbstractWritableMedia.java:225-236 | the same entry as the current writeShortArray |
| LegacyWritableMedia.AbstractWritableMedia.PutIntArray | src/main/java/org/uze/binary/protocol/media/AbstractWritableMedia.java:238-249 | the same entry as the current writeIntArray |
| LegacyWritableMedia.AbstractWritableMedia.PutLongArray | src/main/java/org/uze/binary/protocol/media/AbstractWritableMedia.java:251-262 | the same entry as the current writeLongArray |
| LegacyWritableMedia.AbstractWritableMedia.PutFloatArray | src/main/java/org/uze/binary/protocol/media/AbstractWritableMedia.java:264-275 | the same entry as the current writeFloatArray |
| LegacyWritableMedia.AbstractWritableMedia.PutDoubleArray | src/main/java/org/uze/binary/protocol/media/AbstractWritableMedia.java:277-288 | the same entry as the current writeDoubleArray |
| LegacyWritableMedia.AbstractWritableMedia.PutObjectArray | src/main/java/org/uze/binary/protocol/media/AbstractWritableMedia.java:290-301 | NULL for null; otherwise the USER_TYPE array tag, the count, then the values until one throws |
| LegacyWritableMedia.AbstractWritableMedia.PutValues | src/main/java/org/uze/binary/protocol/media/AbstractWritableMedia.java:297-299 | the loop appends and returns what ValuesWritten describes |
| LegacyReadableMedia.SimpleReadableMedia.constructor | src/main/java/org/uze/binary/format/media/SimpleReadableMedia.java:37-40 | the reader over the given input and field reader |
| LegacyReadableMedia.SimpleReadableMedia.Read | src/main/java/org/uze/binary/format/media/SimpleReadableMedia.java:42-44 | consumes and returns the next byte, or fails at the end |
| LegacyReadableMedia.SimpleReadableMedia.ReadInto | src/main/java/org/uze/binary/format/media/SimpleReadableMedia.java:46-48 | fills the buffer with the next `length` bytes, or fails |
| LegacyReadableMedia.SimpleReadableMedia.ReadLength | src/main/java/org/uze/binary/format/media/SimpleReadableMedia.java:55-72 | returns and consumes what AdditiveLength describes |
| LegacyReadableMedia.SimpleReadableMedia.ReadInt16 | src/main/java/org/uze/binary/format/media/SimpleReadableMedia.java:123-125 | the sign-extended little-endian short of the next two bytes |
| LegacyReadableMedia.SimpleReadableMedia.ReadInt32 | src/main/java/org/uze/binary/format/media/SimpleReadableMedia.java:127-129 | the two's-complement int of the next four bytes |
| LegacyReadableMedia.SimpleReadableMedia.ReadInt64 | src/main/java/org/uze/binary/format/media/SimpleReadableMedia.java:131-134 | the two's-complement long of the next eight bytes |
| LegacyReadableMedia.SimpleReadableMedia.ReadFloat32 | src/main/java/org/uze/binary/format/media/SimpleReadableMedia.java:211 | the raw bits of a float, as readInt32 reads them |
| LegacyReadableMedia.SimpleReadableMedia.ReadFloat64 | src/main/java/org/uze/binary/format/media/SimpleReadableMedia.java:220 | the raw bits of a double, as readInt64 reads them |
| LegacyReadableMedia.SimpleReadableMedia.ReadString | src/main/java/org/uze/binary/format/media/SimpleReadableMedia.java:74-93 | as DecodeString with the additive length describes |
| LegacyReadableMedia.SimpleReadableMedia.ReadByte | src/main/java/org/uze/binary/format/media/SimpleReadableMedia.java:95-102 | exactly BYTE, then the signed byte |
| LegacyReadableMedia.SimpleReadableMedia.ReadChar | src/main/java/org/uze/binary/format/media/SimpleReadableMedia.java:104-121 | BYTE (unsigned) or CHAR |
| LegacyReadableMedia.SimpleReadableMedia.ReadShort | src/main/java/org/uze/binary/format/media/SimpleReadableMedia.java:136-153 | BYTE (unsigned) or SHORT |
| LegacyReadableMedia.SimpleReadableMedia.ReadInt | src/main/java/org/uze/binary/format/media/SimpleReadableMedia.java:155-176 | BYTE (unsigned), SHORT or INT |
| LegacyReadableMedia.SimpleReadableMedia.ReadLong | src/main/java/org/uze/binary/format/media/SimpleReadableMedia.java:178-203 | BYTE (unsigned), SHORT, INT or LONG |
| LegacyReadableMedia.SimpleReadableMedia.ReadFloat | src/main/java/org/uze/binary/format/media/SimpleReadableMedia.java:205-212 | exactly FLOAT, then the raw bits |
| LegacyReadableMedia.SimpleReadableMedia.ReadDouble | src/main/java/org/uze/binary/format/media/SimpleReadableMedia.java:214-221 | exactly DOUBLE, then the raw bits |
| LegacyReadableMedia.SimpleReadableMedia.ReadFields | src/main/java/org/uze/binary/format/media/SimpleReadableMedia.java:233 | the field reader's value, consuming the bytes it claims |
| LegacyReadableMedia.SimpleReadableMedia.ReadObject | src/main/java/org/uze/binary/format/media/SimpleReadableMedia.java:223-230 | USER_TYPE is required, then readObjectValue |
| LegacyReadableMedia.SimpleReadableMedia.ReadObjectValue | src/main/java/org/uze/binary/format/media/SimpleReadableMedia.java:232-239 | the fields, then END_MARKER is required |
| LegacyReadableMedia.SimpleReadableMedia.ReadArrayHeader | src/main/java/org/uze/binary/format/media/SimpleReadableMedia.java:252-253 | ensureArray on the tag, then the additive readLength |
| LegacyReadableMedia.SimpleReadableMedia.ReadByteArray | src/main/java/org/uze/binary/format/media/SimpleReadableMedia.java:250-257 | a new array holding the elements DecodeArray with the additive length describes, or its error |
| LegacyReadableMedia.SimpleReadableMedia.ReadCharArray | src/main/java/org/uze/binary/format/media/SimpleReadableMedia.java:259-268 | the same for chars |
| LegacyReadableMedia.SimpleReadableMedia.ReadShortArray | src/main/java/org/uze/binary/format/media/SimpleReadableMedia.java:270-279 | the same for shorts |
| LegacyReadableMedia.SimpleReadableMedia.ReadIntArray | src/main/java/org/uze/binary/format/media/SimpleReadableMedia.java:281-290 | the same for ints |
| LegacyReadableMedia.SimpleReadableMedia.ReadLongArray | src/main/java/org/uze/binary/format/media/SimpleReadableMedia.java:292-301 | the same for longs |
| LegacyReadableMedia.SimpleReadableMedia.ReadFloatArray | src/main/java/org/uze/binary/format/media/SimpleReadableMedia.java:303-312 | the same for floats |
| LegacyReadableMedia.SimpleReadableMedia.ReadDoubleArray | src/main/java/org/uze/binary/format/media/SimpleReadableMedia.java:314-323 | the same for doubles |
| LegacyReadableMedia.SimpleReadableMedia.ReadObjectArray | src/main/java/org/uze/binary/format/media/SimpleReadableMedia.java:325-335 | a new array holding a reference to every value DecodeObjectArray with the additive length reads, or its error |
| LegacyReadableMedia.SimpleReadableMedia.ReadValues | src/main/java/org/uze/binary/format/media/SimpleReadableMedia.java:331-333 | the loop fills the array with the values read, or stops with the first error |
| LegacyReadableMedia.SimpleReadableMedia.EnsureArray | src/main/java/org/uze/binary/format/media/SimpleReadableMedia.java:241-248 | passes exactly for the tag ARRAY + 16·expected |
| RoundTrips.ByteRoundTrip | src/main/java/com/github/ykiselev/binary/format/media/SimpleReadableMedia.java:130-137 | readByte reads back every byte writeByte wrote, consuming the two bytes |
| RoundTrips.CharRoundTrip | src/main/java/com/github/ykiselev/binary/format/media/SimpleReadableMedia.java:139-156 | readChar reads back every char, whether it went out as BYTE or as CHAR |
| RoundTrips.ShortRoundTrip | src/main/java/com/github/ykiselev/binary/format/media/SimpleReadableMedia.java:158-175 | readShort reads back writeShort's value, except that -127..-1 come back 256 higher |
| RoundTrips.IntRoundTrip | src/main/java/com/github/ykiselev/binary/format/media/SimpleReadableMedia.java:177-198 | the same for writeInt and readInt |
| RoundTrips.LongRoundTrip | src/main/java/com/github/ykiselev/binary/format/media/SimpleReadableMedia.java:200-225 | the same for writeLong and readLong |
| RoundTrips.LongSurvivesIff | src/main/java/com/github/ykiselev/binary/format/media/SimpleReadableMedia.java:182-184 | a long survives writeLong and readLong exactly when it is not in -127..-1 |
| RoundTrips.WiderReaders | src/main/java/com/github/ykiselev/binary/format/media/SimpleReadableMedia.java:177-225 | readInt and readLong read a written short as readShort does |
| RoundTrips.FloatRoundTrip | src/main/java/com/github/ykiselev/binary/format/media/SimpleReadableMedia.java:227-234 | readFloat reads back the raw bits writeFloat wrote |
| RoundTrips.DoubleRoundTrip | src/main/java/com/github/ykiselev/binary/format/media/SimpleReadableMedia.java:236-243 | readDouble reads back the raw bits writeDouble wrote |
| RoundTrips.AcceptedTags | src/main/java/com/github/ykiselev/binary/format/media/SimpleReadableMedia.java:130-243 | each scalar reader throws on every tag it does not accept, naming that tag |
| RoundTrips.NullStringRoundTrip | src/main/java/com/github/ykiselev/binary/format/media/SimpleReadableMedia.java:109-128 | a null string comes back as null after one byte, with either length reader |
| RoundTrips.StringRoundTrip | src/main/java/com/github/ykiselev/binary/format/media/SimpleReadableMedia.java:109-128 | strings of up to 127 bytes come back, "" included, with either length reader |
| RoundTrips.LongerStringsDoNotSurvive | src/main/java/com/github/ykiselev/binary/format/media/SimpleReadableMedia.java:76-86 | strings of 128..16383 bytes do not come back: the length read is wrong |
| RoundTrips.ValueRoundTrip | src/main/java/com/github/ykiselev/binary/format/media/SimpleReadableMedia.java:254-261 | readObjectValue reads back what writeValue wrote when the field reader inverts the field writer |
| RoundTrips.ObjectRoundTrip | src/main/java/com/github/ykiselev/binary/format/media/SimpleReadableMedia.java:245-252 | readObject reads back what writeObject wrote for a non-null object |
| RoundTrips.NullObjectRejected | src/main/java/com/github/ykiselev/binary/format/media/SimpleReadableMedia.java:247-249 | writeObject(null) is rejected by readObject |
| RoundTrips.ElementRoundTrip | src/main/java/com/github/ykiselev/binary/format/media/SimpleReadableMedia.java:281-345 | each element kind reads back what the element loop wrote |
| RoundTrips.ElementsRoundTrip | src/main/java/com/github/ykiselev/binary/format/media/SimpleReadableMedia.java:281-345 | an element loop reads back the whole payload |
| RoundTrips.ArrayRoundTrip | src/main/java/com/github/ykiselev/binary/format/media/SimpleReadableMedia.java:272-345 | primitive arrays of up to 127 elements come back, with either length reader |
| RoundTrips.NullArrayRejected | src/main/java/com/github/ykiselev/binary/format/media/SimpleReadableMedia.java:263-270 | an array written as null is rejected: NULL is not an array tag |
| RoundTrips.ValuesRoundTrip | src/main/java/com/github/ykiselev/binary/format/media/SimpleReadableMedia.java:353-355 | the value loop reads back the entries of non-null values |
| RoundTrips.HeaderRoundTrip | src/main/java/com/github/ykiselev/binary/format/media/SimpleReadableMedia.java:263-274 | an array tag and a one-byte count read back as that count |
| RoundTrips.ObjectArrayHeader | src/main/java/com/github/ykiselev/binary/format/media/SimpleReadableMedia.java:347-357 | readObjectArray past a one-byte count is the value loop |
| RoundTrips.ObjectArrayRoundTrip | src/main/java/com/github/ykiselev/binary/format/media/SimpleReadableMedia.java:347-357 | object arrays of up to 127 non-null elements come back |

## Left out

- I/O: streams, exceptions of the underlying stream, and closing are not modelled. A BinaryInput is a finite sequence of bytes that fails at its end. A BinaryOutput is a growing sequence of bytes. NoOpBinaryOutput is an Output nobody reads, and OutputStreamBinaryOutput and the org.uze stream media add nothing beyond that.
- Floating point: floats and doubles are their raw bit patterns. `Float.floatToRawIntBits` and `intBitsToFloat` are the identity on those bits.
- Java `byte` values in `byte[]` arrays and stream bytes are modelled as `uint8` 0..255, their unsigned bit patterns, not as Java's signed bytes. Where a signed value is meant (readByte, writeByte), the cast is written out.
- Strings are their UTF-8 bytes. Encoding and decoding UTF-8 is not modelled, so malformed UTF-8 is not an error here.
- User types: the reflective `Class` arguments, `UserTypeInput` and `UserTypeOutput` are callbacks. A field reader that claims more bytes than remain is treated as running out of input.
- Printable and ExternalPrinter of the older writer are one callback, `printer`. Printing itself never throws here.
- Scanner.Depth: the depth is an unbounded integer. Java's int would wrap after 2^31 nested user types.
- ArrayFactory.SimpleArrayFactory.Refine: computed on unbounded integers; the Java int overflow is recorded under Findings.
- ReadableMedia.Scanner.Copy: takes its buffer from the corrected refine, so a copy of more than 2^30 bytes from SimpleArrayFactory(16) ends (with the bytes or with EndOfInput) where Java's refine never returns. ReadableMedia.LargeCopyOverflowsRefine shows such an input.
- ReadableMedia.SimpleReadableMedia.ReadRest: returns on every input, because Scanner.Copy does. In Java, readRest never returns once an array entry asks copy() for more than 2^30 bytes, such as an int array with the length bytes 128, 128, 128, 128 and a fifth byte.
- ArrayFactory.SimpleArrayFactory.constructor: requires a positive minLength, because refine only terminates for one.
- The two org.uze media import Types classes that are not part of this model. They use the tag values of the current Types class. org/uze/binary/format/api/Types.java numbers NULL and USER_TYPE differently and has no behaviour.
- The private write, writeLength and writeIntN helpers of the current writer are the same code as DefaultPrimitiveBinaryOutput, and the writer calls the model of that class.
- The private read and readIntN helpers of the current reader, and the readLength of the org.uze reader, are the same code as DefaultPrimitiveBinaryInput, and those readers call the model of that class.
- The current reader's readLength(BinaryOutput) is not that code: it shifts by 0/7/14/21, echoes each byte and reads a fifth byte. It is modelled on its own by ReadableMedia.SimpleReadableMedia.ReadLengthTo (Packing.ShiftedLength).
- The array element loops are shared between the current and the older media. The older reader's readLength is the additive reader of DefaultPrimitiveBinaryInput.
- ReadableMedia.SimpleReadableMedia.ReadLength: readLength() passes a NoOpBinaryOutput, modelled as a fresh Output that is dropped.
- Java arrays handed to the writers are at most 2^31 - 1 long. The writers require that of their arguments.
- The tests call writeBoolean, writePackedInteger and a two-argument writeRest, which the writer does not have. They are not modelled.

## Findings

| source | as written | input that shows it | evidently intended | confidence | as-written member | corrected member |
|---|---|---|---|---|---|---|
| src/main/java/com/github/ykiselev/binary/format/media/SimpleArrayFactory.java:42-48 | refine doubles `result` in a Java int until it reaches the capacity | minLength 16 and capacity 2^30 + 1: result reaches 2^30, wraps to Integer.MIN_VALUE and then stays 0, so the loop never ends | the least minLength·2^k that is at least the capacity | not executed | ArrayFactory.RefineOverflows | ArrayFactory.SimpleArrayFactory.Refine |
