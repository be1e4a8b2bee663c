/** Java's primitive integer types, its narrowing casts, and the little-endian
    byte layout used by writeInt16/32/64 and readInt16/32/64. */
module Bytes {

  /** One byte of the stream, as `read()` returns it and `write(int)` keeps it. */
  type uint8 = x: int | 0 <= x < 0x100

  type int8 = x: int | -0x80 <= x < 0x80
  type int16 = x: int | -0x8000 <= x < 0x8000
  type int32 = x: int | -0x8000_0000 <= x < 0x8000_0000
  type int64 = x: int | -0x8000_0000_0000_0000 <= x < 0x8000_0000_0000_0000
  type char16 = x: int | 0 <= x < 0x1_0000

  // Java narrowing casts: keep the low bits, reinterpret as two's complement.

  function ToInt8(x: int): (r: int8)
    ensures r % 0x100 == x % 0x100
  {
    var u := x % 0x100;
    if u < 0x80 then u else u - 0x100
  }

  function ToInt16(x: int): (r: int16)
    ensures r % 0x1_0000 == x % 0x1_0000
  {
    var u := x % 0x1_0000;
    if u < 0x8000 then u else u - 0x1_0000
  }

  function ToInt32(x: int): (r: int32)
    ensures r % 0x1_0000_0000 == x % 0x1_0000_0000
  {
    var u := x % 0x1_0000_0000;
    if u < 0x8000_0000 then u else u - 0x1_0000_0000
  }

  function ToInt64(x: int): (r: int64)
    ensures r % 0x1_0000_0000_0000_0000 == x % 0x1_0000_0000_0000_0000
  {
    var u := x % 0x1_0000_0000_0000_0000;
    if u < 0x8000_0000_0000_0000 then u else u - 0x1_0000_0000_0000_0000
  }

  /** `(char) x` */
  function ToChar(x: int): char16
  {
    x % 0x1_0000
  }

  // Byte k of a value is `(v >>> 8k) & 0xff`; for the widths used here that is
  // floor(v / 256^k) mod 256, whatever the sign of v.

  function LE16(v: int): seq<uint8>
  {
    [v % 0x100, v / 0x100 % 0x100]
  }

  function LE32(v: int): seq<uint8>
  {
    [v % 0x100, v / 0x100 % 0x100, v / 0x1_0000 % 0x100, v / 0x100_0000 % 0x100]
  }

  /** writeInt64: the low 32-bit half, then the high half. */
  function LE64(v: int): seq<uint8>
  {
    LE32(v) + LE32(v / 0x1_0000_0000)
  }

  // The unsigned value of little-endian bytes: read() + (read() << 8) + ...
  // before Java's int or long arithmetic wraps it.

  function U16(b: seq<uint8>): nat
    requires |b| >= 2
  {
    var lo: int, hi: int := b[0], b[1];
    lo + 0x100 * hi
  }

  function U32(b: seq<uint8>): nat
    requires |b| >= 4
  {
    U16(b) + 0x1_0000 * U16(b[2..])
  }

  function U64(b: seq<uint8>): nat
    requires |b| >= 8
  {
    U32(b) + 0x1_0000_0000 * U32(b[4..])
  }

  lemma LE16Value(v: int)
    ensures U16(LE16(v)) == v % 0x1_0000
  {
    var q := v / 0x100;
    assert v == v % 0x100 + 0x100 * q;
    assert q == q % 0x100 + 0x100 * (q / 0x100);
    assert q / 0x100 == v / 0x1_0000;
  }

  lemma LE32Value(v: int)
    ensures U32(LE32(v)) == v % 0x1_0000_0000
  {
    var b := LE32(v);
    LE16Value(v);
    LE16Value(v / 0x1_0000);
    assert b[2..] == LE16(v / 0x1_0000) by {
      assert (v / 0x1_0000) / 0x100 == v / 0x100_0000;
    }
    assert b[..2] == LE16(v);
    assert U16(b) == U16(LE16(v));
    var h := v / 0x1_0000;
    assert v == v % 0x1_0000 + 0x1_0000 * h;
    assert h == h % 0x1_0000 + 0x1_0000 * (h / 0x1_0000);
    assert h / 0x1_0000 == v / 0x1_0000_0000;
  }

  lemma LE64Value(v: int)
    ensures U64(LE64(v)) == v % 0x1_0000_0000_0000_0000
  {
    var b := LE64(v);
    assert b[..4] == LE32(v);
    assert b[4..] == LE32(v / 0x1_0000_0000);
    LE32Value(v);
    LE32Value(v / 0x1_0000_0000);
    var h := v / 0x1_0000_0000;
    assert v == v % 0x1_0000_0000 + 0x1_0000_0000 * h;
    assert h == h % 0x1_0000_0000 + 0x1_0000_0000 * (h / 0x1_0000_0000);
    assert h / 0x1_0000_0000 == v / 0x1_0000_0000_0000_0000;
  }

  /** readInt16 inverts writeInt16 on every short. */
  lemma Int16RoundTrip(v: int16)
    ensures ToInt16(U16(LE16(v))) == v
  {
    LE16Value(v);
  }

  /** `(char) readInt16()` inverts writeInt16 on every char. */
  lemma CharRoundTrip(c: char16)
    ensures ToChar(ToInt16(U16(LE16(c)))) == c
  {
    LE16Value(c);
  }

  /** readInt32 inverts writeInt32 on every int. */
  lemma Int32RoundTrip(v: int32)
    ensures ToInt32(U32(LE32(v))) == v
  {
    LE32Value(v);
    Int32Wrap(v, U32(LE32(v)));
  }

  /** readInt64 inverts writeInt64 on every long. */
  lemma Int64RoundTrip(v: int64)
    ensures ToInt64(U64(LE64(v))) == v
  {
    LE64Value(v);
    Int64Wrap(v, U64(LE64(v)));
  }

  /** The cast back to int undoes the reduction modulo 2^32. */
  lemma Int32Wrap(v: int32, x: int)
    requires x == v % 0x1_0000_0000
    ensures ToInt32(x) == v
  {
    if v >= 0 {
      assert x == v;
    } else {
      assert x == v + 0x1_0000_0000;
    }
    assert x % 0x1_0000_0000 == x;
  }

  /** The cast back to long undoes the reduction modulo 2^64. */
  lemma Int64Wrap(v: int64, x: int)
    requires x == v % 0x1_0000_0000_0000_0000
    ensures ToInt64(x) == v
  {
    if v >= 0 {
      assert x == v;
    } else {
      assert x == v + 0x1_0000_0000_0000_0000;
    }
    assert x % 0x1_0000_0000_0000_0000 == x;
  }

  /** `(long)` of an unsigned 64-bit value subtracts 2^64 when the top bit is set. */
  lemma ToInt64Unsigned(x: int)
    requires 0 <= x < 0x1_0000_0000_0000_0000
    ensures ToInt64(x) == if x < 0x8000_0000_0000_0000 then x else x - 0x1_0000_0000_0000_0000
  {
    assert x % 0x1_0000_0000_0000_0000 == x;
  }

  /** The readers look at the first 2, 4 or 8 bytes only. */
  lemma ReadPrefix(b: seq<uint8>, t: seq<uint8>)
    ensures |b| >= 2 ==> U16(b + t) == U16(b)
    ensures |b| >= 4 ==> U32(b + t) == U32(b)
    ensures |b| >= 8 ==> U64(b + t) == U64(b)
  {
    if |b| >= 4 {
      assert (b + t)[2..] == b[2..] + t;
    }
    if |b| >= 8 {
      assert (b + t)[4..] == b[4..] + t;
      assert (b + t)[4..][2..] == b[4..][2..] + t;
    }
  }

  lemma U16Injective(b: seq<uint8>, c: seq<uint8>)
    requires |b| == |c| == 2 && U16(b) == U16(c)
    ensures b == c
  {
  }

  lemma U32Injective(b: seq<uint8>, c: seq<uint8>)
    requires |b| == |c| == 4 && U32(b) == U32(c)
    ensures b == c
  {
    U16Injective(b[2..], c[2..]);
    U16Injective(b[..2], c[..2]);
    assert b == b[..2] + b[2..];
    assert c == c[..2] + c[2..];
  }

  /** The bytes written for a value depend only on its low bits, so a
      narrowing cast before writing changes nothing. */
  lemma LE16Cast(v: int)
    ensures LE16(ToInt16(v)) == LE16(v)
  {
    LE16Value(v);
    LE16Value(ToInt16(v));
    U16Injective(LE16(ToInt16(v)), LE16(v));
  }

  lemma LE32Cast(v: int)
    ensures LE32(ToInt32(v)) == LE32(v)
  {
    LE32Value(v);
    LE32Value(ToInt32(v));
    U32Injective(LE32(ToInt32(v)), LE32(v));
  }

  /** The high half of writeInt64 is `(int) (value >>> 32)`: for a long,
      the logical shift leaves the same low 32 bits as floor division. */
  lemma HighHalf(v: int64)
    ensures LE32(ToInt32(v % 0x1_0000_0000_0000_0000 / 0x1_0000_0000)) == LE32(v / 0x1_0000_0000)
  {
    var h := v / 0x1_0000_0000;
    var u := v % 0x1_0000_0000_0000_0000;
    var w := u / 0x1_0000_0000;
    if v >= 0 {
      assert u == v;
      assert w == h;
    } else {
      assert u == v + 0x1_0000_0000_0000_0000;
      assert w == h + 0x1_0000_0000;
      assert w % 0x1_0000_0000 == h % 0x1_0000_0000;
    }
    LE32Cast(w);
    LE32Value(w);
    LE32Value(h);
    U32Injective(LE32(w), LE32(h));
  }

  /** `(long) x << s` for the byte-assembly shifts used by the readers. */
  function Pow2(n: nat): (r: nat)
    ensures r >= 1
  {
    if n == 0 then 1 else 2 * Pow2(n - 1)
  }
}
