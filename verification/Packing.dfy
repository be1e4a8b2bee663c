/** The packed length: what writeLength emits and what the two readLength
    variants make of the bytes in front of them. */
module Packing {
  import opened Bytes
  import opened Failures

  /** `length >>> 7 * i` for a non-negative length. */
  function Shr7(n: nat, i: nat): nat
  {
    if i == 0 then n else Shr7(n / 128, i - 1)
  }

  /** The groups writeLength emits while at most `budget` bytes remain: the
      low eight bits of the shifted value, then shift by seven while the
      shifted value is not zero. No continuation bit is set. */
  function Groups(l: nat, budget: nat): (r: seq<uint8>)
    requires budget >= 1
    ensures 1 <= |r| <= budget && r[0] == l % 0x100
    decreases budget
  {
    if budget > 1 && l / 128 != 0 then [l % 0x100] + Groups(l / 128, budget - 1)
    else [l % 0x100]
  }

  /** Byte i of the groups is the value shifted by 7i, and the groups stop
      at the budget or at the first shifted value that is zero. */
  lemma {:induction false} GroupsBytes(l: nat, budget: nat)
    requires budget >= 1
    ensures forall i :: 0 <= i < |Groups(l, budget)| ==> Groups(l, budget)[i] == Shr7(l, i) % 0x100
    ensures forall i :: 1 <= i < |Groups(l, budget)| ==> Shr7(l, i) != 0
    ensures |Groups(l, budget)| == budget || Shr7(l, |Groups(l, budget)|) == 0
    decreases budget
  {
    var r := Groups(l, budget);
    if budget > 1 && l / 128 != 0 {
      GroupsBytes(l / 128, budget - 1);
      var t := Groups(l / 128, budget - 1);
      assert r == [l % 0x100] + t;
      forall i | 1 <= i < |r|
        ensures r[i] == Shr7(l, i) % 0x100 && Shr7(l, i) != 0
      {
        assert r[i] == t[i - 1];
        assert Shr7(l, i) == Shr7(l / 128, i - 1);
      }
      assert Shr7(l, |r|) == Shr7(l / 128, |t|);
    } else {
      assert Shr7(l, 1) == Shr7(l / 128, 0);
    }
  }

  /** writeLength(n) for n >= 0: between one and four bytes, the first being
      the low eight bits of n, and a single byte exactly for n < 128. */
  function PackedLength(n: nat): (r: seq<uint8>)
    ensures 1 <= |r| <= 4 && r[0] == n % 0x100
    ensures |r| == 1 <==> n < 128
  {
    Groups(n, 4)
  }

  /** Byte i of writeLength(n) is `(n >>> 7i) & 0xff`, and writing stops once
      the shifted value is zero. */
  lemma PackedLengthBytes(n: nat)
    ensures forall i :: 0 <= i < |PackedLength(n)| ==> PackedLength(n)[i] == Shr7(n, i) % 0x100
    ensures forall i :: 1 <= i < |PackedLength(n)| ==> Shr7(n, i) != 0
    ensures |PackedLength(n)| == 4 || Shr7(n, |PackedLength(n)|) == 0
  {
    GroupsBytes(n, 4);
  }

  /** The number of leading bytes with the high bit set, looking at no more
      than `cap` bytes: how many times a reader goes on to the next byte. */
  function Run(s: seq<uint8>, cap: nat): (r: nat)
    ensures r <= cap && r <= |s|
    ensures forall i :: 0 <= i < r ==> s[i] >= 0x80
    ensures r < cap && r < |s| ==> s[r] < 0x80
  {
    if cap == 0 || |s| == 0 || s[0] < 0x80 then 0 else 1 + Run(s[1..], cap - 1)
  }

  /** Run is pinned down by its contract. */
  lemma {:induction false} RunIs(s: seq<uint8>, cap: nat, k: nat)
    requires k <= cap && k <= |s|
    requires forall i :: 0 <= i < k ==> s[i] >= 0x80
    requires k == cap || k == |s| || s[k] < 0x80
    ensures Run(s, cap) == k
    decreases k
  {
    if k > 0 {
      RunIs(s[1..], cap - 1, k - 1);
    }
  }

  /** Sum of b_i << 7i over the bytes. */
  function Weighted(s: seq<uint8>): (r: nat)
  {
    if |s| == 0 then 0 else Weighted(s[..|s| - 1]) + s[|s| - 1] * Pow2(7 * (|s| - 1))
  }

  function Sum(s: seq<uint8>): (r: nat)
    ensures r <= 0xFF * |s|
  {
    if |s| == 0 then 0 else Sum(s[..|s| - 1]) + s[|s| - 1]
  }

  /** How many bytes the for-loop reader adds to its result and echoes: up to
      and including the first byte with a clear high bit, at most four. */
  function ShiftedUsed(s: seq<uint8>): (r: nat)
    ensures 1 <= r <= 4
  {
    var k := Run(s, 4);
    if k < 4 then k + 1 else 4
  }

  /** readLength(output) of the current media: the loop adds `b << 7i` for
      every byte up to the first one with a clear high bit, and reads one
      byte more in its update step when four bytes had the high bit set. */
  function ShiftedLength(s: seq<uint8>): (r: Result<Decoded<nat>>)
    ensures r.Ok? ==> 1 <= r.value.size <= 5 && ShiftedUsed(s) <= r.value.size <= |s|
                      && r.value.value == Weighted(s[..ShiftedUsed(s)])
    ensures r.Err? ==> r.error == EndOfInput && |s| <= 4
  {
    var k := Run(s, 4);
    if |s| < k + 1 then Err(EndOfInput)
    else Ok(Decoded(Weighted(s[..ShiftedUsed(s)]), k + 1))
  }

  /** readLength of DefaultPrimitiveBinaryInput and of the older reader: at
      most four bytes, going on while the byte just read has bit 0x80 set;
      the first byte counts once and every further byte is shifted by seven. */
  function AdditiveLength(s: seq<uint8>): (r: Result<Decoded<nat>>)
    ensures r.Ok? ==> 1 <= r.value.size <= 4 && r.value.size <= |s|
                      && r.value.value == s[0] + 128 * Sum(s[1..r.value.size])
    ensures r.Err? ==> r.error == EndOfInput && |s| <= 3
  {
    var k := Run(s, 3);
    if |s| < k + 1 then Err(EndOfInput)
    else Ok(Decoded(s[0] + 128 * Sum(s[1..k + 1]), k + 1))
  }

  /** The additive reader as the nested tests of its source: one byte when its
      high bit is clear, otherwise one more, at most four in all; running out
      of bytes on the way is an end of input. */
  lemma AdditiveLengthCases(s: seq<uint8>)
    ensures AdditiveLength(s)
            == if |s| == 0 then Err(EndOfInput)
               else if s[0] < 0x80 then Ok(Decoded(s[0] as nat, 1))
               else if |s| == 1 then Err(EndOfInput)
               else if s[1] < 0x80 then Ok(Decoded(s[0] as int + 128 * s[1] as int, 2))
               else if |s| == 2 then Err(EndOfInput)
               else if s[2] < 0x80 then Ok(Decoded(s[0] as int + 128 * (s[1] as int + s[2] as int), 3))
               else if |s| == 3 then Err(EndOfInput)
               else Ok(Decoded(s[0] as int + 128 * (s[1] as int + s[2] as int + s[3] as int), 4))
  {
    if |s| >= 2 {
      assert Sum(s[1..2]) == s[1] by {
        assert s[1..2][..0] == [];
      }
    }
    if |s| >= 3 {
      assert Sum(s[1..3]) == s[1] as int + s[2] as int by {
        assert s[1..3][..1] == s[1..2];
        assert s[1..2][..0] == [];
      }
    }
    if |s| >= 4 {
      assert Sum(s[1..4]) == s[1] as int + s[2] as int + s[3] as int by {
        assert s[1..4][..2] == s[1..3];
        assert s[1..3][..1] == s[1..2];
        assert s[1..2][..0] == [];
      }
    }
    if |s| == 0 || s[0] < 0x80 {
      RunIs(s, 3, 0);
    } else if |s| == 1 || s[1] < 0x80 {
      RunIs(s, 3, 1);
    } else if |s| == 2 || s[2] < 0x80 {
      RunIs(s, 3, 2);
    } else {
      RunIs(s, 3, 3);
    }
  }

  /** Which of the two reader loops a media uses. */
  datatype LengthCoding = Shifted | Additive

  function DecodeLength(coding: LengthCoding, s: seq<uint8>): (r: Result<Decoded<nat>>)
    ensures r.Ok? ==> 1 <= r.value.size <= |s|
    ensures r.Err? ==> r.error == EndOfInput
  {
    match coding
    case Shifted => ShiftedLength(s)
    case Additive => AdditiveLength(s)
  }

  /** A byte with a clear high bit ends the length on its own. */
  lemma {:induction false} SingleByteLength(coding: LengthCoding, s: seq<uint8>)
    requires |s| >= 1 && s[0] < 0x80
    ensures DecodeLength(coding, s) == Ok(Decoded(s[0], 1))
  {
    RunIs(s, 4, 0);
    RunIs(s, 3, 0);
    assert s[..1] == [s[0]];
    assert Weighted([s[0]]) == Weighted([]) + s[0] * Pow2(0);
  }

  /** Lengths 0..127 survive a write followed by either read, whatever follows. */
  lemma {:induction false} LengthRoundTrip(coding: LengthCoding, n: nat, tail: seq<uint8>)
    requires n < 128
    ensures DecodeLength(coding, PackedLength(n) + tail) == Ok(Decoded(n, |PackedLength(n)|))
  {
    var s := PackedLength(n) + tail;
    assert s[0] == n;
    SingleByteLength(coding, s);
  }

  /** Lengths 128..16383 are written as two bytes. */
  lemma TwoBytesWritten(n: nat)
    requires 128 <= n < 0x4000
    ensures PackedLength(n) == [n % 0x100, n / 128]
  {
    assert Shr7(n, 1) == n / 128;
    assert Shr7(n, 2) == Shr7(n / 128, 1) == n / 128 / 128;
    assert n / 128 / 128 == 0;
  }

  /** The two readers on a two-byte length whose first byte has the high
      bit set and whose second has it clear. */
  lemma {:induction false} TwoByteRead(coding: LengthCoding, s: seq<uint8>)
    requires |s| >= 2 && s[0] >= 0x80 && s[1] < 0x80
    ensures DecodeLength(coding, s) == Ok(Decoded(s[0] as int + 128 * s[1] as int, 2))
  {
    RunIs(s, 4, 1);
    RunIs(s, 3, 1);
    assert Weighted(s[..2]) == Weighted(s[..1]) + s[1] * Pow2(7) by {
      assert s[..2][..1] == s[..1];
    }
    assert Weighted(s[..1]) == s[0] by {
      assert s[..1][..0] == [];
    }
    assert Sum(s[1..2]) == s[1] by {
      assert s[1..2][..0] == [];
    }
    assert Pow2(7) == 128;
  }

  /** Two-byte lengths do not survive: when bit 7 of the length is clear the
      readers stop after the first byte, and when it is set they add the raw
      second byte shifted by seven, which counts bit 7 twice. */
  lemma {:induction false} TwoByteLengths(coding: LengthCoding, n: nat, tail: seq<uint8>)
    requires 128 <= n < 0x4000
    ensures |PackedLength(n)| == 2
    ensures DecodeLength(coding, PackedLength(n) + tail)
            == if n / 128 % 2 == 0 then Ok(Decoded(n % 128, 1)) else Ok(Decoded(n + 128, 2))
  {
    TwoBytesWritten(n);
    var s := PackedLength(n) + tail;
    assert s[0] == n % 0x100 && s[1] == n / 128;
    if n / 128 % 2 == 0 {
      assert s[0] == n % 128;
      SingleByteLength(coding, s);
    } else {
      assert s[0] == n % 128 + 128;
      TwoByteRead(coding, s);
    }
  }

  /** The length 200 is written as 200, 1 and read back as 328. */
  lemma LengthTwoHundred(coding: LengthCoding)
    ensures PackedLength(200) == [200, 1]
    ensures DecodeLength(coding, [200, 1]) == Ok(Decoded(328, 2))
  {
    TwoBytesWritten(200);
    TwoByteRead(coding, [200, 1]);
  }

  /** When four bytes in a row have the high bit set, the for-loop reader
      adds those four and consumes a fifth one without adding it. */
  lemma {:induction false} FifthByteConsumed(s: seq<uint8>)
    requires |s| >= 4 && s[0] >= 0x80 && s[1] >= 0x80 && s[2] >= 0x80 && s[3] >= 0x80
    ensures ShiftedUsed(s) == 4
    ensures |s| >= 5 ==> ShiftedLength(s) == Ok(Decoded(Weighted(s[..4]), 5))
    ensures |s| == 4 ==> ShiftedLength(s) == Err(EndOfInput)
  {
    RunIs(s, 4, 4);
  }

  lemma {:induction false} WeightedBound(s: seq<uint8>)
    ensures Weighted(s) * 127 <= 255 * (Pow2(7 * |s|) - 1)
    decreases |s|
  {
    if |s| > 0 {
      var k := |s| - 1;
      var p := Pow2(7 * k);
      WeightedBound(s[..k]);
      Pow2Add(7 * k, 7);
      assert Pow2(7) == 128;
      BoundStep(Weighted(s[..k]), s[k], p);
    }
  }

  /** One more byte, weighted by p, keeps the bound with 128p. */
  lemma BoundStep(w: int, b: int, p: int)
    requires 0 <= b <= 255 && p >= 1 && w * 127 <= 255 * (p - 1)
    ensures (w + b * p) * 127 <= 255 * (128 * p - 1)
  {
    assert b * p <= 255 * p;
  }

  lemma {:induction false} Pow2Add(a: nat, b: nat)
    ensures Pow2(a + b) == Pow2(a) * Pow2(b)
    decreases b
  {
    if b > 0 {
      Pow2Add(a, b - 1);
    }
  }

  /** The lengths a reader can return fit in a Java int, so its additions
      never wrap. */
  lemma LengthsFitInt(coding: LengthCoding, s: seq<uint8>)
    requires DecodeLength(coding, s).Ok?
    ensures DecodeLength(coding, s).value.value <= 538984575 < 0x8000_0000
  {
    var v := DecodeLength(coding, s).value.value;
    if coding == Shifted {
      var u := ShiftedUsed(s);
      WeightedBound(s[..u]);
      Pow2Monotone(7 * u, 28);
      Pow2Shifts();
      var w := Weighted(s[..u]);
      assert w == v;
      assert w * 127 <= 255 * (0x1000_0000 - 1);
    } else {
      var n := DecodeLength(coding, s).value.size;
      assert Sum(s[1..n]) <= 0xFF * 3;
    }
  }

  /** The shifts the for-loop reader uses. */
  lemma Pow2Shifts()
    ensures Pow2(0) == 1 && Pow2(7) == 0x80 && Pow2(14) == 0x4000
    ensures Pow2(21) == 0x20_0000 && Pow2(28) == 0x1000_0000
  {
    assert Pow2(7) == 0x80;
    Pow2Add(7, 7);
    Pow2Add(14, 7);
    Pow2Add(21, 7);
  }

  lemma {:induction false} Pow2Monotone(a: nat, b: nat)
    requires a <= b
    ensures Pow2(a) <= Pow2(b)
    decreases b
  {
    if a < b {
      Pow2Monotone(a, b - 1);
    }
  }
}
