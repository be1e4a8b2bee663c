/** What readRest's Scanner does with the bytes in front of it: one scan()
    consumes one tag and its payload, echoes them, and keeps track of how
    deep inside nested user types it is. */
module Scanning {
  import opened Bytes
  import opened Failures
  import opened Types
  import opened Packing
  import opened Encoding

  /** The outcome of one scan(): the new depth, the bytes echoed to the
      output and the number of bytes consumed. */
  datatype Scanned = Scanned(depth: int, echo: seq<uint8>, size: nat)

  /** copy(n): n bytes read into the scratch buffer and echoed verbatim.
      A negative count is rejected by read(buffer, n). */
  function Copy(n: int, s: seq<uint8>): (r: Result<Decoded<seq<uint8>>>)
    ensures r.Ok? ==> r.value.size == n <= |s| && r.value.value == s[..n]
    ensures r.Err? ==> r.error == (if n < 0 then OutOfBounds else EndOfInput)
  {
    if n < 0 then Err(OutOfBounds)
    else if |s| < n then Err(EndOfInput)
    else Ok(Decoded(s[..n], n))
  }

  /** The payload an array tag is followed by, in bytes: the element width
      times the length in int arithmetic, which wraps. Arrays of any other
      element kind (user types among them) get no payload copied. */
  function PayloadBytes(sub: int, length: int): (r: Option<int>)
    ensures -0x8000_0000 <= length < 0x8000_0000 && r.Some? ==> -0x8000_0000 <= r.value < 0x8000_0000
  {
    if sub == BYTE then Some(length)
    else if sub == CHAR || sub == SHORT then Some(ToInt32(2 * length))
    else if sub == INT || sub == FLOAT then Some(ToInt32(4 * length))
    else if sub == LONG || sub == DOUBLE then Some(ToInt32(8 * length))
    else None
  }

  /** A fixed-width entry: the tag and `width` payload bytes, all echoed. */
  function ScanFixed(depth: int, s: seq<uint8>, width: nat): (r: Result<Scanned>)
    ensures r.Ok? ==> 1 + width <= |s| && r == Ok(Scanned(depth, s[..1 + width], 1 + width))
    ensures r.Err? ==> r.error == EndOfInput && |s| < 1 + width
  {
    if |s| < 1 + width then Err(EndOfInput) else Ok(Scanned(depth, s[..1 + width], 1 + width))
  }

  /** STRING and arrays: readLength(output) echoes the length bytes it adds,
      then the payload is copied. */
  function ScanCounted(depth: int, s: seq<uint8>): (r: Result<Scanned>)
    requires |s| >= 1
    ensures r.Ok? ==> 1 <= r.value.size <= |s| && r.value.depth == depth
  {
    match ShiftedLength(s[1..])
    case Err(e) => Err(e)
    case Ok(len) =>
      var start := 1 + len.size;
      var head := s[..1 + ShiftedUsed(s[1..])];
      var count := if s[0] == STRING then Some(len.value) else PayloadBytes(SubType(s[0]), len.value);
      match count
      case None => Ok(Scanned(depth, head, start))
      case Some(n) =>
        match Copy(n, s[start..])
        case Err(e) => Err(e)
        case Ok(c) => Ok(Scanned(depth, head + c.value, start + c.size))
  }

  /** scan(): END_MARKER lowers the depth first, and at depth zero the marker
      is neither echoed nor followed by anything; USER_TYPE raises the depth;
      every other tag is echoed with its payload; an unknown tag that is not
      an array is an error. */
  function ScanStep(s: seq<uint8>, depth: int): (r: Result<Scanned>)
    ensures r.Ok? ==> 1 <= r.value.size <= |s|
    ensures r.Ok? ==> r.value.depth == (if s[0] == END_MARKER then depth - 1
                                        else if s[0] == USER_TYPE && depth > 0 then depth + 1
                                        else depth)
  {
    if |s| == 0 then Err(EndOfInput)
    else
      var t := s[0];
      var d := if t == END_MARKER then depth - 1 else depth;
      if d <= 0 then Ok(Scanned(d, [], 1))
      else if t == NULL || t == END_MARKER then Ok(Scanned(d, [t], 1))
      else if t == USER_TYPE then Ok(Scanned(d + 1, [t], 1))
      else if t == STRING then ScanCounted(d, s)
      else if t == BYTE then ScanFixed(d, s, 1)
      else if t == CHAR || t == SHORT then ScanFixed(d, s, 2)
      else if t == INT || t == FLOAT then ScanFixed(d, s, 4)
      else if t == LONG || t == DOUBLE then ScanFixed(d, s, 8)
      else if IsArray(t) then ScanCounted(d, s)
      else Err(InvalidType(t))
  }

  /** readRest: scan() until the depth is no longer positive; the bytes
      echoed and the bytes consumed. This is the loop test; ScanTurn is one
      turn of the loop. */
  function ScanRest(s: seq<uint8>, depth: int): (r: Result<Decoded<seq<uint8>>>)
    ensures r.Ok? ==> r.value.size <= |s|
    decreases |s|, 1
  {
    if depth <= 0 then Ok(Decoded([], 0)) else ScanTurn(s, depth)
  }

  /** One turn of readRest's loop: scan(), then the rest of the loop. */
  function ScanTurn(s: seq<uint8>, depth: int): (r: Result<Decoded<seq<uint8>>>)
    requires depth > 0
    ensures r.Ok? ==> r.value.size <= |s|
    decreases |s|, 0
  {
    match ScanStep(s, depth)
    case Err(e) => Err(e)
    case Ok(st) => Then(st.echo, st.size, ScanRest(s[st.size..], st.depth))
  }

  /** readRest at a positive depth: one scan(), then the rest. */
  lemma ScanRestStep(s: seq<uint8>, depth: int)
    requires depth > 0
    ensures ScanStep(s, depth).Err? ==> ScanRest(s, depth) == Err(ScanStep(s, depth).error)
    ensures ScanStep(s, depth).Ok? ==>
              var st := ScanStep(s, depth).value;
              ScanRest(s, depth) == Then(st.echo, st.size, ScanRest(s[st.size..], st.depth))
  {
  }

  /** `e` echoed and `n` bytes consumed in front of what `r` echoes and consumes. */
  function Then(e: seq<uint8>, n: nat, r: Result<Decoded<seq<uint8>>>): Result<Decoded<seq<uint8>>>
  {
    match r
    case Err(x) => Err(x)
    case Ok(d) => Ok(Decoded(e + d.value, n + d.size))
  }

  /** The echo of one scan() is what it consumed, except for the END_MARKER
      that ends the scan and the fifth length byte readLength consumes
      without echoing it. */
  lemma ScanEcho(s: seq<uint8>, depth: int)
    requires depth >= 1 && ScanStep(s, depth).Ok?
    ensures var st := ScanStep(s, depth).value;
            || (s[0] == END_MARKER && depth == 1 && st.echo == [] && st.size == 1)
            || st.echo == s[..st.size]
            || (6 <= st.size && st.echo == s[..5] + s[6..st.size] && ShiftedUsed(s[1..]) == 4)
  {
    var t := s[0];
    if t != END_MARKER && t != NULL && t != USER_TYPE && (t == STRING || IsArray(t))
       && t != BYTE && t != CHAR && t != SHORT && t != INT && t != FLOAT && t != LONG && t != DOUBLE {
      var len := ShiftedLength(s[1..]).value;
      var u := ShiftedUsed(s[1..]);
      var st := ScanStep(s, depth).value;
      assert st == ScanCounted(depth, s).value;
      if len.size == u {
        CountedEcho(s, depth, 0);
      } else {
        CountedEcho(s, depth, 1);
      }
    }
  }

  /** The counted case of ScanEcho, `gap` being the length bytes not echoed. */
  lemma CountedEcho(s: seq<uint8>, depth: int, gap: nat)
    requires |s| >= 1 && ScanCounted(depth, s).Ok?
    requires ShiftedLength(s[1..]).value.size == ShiftedUsed(s[1..]) + gap
    ensures var st := ScanCounted(depth, s).value;
            gap == 0 ==> st.echo == s[..st.size]
    ensures var st := ScanCounted(depth, s).value;
            gap == 1 ==> 6 <= st.size && st.echo == s[..5] + s[6..st.size] && ShiftedUsed(s[1..]) == 4
  {
    var len := ShiftedLength(s[1..]).value;
    var u := ShiftedUsed(s[1..]);
    var start := 1 + len.size;
    var st := ScanCounted(depth, s).value;
    if st.size > start {
      var n := st.size - start;
      assert Copy(n, s[start..]).value.value == s[start..st.size];
      assert st.echo == s[..1 + u] + s[start..st.size];
    } else {
      assert st.echo == s[..1 + u];
    }
    if gap == 0 {
      assert s[..1 + u] + s[start..st.size] == s[..st.size];
    } else {
      assert len.size == 5;
      assert s[..1 + u] == s[..5];
    }
  }

  /** A tag that is neither a listed kind nor an array stops readRest;
      BOOLEAN is one of them. */
  lemma BooleanRejected(u: seq<uint8>, depth: int)
    requires depth >= 1
    ensures ScanStep([BOOLEAN] + u, depth) == Err(InvalidType(BOOLEAN))
  {
  }

  /** Bytes `e` are transparent to readRest when scanning them at any
      positive depth echoes them, consumes them and comes back to the same
      depth: readRest then goes on with whatever follows. */
  ghost predicate Transparent(e: seq<uint8>)
  {
    forall u: seq<uint8>, d: int {:trigger ScanRest(e + u, d)} ::
      d >= 1 ==> ScanRest(e + u, d) == Then(e, |e|, ScanRest(u, d))
  }

  /** Bytes that one scan() echoes and consumes whole without changing the depth. */
  ghost predicate Flat(e: seq<uint8>)
  {
    forall u: seq<uint8>, d: int {:trigger ScanStep(e + u, d)} ::
      d >= 1 ==> ScanStep(e + u, d) == Ok(Scanned(d, e, |e|))
  }

  lemma FlatIsTransparent(e: seq<uint8>)
    requires Flat(e)
    ensures Transparent(e)
  {
    forall u: seq<uint8>, d: int | d >= 1
      ensures ScanRest(e + u, d) == Then(e, |e|, ScanRest(u, d))
    {
      assert ScanStep(e + u, d) == Ok(Scanned(d, e, |e|));
      assert (e + u)[|e|..] == u;
    }
  }

  lemma ThenThen(a: seq<uint8>, b: seq<uint8>, r: Result<Decoded<seq<uint8>>>)
    ensures Then(a, |a|, Then(b, |b|, r)) == Then(a + b, |a + b|, r)
  {
    if r.Ok? {
      assert a + (b + r.value.value) == (a + b) + r.value.value;
    }
  }

  /** Entries written one after the other are transparent when each is. */
  lemma ConcatTransparent(a: seq<uint8>, b: seq<uint8>)
    requires Transparent(a) && Transparent(b)
    ensures Transparent(a + b)
  {
    forall u: seq<uint8>, d: int | d >= 1
      ensures ScanRest((a + b) + u, d) == Then(a + b, |a + b|, ScanRest(u, d))
    {
      assert (a + b) + u == a + (b + u);
      assert ScanRest(a + (b + u), d) == Then(a, |a|, ScanRest(b + u, d));
      assert ScanRest(b + u, d) == Then(b, |b|, ScanRest(u, d));
      ThenThen(a, b, ScanRest(u, d));
    }
  }

  /** A user type written as USER_TYPE, its fields and END_MARKER is
      transparent when its fields are: the scanner goes one level down and
      comes back up on the marker. */
  lemma ObjectTransparent(f: seq<uint8>)
    requires Transparent(f)
    ensures Transparent([USER_TYPE] + f + [END_MARKER])
  {
    var e := [USER_TYPE] + f + [END_MARKER];
    forall u: seq<uint8>, d: int | d >= 1
      ensures ScanRest(e + u, d) == Then(e, |e|, ScanRest(u, d))
    {
      var v := [END_MARKER] + u;
      assert e + u == [USER_TYPE] + (f + v);
      assert (e + u)[1..] == f + v;
      assert ScanStep(e + u, d) == Ok(Scanned(d + 1, [USER_TYPE], 1));
      assert ScanRest(e + u, d) == Then([USER_TYPE], 1, ScanRest(f + v, d + 1));
      assert ScanRest(f + v, d + 1) == Then(f, |f|, ScanRest(v, d + 1));
      assert ScanStep(v, d + 1) == Ok(Scanned(d, [END_MARKER], 1));
      assert v[1..] == u;
      assert ScanRest(v, d + 1) == Then([END_MARKER], 1, ScanRest(u, d));
      ThenThen(f, [END_MARKER], ScanRest(u, d));
      ThenThen([USER_TYPE], f + [END_MARKER], ScanRest(u, d));
      assert [USER_TYPE] + (f + [END_MARKER]) == e;
    }
  }

  /** readRest called inside a user type whose remaining fields are
      transparent echoes those fields and consumes the closing END_MARKER
      without echoing it. */
  lemma ReadRestOfObject(f: seq<uint8>, u: seq<uint8>)
    requires Transparent(f)
    ensures ScanRest(f + [END_MARKER] + u, 1) == Ok(Decoded(f, |f| + 1))
  {
    var v := [END_MARKER] + u;
    assert f + [END_MARKER] + u == f + v;
    assert ScanRest(f + v, 1) == Then(f, |f|, ScanRest(v, 1));
    assert ScanStep(v, 1) == Ok(Scanned(0, [], 1));
    assert ScanRest(v[1..], 0) == Ok(Decoded([], 0));
    assert ScanRest(v, 1) == Then([], 1, Ok(Decoded([], 0)));
    var none: seq<uint8> := [];
    assert none + none == none;
    assert f + none == f;
  }

  /** A tag and exactly the payload width that scan() copies for it. */
  lemma FixedFlat(e: seq<uint8>)
    requires |e| >= 1
    requires || (e[0] == BYTE && |e| == 2)
             || ((e[0] == CHAR || e[0] == SHORT) && |e| == 3)
             || ((e[0] == INT || e[0] == FLOAT) && |e| == 5)
             || ((e[0] == LONG || e[0] == DOUBLE) && |e| == 9)
    ensures Flat(e)
  {
    forall u: seq<uint8>, d: int | d >= 1
      ensures ScanStep(e + u, d) == Ok(Scanned(d, e, |e|))
    {
      assert (e + u)[0] == e[0];
      assert (e + u)[..|e|] == e;
    }
  }

  lemma NullFlat()
    ensures Flat([NULL])
  {
    forall u: seq<uint8>, d: int | d >= 1
      ensures ScanStep([NULL] + u, d) == Ok(Scanned(d, [NULL], 1))
    {
      assert ([NULL] + u)[0] == NULL;
    }
  }

  /** Every scalar the writer emits is transparent to readRest. */
  lemma ScalarsTransparent(b: int8, c: char16, h: int16, i: int32, l: int64, f: int32, g: int64)
    ensures Transparent(ByteEntry(b)) && Transparent(CharEntry(c)) && Transparent(ShortEntry(h))
    ensures Transparent(IntEntry(i)) && Transparent(LongEntry(l))
    ensures Transparent(FloatEntry(f)) && Transparent(DoubleEntry(g)) && Transparent([NULL])
  {
    FixedFlat(ByteEntry(b));
    FixedFlat(CharEntry(c));
    FixedFlat(ShortEntry(h));
    FixedFlat(IntEntry(i));
    LongEntryShape(l);
    FixedFlat(LongEntry(l));
    FixedFlat(FloatEntry(f));
    FixedFlat(DoubleEntry(g));
    NullFlat();
    FlatIsTransparent(ByteEntry(b));
    FlatIsTransparent(CharEntry(c));
    FlatIsTransparent(ShortEntry(h));
    FlatIsTransparent(IntEntry(i));
    FlatIsTransparent(LongEntry(l));
    FlatIsTransparent(FloatEntry(f));
    FlatIsTransparent(DoubleEntry(g));
    FlatIsTransparent([NULL]);
  }

  /** A counted entry whose length is a single byte: the tag, the length,
      and `n` payload bytes are echoed and consumed by one scan(). */
  lemma CountedFlat(e: seq<uint8>, n: nat)
    requires |e| >= 2 && e[1] < 0x80 && |e| == 2 + n
    requires e[0] == STRING ==> n == e[1]
    requires e[0] != STRING ==> IsArray(e[0]) && PayloadBytes(SubType(e[0]), e[1]) == Some(n)
    requires e[0] !in {NULL, END_MARKER, USER_TYPE, BYTE, CHAR, SHORT, INT, FLOAT, LONG, DOUBLE}
    ensures Flat(e)
  {
    forall u: seq<uint8>, d: int | d >= 1
      ensures ScanStep(e + u, d) == Ok(Scanned(d, e, |e|))
    {
      var s := e + u;
      assert s[0] == e[0] && s[1] == e[1];
      SingleByteLength(Shifted, s[1..]);
      RunIs(s[1..], 4, 0);
      assert ShiftedUsed(s[1..]) == 1;
      assert s[2..][..n] == e[2..];
      assert s[..2] + e[2..] == e;
      assert ScanStep(s, d) == ScanCounted(d, s);
    }
  }

  /** A string shorter than 128 bytes is transparent to readRest. */
  lemma StringTransparent(b: seq<uint8>)
    requires |b| < 128
    ensures Transparent(StringEntry(Some(b)))
  {
    var e := StringEntry(Some(b));
    assert PackedLength(|b|) == [|b| as uint8];
    CountedFlat(e, |b|);
    FlatIsTransparent(e);
  }

  /** A primitive array of fewer than 128 elements is transparent to readRest. */
  lemma ArrayTransparent(k: Kind, xs: seq<int>)
    requires |xs| < 128
    ensures Transparent(ArrayEntry(k, Some(xs)))
  {
    var e := ArrayEntry(k, Some(xs));
    assert PackedLength(|xs|) == [|xs| as uint8];
    ArrayTagIsTypesArray(k);
    KindPayload(k, |xs|);
    CountedFlat(e, Width(k) * |xs|);
    FlatIsTransparent(e);
  }

  /** For a short array the int arithmetic does not wrap: the payload is the
      element width times the length. */
  lemma KindPayload(k: Kind, n: nat)
    requires n < 128
    ensures PayloadBytes(KindTag(k), n) == Some(Width(k) * n)
  {
    match k
    case KByte =>
    case KChar | KShort => assert ToInt32(2 * n) == 2 * n;
    case KInt | KFloat => assert ToInt32(4 * n) == 4 * n;
    case KLong | KDouble => assert ToInt32(8 * n) == 8 * n;
  }

  /** An object array is not transparent: its tag gets no payload copied, so
      the END_MARKER of its first element ends readRest one level too early.
      Here the element's fields are empty and the enclosing object's own
      END_MARKER is left unread. */
  lemma ObjectArrayDesync<T>(x: T, fields: T -> seq<uint8>)
    requires fields(x) == []
    ensures ObjectArrayEntry(Some([Some(x)]), fields) == [ARRAY + 16 * USER_TYPE, 1, END_MARKER]
    ensures ScanRest(ObjectArrayEntry(Some([Some(x)]), fields) + [END_MARKER], 1)
            == Ok(Decoded([ARRAY + 16 * USER_TYPE, 1], 3))
  {
    var e := ObjectArrayEntry(Some([Some(x)]), fields);
    assert Values([Some(x)], fields) == [END_MARKER];
    assert PackedLength(1) == [1];
    var s := e + [END_MARKER];
    assert s == [ARRAY + 16 * USER_TYPE, 1, END_MARKER, END_MARKER];
    SingleByteLength(Shifted, s[1..]);
    RunIs(s[1..], 4, 0);
    assert ShiftedUsed(s[1..]) == 1;
    assert PayloadBytes(SubType(s[0]), 1) == None;
    assert s[..2] == [ARRAY + 16 * USER_TYPE, 1];
    assert ScanStep(s, 1) == ScanCounted(1, s) == Ok(Scanned(1, [ARRAY + 16 * USER_TYPE, 1], 2));
    var v := s[2..];
    assert v == [END_MARKER, END_MARKER];
    assert ScanStep(v, 1) == Ok(Scanned(0, [], 1));
    assert ScanRest(v[1..], 0) == Ok(Decoded([], 0));
    assert ScanRest(v, 1) == Then([], 1, Ok(Decoded([], 0)));
    var none: seq<uint8> := [];
    assert none + none == none;
    assert ScanRest(s, 1) == Then([ARRAY + 16 * USER_TYPE, 1], 2, ScanRest(v, 1));
    assert [ARRAY + 16 * USER_TYPE, 1] + none == [ARRAY + 16 * USER_TYPE, 1];
  }

  /** A long array announced with 2^29 elements: the length takes four bytes
      with the high bit set plus a fifth byte that is consumed but not
      echoed, and `8 * length` wraps to 0, so no payload is copied. */
  lemma LongArrayLengthWraps(u: seq<uint8>)
    ensures ScanStep([ARRAY + 16 * LONG, 128, 255, 254, 254, 0] + u, 1)
            == Ok(Scanned(1, [ARRAY + 16 * LONG, 128, 255, 254, 254], 6))
  {
    var s := [ARRAY + 16 * LONG, 128, 255, 254, 254, 0] + u;
    FifthByteConsumed(s[1..]);
    assert s[1..][..4] == [128, 255, 254, 254];
    LargeLength();
    assert ShiftedLength(s[1..]) == Ok(Decoded(0x2000_0000, 5));
    assert SubType(s[0]) == LONG;
    assert PayloadBytes(LONG, 0x2000_0000) == Some(0) by {
      assert ToInt32(8 * 0x2000_0000) == 0;
    }
    var head := s[..5];
    assert head == [ARRAY + 16 * LONG, 128, 255, 254, 254];
    var none: seq<uint8> := [];
    assert Copy(0, s[6..]) == Ok(Decoded(none, 0));
    assert head + none == head;
    assert ScanStep(s, 1) == ScanCounted(1, s);
  }

  /** The same length on an int array: `4 * length` wraps to
      Integer.MIN_VALUE and the copy is rejected. */
  lemma IntArrayLengthWraps(u: seq<uint8>)
    ensures ScanStep([ARRAY + 16 * INT, 128, 255, 254, 254, 0] + u, 1) == Err(OutOfBounds)
  {
    var s := [ARRAY + 16 * INT, 128, 255, 254, 254, 0] + u;
    assert ShiftedLength(s[1..]) == Ok(Decoded(0x2000_0000, 5)) by {
      FifthByteConsumed(s[1..]);
      assert s[1..][..4] == [128, 255, 254, 254];
      LargeLength();
    }
    assert PayloadBytes(SubType(s[0]), 0x2000_0000) == Some(-0x8000_0000) by {
      assert SubType(s[0]) == INT;
      assert ToInt32(4 * 0x2000_0000) == -0x8000_0000;
    }
    assert ScanStep(s, 1) == ScanCounted(1, s);
  }

  /** 128 + 255·2^7 + 254·2^14 + 254·2^21 == 2^29. */
  lemma LargeLength()
    ensures Weighted([128, 255, 254, 254]) == 0x2000_0000
  {
    var s: seq<uint8> := [128, 255, 254, 254];
    Pow2Shifts();
    assert s[..3] == [128, 255, 254];
    assert s[..3][..2] == [128, 255];
    assert s[..3][..2][..1] == [128];
    assert s[..3][..2][..1][..0] == [];
    assert Weighted([128]) == 128;
    assert Weighted([128, 255]) == 128 + 255 * 0x80;
    assert Weighted([128, 255, 254]) == 128 + 255 * 0x80 + 254 * 0x4000;
  }

  /** 128 + 128·2^7 + 128·2^14 + 128·2^21 == 270,549,120. */
  lemma AllHighLength()
    ensures Weighted([128, 128, 128, 128]) == 270_549_120
  {
    var s: seq<uint8> := [128, 128, 128, 128];
    Pow2Shifts();
    assert s[..3] == [128, 128, 128];
    assert s[..3][..2] == [128, 128];
    assert s[..3][..2][..1] == [128];
    assert s[..3][..2][..1][..0] == [];
    assert Weighted([128]) == 128;
    assert Weighted([128, 128]) == 128 + 128 * 0x80;
    assert Weighted([128, 128, 128]) == 128 + 128 * 0x80 + 128 * 0x4000;
  }
}
