/** The tag byte that starts every entry: the low nibble is the kind of the
    entry, and for arrays the high nibble is the kind of the elements. */
module Types {
  import opened Bytes
  import opened Failures

  const MASK: int := 0xF

  const BYTE: uint8 := 1
  const CHAR: uint8 := 2
  const SHORT: uint8 := 3
  const INT: uint8 := 4
  const LONG: uint8 := 5
  const FLOAT: uint8 := 6
  const DOUBLE: uint8 := 7
  const STRING: uint8 := 8
  const ARRAY: uint8 := 9
  const NULL: uint8 := 10
  const USER_TYPE: uint8 := 11
  const END_MARKER: uint8 := 12
  const BOOLEAN: uint8 := 13

  /** The kinds in declaration order. */
  const Kinds: seq<uint8> :=
    [BYTE, CHAR, SHORT, INT, LONG, FLOAT, DOUBLE, STRING, ARRAY, NULL, USER_TYPE, END_MARKER, BOOLEAN]

  /** `v & MASK`: the low four bits of a Java int, whatever its sign. */
  function LowNibble(v: int): (r: int)
    ensures 0 <= r <= MASK
    ensures (v - r) % 16 == 0
  {
    v % 16
  }

  /** isArray */
  function IsArray(v: int): bool
  {
    LowNibble(v) == ARRAY
  }

  /** subType: `(v >>> 4) & MASK`, where `>>>` sees v as 32 unsigned bits. */
  function SubType(v: int32): (r: int)
    ensures 0 <= r <= MASK
  {
    (v % 0x1_0000_0000) / 16 % 16
  }

  /** array: the item kind must fit in the low nibble. */
  function Array(itemType: int32): (r: Result<uint8>)
    ensures r.Ok? <==> 0 <= itemType <= MASK
    ensures r.Ok? ==> IsArray(r.value) && SubType(r.value) == itemType
    ensures r.Err? ==> r.error == IllegalArgument
  {
    if LowNibble(itemType) != itemType then Err(IllegalArgument)
    else Ok(ARRAY + itemType * 16)
  }

  /** The kinds are thirteen distinct values 1..13, each inside the low nibble. */
  lemma KindsDistinctInLowNibble()
    ensures |Kinds| == 13
    ensures forall i :: 0 <= i < |Kinds| ==> Kinds[i] == i + 1 && LowNibble(Kinds[i]) == Kinds[i]
  {
  }

  /** isArray looks at the low nibble only. */
  lemma {:induction false} IsArrayIgnoresHighBits(v: int, k: int)
    ensures IsArray(v + 16 * k) <==> IsArray(v)
    ensures IsArray(v) <==> v % 16 == 9
  {
    assert (v + 16 * k) % 16 == v % 16;
  }

  /** subType of a tag byte is its high nibble, so a tag byte is determined by
      its two nibbles. */
  lemma SubTypeOfTag(t: uint8)
    ensures SubType(t) == t / 16
    ensures t == LowNibble(t) + 16 * SubType(t)
  {
  }

  /** array is the inverse of taking an array tag apart. */
  lemma ArrayOfSubType(t: uint8)
    requires IsArray(t)
    ensures Array(SubType(t)) == Ok(t)
  {
    SubTypeOfTag(t);
  }

  /** ARRAY itself is accepted as an item kind. */
  lemma ArrayOfArray()
    ensures Array(ARRAY) == Ok(0x99)
  {
  }
}
