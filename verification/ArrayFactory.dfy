/** SimpleArrayFactory: one scratch byte array, allocated lazily and replaced
    by a longer one whenever a caller asks for more than it holds. */
module ArrayFactory {
  import opened Bytes

  /** refine: minLength doubled until it is at least the capacity. */
  function Doubling(m: int, capacity: int): (r: int)
    requires m > 0
    ensures r >= m && r >= capacity
    decreases if capacity > m then capacity - m else 0
  {
    if m >= capacity then m else Doubling(2 * m, capacity)
  }

  /** How many times refine doubles. */
  function DoublingSteps(m: int, capacity: int): (k: nat)
    requires m > 0
    decreases if capacity > m then capacity - m else 0
  {
    if m >= capacity then 0 else 1 + DoublingSteps(2 * m, capacity)
  }

  /** refine returns minLength * 2^k for the least k that reaches the
      capacity: one doubling fewer would fall short of it. */
  lemma {:induction false} DoublingIsLeast(m: int, capacity: int)
    requires m > 0
    ensures Doubling(m, capacity) == m * Pow2(DoublingSteps(m, capacity))
    ensures DoublingSteps(m, capacity) > 0 ==> m * Pow2(DoublingSteps(m, capacity) - 1) < capacity
    decreases if capacity > m then capacity - m else 0
  {
    if m < capacity {
      DoublingIsLeast(2 * m, capacity);
      var k := DoublingSteps(2 * m, capacity);
      assert Doubling(m, capacity) == 2 * m * Pow2(k);
      assert m * Pow2(k + 1) == 2 * m * Pow2(k);
      if k > 0 {
        assert m * Pow2(k) == 2 * m * Pow2(k - 1);
      }
    }
  }

  /** The doubling of refine as Java's int arithmetic computes it: the
      value after `steps` doublings, wrapped to 32 bits. */
  function WrappedDoubling(m: int32, steps: nat): int32
  {
    if steps == 0 then m else ToInt32(2 * WrappedDoubling(m, steps - 1))
  }

  /** With minLength 16 and a capacity just above 2^30, the int doubling
      overflows to Integer.MIN_VALUE and then stays at zero: the test
      `result < capacity` never fails, so refine never returns. */
  lemma RefineOverflows(steps: nat)
    ensures WrappedDoubling(16, steps) < 0x4000_0001
  {
    if steps <= 26 {
      WrappedPowers(steps);
      Pow2Monotone26(steps);
    } else if steps == 27 {
      WrappedPowers(steps - 1);
      assert WrappedDoubling(16, steps - 1) == 0x4000_0000 by {
        Pow2Of26();
      }
      assert WrappedDoubling(16, steps) == -0x8000_0000 by {
        WrapsToMinimum();
      }
    } else {
      WrappedZero(steps);
    }
  }

  /** Up to 26 doublings stay below 2^31 and are exact. */
  lemma {:induction false} WrappedPowers(steps: nat)
    requires steps <= 26
    ensures WrappedDoubling(16, steps) == 16 * Pow2(steps)
  {
    if steps > 0 {
      WrappedPowers(steps - 1);
      Pow2Monotone26(steps);
      var twice := 2 * WrappedDoubling(16, steps - 1);
      assert twice == 16 * Pow2(steps) <= 0x4000_0000 by {
        assert Pow2(steps) == 2 * Pow2(steps - 1);
      }
      Int32Exact(twice);
    }
  }

  /** Doubling that stays below 2^31 does not wrap. */
  lemma Int32Exact(x: int)
    requires 0 <= x < 0x8000_0000
    ensures ToInt32(x) == x
  {
  }

  lemma {:induction false} Pow2Monotone26(k: nat)
    requires k <= 26
    ensures Pow2(k) <= 0x400_0000
    decreases 26 - k
  {
    if k < 26 {
      Pow2Monotone26(k + 1);
    } else {
      Pow2Of26();
    }
  }

  lemma Pow2Of26()
    ensures Pow2(26) == 0x400_0000
  {
    assert Pow2(13) == 0x2000;
  }

  /** From the 28th doubling on the wrapped value is zero. */
  lemma {:induction false} WrappedZero(steps: nat)
    requires steps >= 28
    ensures WrappedDoubling(16, steps) == 0
  {
    if steps == 28 {
      var w26: int := WrappedDoubling(16, steps - 2);
      var w27: int := WrappedDoubling(16, steps - 1);
      WrappedPowers(steps - 2);
      Pow2Of26();
      assert w26 == 0x4000_0000;
      assert w27 == ToInt32(2 * w26) == -0x8000_0000 by {
        WrapsToMinimum();
      }
      assert WrappedDoubling(16, steps) == ToInt32(2 * w27) == 0 by {
        WrapsToMinimum();
      }
    } else {
      WrappedZero(steps - 1);
      assert WrappedDoubling(16, steps) == ToInt32(0);
    }
  }

  /** 2^31 wraps to Integer.MIN_VALUE, and twice that to zero. */
  lemma WrapsToMinimum()
    ensures ToInt32(0x8000_0000) == -0x8000_0000 && ToInt32(-0x1_0000_0000) == 0
  {
  }

  class SimpleArrayFactory {
    const minLength: int32
    /** SimpleArrayFactory.array, the buffer handed out and reused. */
    var buffer: array?<uint8>

    /** refine only terminates for a positive minLength. */
    ghost predicate Valid()
    {
      minLength > 0
    }

    constructor (minLength: int32)
      requires minLength > 0
      ensures Valid() && this.minLength == minLength && buffer == null
    {
      this.minLength := minLength;
      buffer := null;
    }

    /** refine: the doubling loop. */
    method Refine(capacity: int32) returns (r: int)
      requires Valid()
      ensures r == Doubling(minLength, capacity)
    {
      var result: int := minLength;
      while result < capacity
        invariant result > 0 && Doubling(result, capacity) == Doubling(minLength, capacity)
        decreases capacity - result
      {
        result := result * 2;
      }
      return result;
    }

    /** get: the stored array when it is long enough, otherwise a new one of
        the refined length, which is stored for the next call. */
    method Get(capacity: int32) returns (r: array<uint8>)
      requires Valid()
      modifies this
      ensures Valid() && r == buffer && r.Length >= capacity
      ensures old(buffer) != null && old(buffer).Length >= capacity ==> r == old(buffer)
      ensures old(buffer) == null || old(buffer).Length < capacity ==>
                fresh(r) && r.Length == Doubling(minLength, capacity)
      ensures old(buffer) != null ==> r == old(buffer) || r.Length > old(buffer).Length
    {
      if buffer == null || buffer.Length < capacity {
        var n := Refine(capacity);
        buffer := new uint8[n];
      }
      r := buffer;
    }
  }
}
