/** The fixed-width integer types of the game code, and the operators whose result
    depends on that width. */
module FixedWidth {
  const TWO_TO_16 := 0x1_0000
  const TWO_TO_32 := 0x1_0000_0000

  type U16 = n: int | 0 <= n < 0x1_0000
  type U32 = n: int | 0 <= n < 0x1_0000_0000
  type I16 = n: int | -0x8000 <= n < 0x8000
  type I32 = n: int | -0x8000_0000 <= n < 0x8000_0000

  /** The wrapping increment of an unsigned 32-bit counter. */
  function WrappingSuccessor(n: U32): U32 {
    if n + 1 == TWO_TO_32 then 0 else n + 1
  }

  /** Bitwise AND of two non-negative integers, digit by digit. */
  function BitAnd(x: nat, y: nat): nat
    decreases x
  {
    if x == 0 || y == 0 then 0
    else (if x % 2 == 1 && y % 2 == 1 then 1 else 0) + 2 * BitAnd(x / 2, y / 2)
  }

  function Pow2(k: nat): (p: nat)
    ensures p >= 1
  {
    if k == 0 then 1 else 2 * Pow2(k - 1)
  }

  ghost predicate IsPowerOfTwo(n: nat) {
    exists k: nat :: n == Pow2(k)
  }

  lemma {:induction false} HalveModulo(x: nat, p: nat)
    requires p >= 1
    ensures x % (2 * p) == 2 * ((x / 2) % p) + x % 2
  {
    var q, r := (x / 2) / p, (x / 2) % p;
    assert x == 2 * (q * p + r) + x % 2;
    assert x == q * (2 * p) + (2 * r + x % 2);
    UniqueRemainder(x, 2 * p, q, 2 * r + x % 2);
  }

  lemma {:induction false} ScaledGap(a: nat, b: nat, d: nat)
    requires a < b
    ensures a * d + d <= b * d
  {
    if a + 1 < b {
      ScaledGap(a, b - 1, d);
      assert (b - 1) * d == b * d - d;
    } else {
      assert b * d == a * d + d;
    }
  }

  lemma UniqueRemainder(x: nat, d: nat, q: nat, r: nat)
    requires r < d && x == q * d + r
    ensures x / d == q && x % d == r
  {
    var q' := x / d;
    assert x == q' * d + x % d;
    if q < q' {
      ScaledGap(q, q', d);
    } else if q' < q {
      ScaledGap(q', q, d);
    }
  }

  /** Masking with one less than a power of two is the remainder by that power. */
  lemma {:induction false} MaskIsModulo(x: nat, k: nat)
    ensures BitAnd(x, Pow2(k) - 1) == x % Pow2(k)
    decreases k
  {
    if k == 0 {
    } else if x == 0 {
    } else {
      var p := Pow2(k - 1);
      assert (2 * p - 1) / 2 == p - 1 && (2 * p - 1) % 2 == 1;
      MaskIsModulo(x / 2, k - 1);
      HalveModulo(x, p);
    }
  }

  /** Two positions less than one capacity apart fall in different slots. */
  lemma DistinctSlots(i: nat, j: nat, capacity: nat)
    requires i < j < i + capacity
    ensures i % capacity != j % capacity
  {
    var a, b := i / capacity, j / capacity;
    assert i == a * capacity + i % capacity && j == b * capacity + j % capacity;
    if a < b {
      ScaledGap(a, b, capacity);
    } else if b < a {
      ScaledGap(b, a, capacity);
    }
  }
}
