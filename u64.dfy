/**
 * Unsigned 64-bit arithmetic as C performs it on `u64`: values are integers in
 * [0, 2^64), conversions and products reduce modulo 2^64, and a right shift by a
 * count below the width drops the low bits.
 */
module U64 {

  const TWO_TO_THE_64: int := 0x1_0000_0000_0000_0000

  type u64 = x: int | 0 <= x < 0x1_0000_0000_0000_0000

  /** 2^k. */
  function Pow2(k: nat): (p: nat)
    ensures p >= 1
  {
    if k == 0 then 1 else 2 * Pow2(k - 1)
  }

  /**
   * Conversion of a C integer to `u64`: the unique value congruent to `x`
   * modulo 2^64, so a small negative value becomes its two's-complement encoding.
   */
  function FromInt(x: int): (r: u64)
    ensures (x - r) % TWO_TO_THE_64 == 0
    ensures 0 <= x < TWO_TO_THE_64 ==> r == x
    ensures -TWO_TO_THE_64 <= x < 0 ==> r == TWO_TO_THE_64 + x
  {
    x % TWO_TO_THE_64
  }

  /** `a * b` on `u64`: the product wraps modulo 2^64, and is exact when it fits. */
  function Mul(a: u64, b: u64): (r: u64)
    ensures (a * b - r) % TWO_TO_THE_64 == 0
    ensures a * b < TWO_TO_THE_64 ==> r == a * b
  {
    FromInt(a * b)
  }

  /** `x >> k` on `u64` for a shift count below the width: floor division by 2^k. */
  function ShiftRight(x: u64, k: nat): (r: u64)
    requires k < 64
    ensures r * Pow2(k) <= x < (r + 1) * Pow2(k)
  {
    QuotientRange(x, Pow2(k));
    QuotientBrackets(x, Pow2(k));
    x / Pow2(k)
  }

  /** Floor division of a natural number by a positive divisor does not grow it. */
  lemma QuotientRange(x: nat, d: int)
    requires d >= 1
    ensures 0 <= x / d <= x
  {
  }

  /** Floor division brackets the dividend between consecutive multiples. */
  lemma QuotientBrackets(x: nat, d: int)
    requires d >= 1
    ensures (x / d) * d <= x < (x / d + 1) * d
  {
  }

  /** The powers of two the clock's scaling uses. */
  lemma Pow2Constants()
    ensures Pow2(10) == 1024
    ensures Pow2(19) == 524288
    ensures Pow2(29) == 536870912
  {
  }
}
