/**
 The C integer operations that address formation in `cpuMemory` relies on,
 written out on unbounded integers: the fixed-width unsigned types, left shift
 and bitwise OR on non-negative values, and truncation to 16 bits.
 */
module Bits {

  /** C++ `uint8_t`. */
  newtype uint8 = x: int | 0 <= x < 0x100

  /** C++ `uint16_t`. */
  newtype uint16 = x: int | 0 <= x < 0x1_0000

  function Pow2(n: nat): (r: nat)
    ensures r >= 1
  {
    if n == 0 then 1 else 2 * Pow2(n - 1)
  }

  /** `x << n` on a non-negative `int` small enough not to overflow: `n` single-bit
      shifts, each doubling the value, which multiply `x` by 2^n. */
  function ShiftLeft(x: nat, n: nat): (r: nat)
    ensures r == x * Pow2(n)
    decreases n
  {
    if n == 0 then
      x
    else
      assert x * Pow2(n) == (2 * x) * Pow2(n - 1);
      ShiftLeft(2 * x, n - 1)
  }

  /** Bitwise OR of two non-negative integers, one bit at a time from the least
      significant. The result has every bit of both operands, so it is at least
      each of them, and it never exceeds their sum. */
  function BitOr(a: nat, b: nat): (r: nat)
    ensures a <= r && b <= r
    ensures r <= a + b
    decreases a + b
  {
    if a == 0 then b
    else if b == 0 then a
    else 2 * BitOr(a / 2, b / 2) + (if a % 2 == 1 || b % 2 == 1 then 1 else 0)
  }

  /** Conversion of a non-negative `int` to `uint16_t`: keep the low 16 bits. */
  function TruncateTo16(x: nat): (r: uint16)
    ensures x < 0x1_0000 ==> r as int == x
  {
    (x % 0x1_0000) as uint16
  }

  /** OR-ing a value that fits below bit `n` into a value shifted left by `n`
      sets disjoint bits, so the OR is an addition. */
  lemma {:induction false} OrOfDisjointIsSum(x: nat, b: nat, n: nat)
    requires b < Pow2(n)
    ensures BitOr(ShiftLeft(x, n), b) == ShiftLeft(x, n) + b
    decreases n
  {
    if n > 0 {
      var a := ShiftLeft(x, n);
      assert a == 2 * ShiftLeft(x, n - 1);
      if a != 0 && b != 0 {
        OrOfDisjointIsSum(x, b / 2, n - 1);
      }
    }
  }
}
