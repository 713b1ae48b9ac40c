/**
 * Fixed-width integers of the DSP emulator and the C++ conversions between
 * them. Dafny integers are unbounded, so every truncation, wrap-around and
 * arithmetic shift the emulator relies on is written out here.
 */
module FixedPoint {

  /** The bounds of a signed 16-bit value. */
  const S16_MIN: int := -0x8000
  const S16_MAX: int := 0x7fff

  /** The bounds of a signed 32-bit value. */
  const S32_MIN: int := -0x8000_0000
  const S32_MAX: int := 0x7fff_ffff

  /** Signed 16-bit sample (`s16`). */
  type s16 = x: int | S16_MIN <= x <= S16_MAX
  /** Unsigned 16-bit value (`u16`), e.g. a volume. */
  type u16 = x: int | 0 <= x <= 0xffff
  /** Signed 32-bit value (`s32`). */
  type s32 = x: int | S32_MIN <= x <= S32_MAX
  /** Unsigned 32-bit value (`u32`), e.g. a mail word or an address. */
  type u32 = x: int | 0 <= x <= 0xffff_ffff

  /** 2 to the power n. */
  function Pow2(n: nat): (r: nat)
    ensures r >= 1
  {
    if n == 0 then 1 else 2 * Pow2(n - 1)
  }

  /**
   * `x >> n` on a signed operand: an arithmetic shift, which rounds toward
   * minus infinity. (The divisor is positive, so Dafny's Euclidean `/` is
   * floor division here.)
   */
  function Sar(x: int, n: nat): int {
    x / Pow2(n)
  }

  /** `x >> n` is the floor of x / 2^n, and never grows in magnitude. */
  lemma SarIsFloor(x: int, n: nat)
    ensures Sar(x, n) * Pow2(n) <= x < Sar(x, n) * Pow2(n) + Pow2(n)
    ensures 0 <= x ==> 0 <= Sar(x, n) <= x
    ensures x < 0 ==> x <= Sar(x, n) < 0
  {
    FloorDivBounds(x, Pow2(n));
  }

  /** Floor division by a positive divisor brackets the dividend and never grows it in magnitude. */
  lemma FloorDivBounds(x: int, d: int)
    requires d >= 1
    ensures (x / d) * d <= x < (x / d) * d + d
    ensures 0 <= x ==> 0 <= x / d <= x
    ensures x < 0 ==> x <= x / d < 0
  {
    QuotientBounds(x, d, x / d, x % d);
  }

  /** The same facts for any decomposition `x == q * d + m` with `0 <= m < d`. */
  lemma QuotientBounds(x: int, d: int, q: int, m: int)
    requires d >= 1 && x == q * d + m && 0 <= m < d
    ensures q * d <= x < q * d + d
    ensures 0 <= x ==> 0 <= q <= x
    ensures x < 0 ==> x <= q < 0
  {
    if q < 0 {
      MulNonPositive(q + 1, d);
      MulNonPositive(q, d - 1);
      assert (q + 1) * d == q * d + d;
      assert q * (d - 1) == q * d - q;
    } else {
      MulNonNegative(q, d - 1);
      assert q * (d - 1) == q * d - q;
    }
  }

  lemma MulNonNegative(a: int, b: int)
    requires 0 <= a && 0 <= b
    ensures 0 <= a * b
  {
  }

  lemma MulNonPositive(a: int, b: int)
    requires a <= 0 && 0 <= b
    ensures a * b <= 0
  {
  }

  /** A non-zero integer multiplied by a positive `d` is at least `d` away from zero. */
  lemma MulByPositive(a: int, d: int)
    requires d >= 1
    ensures a >= 1 ==> a * d >= d
    ensures a <= -1 ==> a * d <= -d
  {
    if a >= 1 {
      MulNonNegative(a - 1, d);
      assert (a - 1) * d == a * d - d;
    } else if a <= -1 {
      MulNonPositive(a + 1, d);
      assert (a + 1) * d == a * d + d;
    }
  }

  /** If `r * d <= s * d < r * d + d` for a positive `d`, then `r == s`. */
  lemma QuotientOfMultiple(s: int, d: int, r: int)
    requires d >= 1 && r * d <= s * d < r * d + d
    ensures r == s
  {
    MulByPositive(s - r, d);
    assert (s - r) * d == s * d - r * d;
  }

  /** The conversion `(u32)x`: reduction modulo 2^32. */
  function ToU32(x: int): (r: u32)
    ensures (x - r) % 0x1_0000_0000 == 0
    ensures 0 <= x <= 0xffff_ffff ==> r == x
  {
    x % 0x1_0000_0000
  }

  /** Storing an integer into an `s32`: two's complement wrap-around. */
  function ToS32(x: int): (r: s32)
    ensures (x - r) % 0x1_0000_0000 == 0
    ensures S32_MIN <= x <= S32_MAX ==> r == x
  {
    var w := x % 0x1_0000_0000;
    if w <= 0x7fff_ffff then w else w - 0x1_0000_0000
  }

  /** The conversion `(s16)x`, and storing an `int` into an `s16`: wrap-around modulo 2^16. */
  function ToS16(x: int): (r: s16)
    ensures (x - r) % 0x1_0000 == 0
    ensures S16_MIN <= x <= S16_MAX ==> r == x
  {
    var w := x % 0x1_0000;
    if w <= 0x7fff then w else w - 0x1_0000
  }

  /** `MathUtil::Clamp(&x, lo, hi)`. */
  function Clamp(x: int, lo: int, hi: int): (r: int)
    requires lo <= hi
    ensures lo <= r <= hi
    ensures lo <= x <= hi ==> r == x
    ensures x < lo ==> r == lo
    ensures hi < x ==> r == hi
  {
    if x < lo then lo else if hi < x then hi else x
  }
}
