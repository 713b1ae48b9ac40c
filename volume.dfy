/**
 * The two fixed-point helpers of the Zelda audio renderer, as functions on
 * values: scaling one sample by a volume (`ApplyVolumeInPlace`) and adding a
 * source sample scaled by a ramped 32-bit volume (`AddBuffersWithVolumeRamp`).
 * The in-place methods of the renderer class are proved against these.
 */
module Volume {
  import opened FixedPoint

  // ---------------------------------------------------------------------------
  // Volume scaling: an unsigned 32-bit product, an arithmetic shift and a clamp
  // ---------------------------------------------------------------------------

  /** `(u32)sample * (u32)vol`, computed in 32 unsigned bits and stored into an `s32`. */
  function VolumeProduct(sample: s16, vol: u16): s32 {
    ToS32(ToU32(ToU32(sample) * vol))
  }

  /**
   * The two's complement detour through `u32` does not change the value:
   * |sample * vol| < 2^31, so the stored `s32` is the exact signed product.
   */
  lemma VolumeProductIsExact(sample: s16, vol: u16)
    ensures VolumeProduct(sample, vol) == sample * vol
  {
    var p := sample * vol;
    if sample >= 0 {
      MulNonNegative(sample, vol);
      MulNonNegative(0x7fff - sample, vol);
      assert (0x7fff - sample) * vol == 0x7fff * vol - p;
      assert ToU32(sample) * vol == p;
    } else {
      MulNonNegative(sample + 0x8000, vol);
      assert (sample + 0x8000) * vol == p + 0x8000 * vol;
      MulNonPositive(sample, vol);
      var u := ToU32(sample);
      assert u == sample + 0x1_0000_0000;
      assert u * vol == (sample + 0x1_0000_0000) * vol;
      assert (sample + 0x1_0000_0000) * vol == p + vol * 0x1_0000_0000;
      NegativeProductWrapsBack(p, vol);
    }
  }

  /** A product in (-2^31, 0] shifted up by a multiple of 2^32 reads back as itself through `u32` and `s32`. */
  lemma NegativeProductWrapsBack(p: int, v: int)
    requires -0x8000_0000 < p <= 0 && 0 <= v <= 0xffff
    ensures ToS32(ToU32(p + v * 0x1_0000_0000)) == p
  {
    if p == 0 {
      assert p + v * 0x1_0000_0000 == 0x1_0000_0000 * v;
    } else {
      assert p + v * 0x1_0000_0000 == 0x1_0000_0000 * (v - 1) + (p + 0x1_0000_0000);
    }
  }

  /** One sample after `ApplyVolumeInPlace<N, b>` (`b` integer bits: 1 for 1.15, 4 for 4.12). */
  function ScaledSample(sample: s16, vol: u16, b: nat): s16
    requires b <= 16
  {
    var tmp := VolumeProduct(sample, vol);
    var shifted := Sar(tmp, 16 - b);
    ToS16(Clamp(shifted, S16_MIN, S16_MAX))
  }

  /**
   * What a scaled sample is: the exact product `sample * vol` divided by
   * 2^(16-b) rounding down, then clamped to the signed 16-bit range; the
   * final `(s16)` cast never wraps.
   */
  lemma ScaledSampleIsClampedQuotient(sample: s16, vol: u16, b: nat)
    requires b <= 16
    ensures ScaledSample(sample, vol, b) == Clamp(Sar(sample * vol, 16 - b), S16_MIN, S16_MAX)
  {
    VolumeProductIsExact(sample, vol);
  }

  /** The clamp matters: full volume in 1.15 saturates instead of wrapping. */
  lemma FullVolumeSaturates()
    ensures ScaledSample(0x7fff, 0xffff, 1) == S16_MAX
    ensures ScaledSample(-0x8000, 0xffff, 1) == S16_MIN
  {
    ScaledSampleIsClampedQuotient(0x7fff, 0xffff, 1);
    ScaledSampleIsClampedQuotient(-0x8000, 0xffff, 1);
    Pow2Constants();
    SarIsFloor(0x7fff * 0xffff, 15);
    SarIsFloor(-0x8000 * 0xffff, 15);
  }

  lemma Pow2Constants()
    ensures Pow2(12) == 0x1000 && Pow2(15) == 0x8000 && Pow2(16) == 0x1_0000
  {
  }

  /** `2^n` grows with `n`. */
  lemma {:induction false} Pow2Monotone(m: nat, n: nat)
    requires m <= n
    ensures Pow2(m) <= Pow2(n)
  {
    if m < n {
      Pow2Monotone(m, n - 1);
    }
  }

  /** The unity volume of a format with `b` integer bits, 2^(16-b), returns every sample unchanged. */
  lemma UnityVolumeKeepsSample(sample: s16, b: nat)
    requires 1 <= b <= 16
    ensures Pow2(16 - b) <= 0x8000
    ensures ScaledSample(sample, Pow2(16 - b), b) == sample
  {
    Pow2Monotone(16 - b, 15);
    Pow2Constants();
    var d := Pow2(16 - b);
    ScaledSampleIsClampedQuotient(sample, d, b);
    SarIsFloor(sample * d, 16 - b);
    QuotientOfMultiple(sample, d, Sar(sample * d, 16 - b));
  }

  /** Volume 0 silences every sample. */
  lemma ZeroVolumeSilences(sample: s16, b: nat)
    requires b <= 16
    ensures ScaledSample(sample, 0, b) == 0
  {
    VolumeProductIsExact(sample, 0);
    assert VolumeProduct(sample, 0) == 0;
    assert Sar(0, 16 - b) == 0;
  }

  /** The buffer after `ApplyVolumeInPlace<N, b>(buf, vol)`: each sample scaled on its own. */
  function ApplyVolume(s: seq<s16>, vol: u16, b: nat): (r: seq<s16>)
    requires b <= 16
    ensures |r| == |s|
    ensures forall i :: 0 <= i < |s| ==> r[i] == Clamp(Sar(s[i] * vol, 16 - b), S16_MIN, S16_MAX)
  {
    var r := seq(|s|, i requires 0 <= i < |s| => ScaledSample(s[i], vol, b));
    forall i | 0 <= i < |s|
      ensures r[i] == Clamp(Sar(s[i] * vol, 16 - b), S16_MIN, S16_MAX)
    {
      ScaledSampleIsClampedQuotient(s[i], vol, b);
    }
    r
  }

  /** Volume 0 zeroes a whole buffer, in either format. */
  lemma ApplyZeroVolume(s: seq<s16>, b: nat)
    requires b <= 16
    ensures ApplyVolume(s, 0, b) == seq(|s|, i => 0)
  {
    forall i | 0 <= i < |s|
      ensures ApplyVolume(s, 0, b)[i] == 0
    {
      ZeroVolumeSilences(s[i], b);
    }
  }

  /** The unity volumes 0x8000 (1.15) and 0x1000 (4.12) leave a buffer unchanged. */
  lemma ApplyUnityVolume(s: seq<s16>)
    ensures ApplyVolume(s, 0x8000, 1) == s
    ensures ApplyVolume(s, 0x1000, 4) == s
  {
    Pow2Constants();
    forall i | 0 <= i < |s|
      ensures ApplyVolume(s, 0x8000, 1)[i] == s[i] && ApplyVolume(s, 0x1000, 4)[i] == s[i]
    {
      UnityVolumeKeepsSample(s[i], 1);
      UnityVolumeKeepsSample(s[i], 4);
    }
  }

  // ---------------------------------------------------------------------------
  // Ramped mixing: each addend scaled by the top 16 bits of a running volume
  // ---------------------------------------------------------------------------

  /** What one source sample adds to the destination at running volume `vol`. */
  function RampAddend(sample: s16, vol: int): int {
    Sar(Sar(vol, 16) * sample, 16)
  }

  /** The gain of an `s32` volume is its top 16 bits, read as signed. */
  lemma RampGainIsS16(vol: s32)
    ensures S16_MIN <= Sar(vol, 16) <= S16_MAX
  {
    Pow2Constants();
    SarIsFloor(vol, 16);
  }

  /** A product of two `s16` values lies in [-0x8000 * 0x7fff, 0x8000 * 0x8000]. */
  lemma S16ProductBounds(a: s16, c: s16)
    ensures -0x8000 * 0x7fff <= a * c <= 0x8000 * 0x8000
  {
    if a >= 0 && c >= 0 {
      MulNonNegative(a, c);
      ProductBound(a, c, 0x8000, 0x8000);
    } else if a < 0 && c < 0 {
      assert a * c == (-(a as int)) * (-(c as int));
      MulNonNegative(-(a as int), -(c as int));
      ProductBound(-(a as int), -(c as int), 0x8000, 0x8000);
    } else if a < 0 {
      assert a * c == -((-(a as int)) * c);
      MulNonNegative(-(a as int), c);
      ProductBound(-(a as int), c, 0x8000, 0x7fff);
    } else {
      assert a * c == -(a * (-(c as int)));
      MulNonNegative(a, -(c as int));
      ProductBound(a, -(c as int), 0x7fff, 0x8000);
    }
  }

  /** Products of non-negative values grow with each factor. */
  lemma ProductBound(x: int, y: int, mx: int, my: int)
    requires 0 <= x <= mx && 0 <= y <= my
    ensures x * y <= mx * my
  {
    MulNonNegative(mx - x, y);
    MulNonNegative(mx, my - y);
    assert (mx - x) * y == mx * y - x * y;
    assert mx * (my - y) == mx * my - mx * y;
  }

  /** Every addend of the ramped mix has magnitude at most 0x4000. */
  lemma RampAddendBound(sample: s16, vol: s32)
    ensures -0x4000 <= RampAddend(sample, vol) <= 0x4000
  {
    RampGainIsS16(vol);
    S16ProductBounds(Sar(vol, 16), sample);
    Pow2Constants();
    SarIsFloor(Sar(vol, 16) * sample, 16);
  }

  /** `dst` after `AddBuffersWithVolumeRamp(dst, src, vol, step)`: the sum is stored back into an `s16`. */
  function MixRamp(dst: seq<s16>, src: seq<s16>, vol: int, step: int): (r: seq<s16>)
    requires |dst| == |src|
  {
    seq(|dst|, i requires 0 <= i < |dst| => ToS16(dst[i] + RampAddend(src[i], vol + i * step)))
  }

  /** Volume 0 with step 0 adds nothing, so the early return agrees with the loop. */
  lemma SilentRampKeepsDestination(dst: seq<s16>, src: seq<s16>)
    requires |dst| == |src|
    ensures MixRamp(dst, src, 0, 0) == dst
  {
    forall i | 0 <= i < |dst|
      ensures MixRamp(dst, src, 0, 0)[i] == dst[i]
    {
      assert Sar(0, 16) == 0;
    }
  }

  /** Each element of the mix is the old destination plus its addend, wrapped to 16 bits. */
  lemma MixRampAt(dst: seq<s16>, src: seq<s16>, vol: s32, step: int, i: nat)
    requires |dst| == |src| && i < |dst|
    ensures (dst[i] + RampAddend(src[i], vol + i * step) - MixRamp(dst, src, vol, step)[i]) % 0x1_0000 == 0
    ensures S16_MIN <= dst[i] + RampAddend(src[i], vol + i * step) <= S16_MAX
        ==> MixRamp(dst, src, vol, step)[i] == dst[i] + RampAddend(src[i], vol + i * step)
  {
    var sum := dst[i] + RampAddend(src[i], vol + i * step);
    assert MixRamp(dst, src, vol, step)[i] == ToS16(sum);
  }

  /** The running volume after `i` steps, and what the `i`-th sample of the mix is. */
  lemma MixRampStep(dst: seq<s16>, src: seq<s16>, vol: int, step: int, i: nat, v: int)
    requires |dst| == |src| && i < |dst| && v == vol + i * step
    ensures v + step == vol + (i + 1) * step
    ensures ToS16(dst[i] + RampAddend(src[i], v)) == MixRamp(dst, src, vol, step)[i]
  {
  }

  /** The sum wraps instead of saturating: a loud sample added to a full-scale one turns negative. */
  lemma MixRampWraps()
    ensures MixRamp([0x7fff], [0x7fff], 0x7fff_0000, 0) == [-0x4002]
  {
    Pow2Constants();
    assert RampAddend(0x7fff, 0x7fff_0000) == 0x3fff;
  }

  /**
   * The running volume moves linearly, so if it is an `s32` before the first
   * and after the last of `n` steps it is an `s32` after every step between.
   */
  lemma RampVolumeInRange(vol: int, step: int, n: nat, k: nat)
    requires S32_MIN <= vol <= S32_MAX && S32_MIN <= vol + n * step <= S32_MAX && k <= n
    ensures S32_MIN <= vol + k * step <= S32_MAX
  {
    assert n * step == k * step + (n - k) * step;
    if step >= 0 {
      MulNonNegative(k, step);
      MulNonNegative(n - k, step);
    } else {
      MulNonPositive(step, k);
      MulNonPositive(step, n - k);
    }
  }
}
