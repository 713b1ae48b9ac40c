/**
 * The Zelda audio renderer's state (mixing buffers, lookup tables, output
 * configuration) and its inline operations: the configuration setters and the
 * two in-place fixed-point helpers, proved against the functions of `Volume`.
 */
module ZeldaRenderer {
  import opened FixedPoint
  import opened Volume

  /** Length of a mixing buffer (`std::array<s16, 0x50>`). */
  const MIXING_BUFFER_LEN: nat := 0x50
  const SINE_TABLE_LEN: nat := 0x80
  const RESAMPLING_COEFFS_LEN: nat := 0x100
  const AFC_COEFFS_LEN: nat := 0x20

  /** A value-initialised (all-zero) mixing buffer. */
  function Silence(): (r: seq<s16>)
    ensures |r| == MIXING_BUFFER_LEN
  {
    seq(MIXING_BUFFER_LEN, _ => 0)
  }

  /** A freshly allocated, value-initialised (`{}`) array of `n` samples. */
  method ZeroedBuffer(n: nat) returns (a: array<s16>)
    ensures fresh(a) && a[..] == seq(n, _ => 0)
  {
    a := new s16[n](_ => 0);
  }

  class ZeldaAudioRenderer {
    /** Set once the mixing buffers have been cleared for the current frame. */
    var prepared: bool

    /** Main-memory addresses where the output samples are copied. */
    var outputLbufAddr: u32
    var outputRbufAddr: u32

    /** Output volume applied to the buffers before they are uploaded. */
    var outputVolume: u16

    /** The eight mixing buffers: four channels and their reverb sends. */
    const bufFrontLeft: array<s16>
    const bufFrontRight: array<s16>
    const bufBackLeft: array<s16>
    const bufBackRight: array<s16>
    const bufFrontLeftReverb: array<s16>
    const bufFrontRightReverb: array<s16>
    const bufBackLeftReverb: array<s16>
    const bufBackRightReverb: array<s16>

    /** Base address of the voice parameter blocks; it has no initial value. */
    var vpbBaseAddr: u32

    /** Sine table (1.15 fixed point), resampling coefficients and AFC codec coefficients. */
    const sineTable: array<s16>
    const resamplingCoeffs: array<s16>
    const afcCoeffs: array<s16>

    /** The arrays have their declared sizes. */
    ghost predicate Valid()
      reads this
    {
      && bufFrontLeft.Length == MIXING_BUFFER_LEN
      && bufFrontRight.Length == MIXING_BUFFER_LEN
      && bufBackLeft.Length == MIXING_BUFFER_LEN
      && bufBackRight.Length == MIXING_BUFFER_LEN
      && bufFrontLeftReverb.Length == MIXING_BUFFER_LEN
      && bufFrontRightReverb.Length == MIXING_BUFFER_LEN
      && bufBackLeftReverb.Length == MIXING_BUFFER_LEN
      && bufBackRightReverb.Length == MIXING_BUFFER_LEN
      && sineTable.Length == SINE_TABLE_LEN
      && resamplingCoeffs.Length == RESAMPLING_COEFFS_LEN
      && afcCoeffs.Length == AFC_COEFFS_LEN
    }

    /**
     * The state the member initialisers give: not prepared, zero output
     * addresses and volume, all-zero mixing buffers and all-zero tables.
     */
    ghost predicate Initial()
      reads this, bufFrontLeft, bufFrontRight, bufBackLeft, bufBackRight
      reads bufFrontLeftReverb, bufFrontRightReverb, bufBackLeftReverb, bufBackRightReverb
      reads sineTable, resamplingCoeffs, afcCoeffs
    {
      && Valid()
      && !prepared && outputLbufAddr == 0 && outputRbufAddr == 0 && outputVolume == 0
      && bufFrontLeft[..] == bufFrontRight[..] == bufBackLeft[..] == bufBackRight[..] == Silence()
      && bufFrontLeftReverb[..] == bufFrontRightReverb[..] == Silence()
      && bufBackLeftReverb[..] == bufBackRightReverb[..] == Silence()
      && sineTable[..] == seq(SINE_TABLE_LEN, _ => 0)
      && resamplingCoeffs[..] == seq(RESAMPLING_COEFFS_LEN, _ => 0)
      && afcCoeffs[..] == seq(AFC_COEFFS_LEN, _ => 0)
    }

    /** The member initialisers, each array freshly allocated. */
    constructor ()
      ensures Valid() && Initial()
      ensures fresh(bufFrontLeft) && fresh(bufFrontRight) && fresh(bufBackLeft) && fresh(bufBackRight)
      ensures fresh(bufFrontLeftReverb) && fresh(bufFrontRightReverb)
      ensures fresh(bufBackLeftReverb) && fresh(bufBackRightReverb)
      ensures fresh(sineTable) && fresh(resamplingCoeffs) && fresh(afcCoeffs)
    {
      prepared := false;
      outputLbufAddr, outputRbufAddr := 0, 0;
      outputVolume := 0;
      var bufFrontLeftInit := ZeroedBuffer(MIXING_BUFFER_LEN);
      var bufFrontRightInit := ZeroedBuffer(MIXING_BUFFER_LEN);
      var bufBackLeftInit := ZeroedBuffer(MIXING_BUFFER_LEN);
      var bufBackRightInit := ZeroedBuffer(MIXING_BUFFER_LEN);
      var bufFrontLeftReverbInit := ZeroedBuffer(MIXING_BUFFER_LEN);
      var bufFrontRightReverbInit := ZeroedBuffer(MIXING_BUFFER_LEN);
      var bufBackLeftReverbInit := ZeroedBuffer(MIXING_BUFFER_LEN);
      var bufBackRightReverbInit := ZeroedBuffer(MIXING_BUFFER_LEN);
      var sineTableInit := ZeroedBuffer(SINE_TABLE_LEN);
      var resamplingCoeffsInit := ZeroedBuffer(RESAMPLING_COEFFS_LEN);
      var afcCoeffsInit := ZeroedBuffer(AFC_COEFFS_LEN);
      bufFrontLeft := bufFrontLeftInit;
      bufFrontRight := bufFrontRightInit;
      bufBackLeft := bufBackLeftInit;
      bufBackRight := bufBackRightInit;
      bufFrontLeftReverb := bufFrontLeftReverbInit;
      bufFrontRightReverb := bufFrontRightReverbInit;
      bufBackLeftReverb := bufBackLeftReverbInit;
      bufBackRightReverb := bufBackRightReverbInit;
      sineTable := sineTableInit;
      resamplingCoeffs := resamplingCoeffsInit;
      afcCoeffs := afcCoeffsInit;
    }

    method SetSineTable(table: seq<s16>)
      requires Valid() && |table| == SINE_TABLE_LEN
      modifies sineTable
      ensures Valid() && sineTable[..] == table
    {
      forall i | 0 <= i < SINE_TABLE_LEN {
        sineTable[i] := table[i];
      }
    }

    method SetResamplingCoeffs(coeffs: seq<s16>)
      requires Valid() && |coeffs| == RESAMPLING_COEFFS_LEN
      modifies resamplingCoeffs
      ensures Valid() && resamplingCoeffs[..] == coeffs
    {
      forall i | 0 <= i < RESAMPLING_COEFFS_LEN {
        resamplingCoeffs[i] := coeffs[i];
      }
    }

    method SetAfcCoeffs(coeffs: seq<s16>)
      requires Valid() && |coeffs| == AFC_COEFFS_LEN
      modifies afcCoeffs
      ensures Valid() && afcCoeffs[..] == coeffs
    {
      forall i | 0 <= i < AFC_COEFFS_LEN {
        afcCoeffs[i] := coeffs[i];
      }
    }

    method SetVPBBaseAddress(addr: u32)
      modifies this`vpbBaseAddr
      ensures vpbBaseAddr == addr
    {
      vpbBaseAddr := addr;
    }

    method SetOutputVolume(volume: u16)
      modifies this`outputVolume
      ensures outputVolume == volume
    {
      outputVolume := volume;
    }

    method SetOutputLeftBufferAddr(addr: u32)
      modifies this`outputLbufAddr
      ensures outputLbufAddr == addr
    {
      outputLbufAddr := addr;
    }

    method SetOutputRightBufferAddr(addr: u32)
      modifies this`outputRbufAddr
      ensures outputRbufAddr == addr
    {
      outputRbufAddr := addr;
    }

    /**
     * Scales every sample of `buf` by the fixed-point volume `vol` with `b`
     * integer bits, in place; each element depends on its old value only.
     */
    method ApplyVolumeInPlace(buf: array<s16>, vol: u16, b: nat)
      requires b <= 16
      modifies buf
      ensures buf[..] == ApplyVolume(old(buf[..]), vol, b)
    {
      for i := 0 to buf.Length
        invariant forall k :: 0 <= k < i ==> buf[k] == ScaledSample(old(buf[k]), vol, b)
        invariant forall k :: i <= k < buf.Length ==> buf[k] == old(buf[k])
      {
        var tmp: s32 := ToS32(ToU32(ToU32(buf[i]) * vol));
        SarIsFloor(tmp, 16 - b);
        tmp := Sar(tmp, 16 - b);
        tmp := Clamp(tmp, S16_MIN, S16_MAX);
        buf[i] := ToS16(tmp);
      }
    }

    /** Volume in 1.15 fixed point: 0x8000 is unity gain. */
    method ApplyVolumeInPlace_1_15(buf: array<s16>, vol: u16)
      modifies buf
      ensures buf[..] == ApplyVolume(old(buf[..]), vol, 1)
    {
      ApplyVolumeInPlace(buf, vol, 1);
    }

    /** Volume in 4.12 fixed point: 0x1000 is unity gain. */
    method ApplyVolumeInPlace_4_12(buf: array<s16>, vol: u16)
      modifies buf
      ensures buf[..] == ApplyVolume(old(buf[..]), vol, 4)
    {
      ApplyVolumeInPlace(buf, vol, 4);
    }

    /**
     * Adds `src`, scaled by the running volume `vol` (gain in its top 16
     * bits), into `dst`, stepping the volume by `step` after every sample;
     * returns the final volume. `dst` and `src` may be the same array. The
     * running volume must not overflow an `s32`.
     */
    method AddBuffersWithVolumeRamp(dst: array<s16>, src: array<s16>, vol: s32, step: s32) returns (r: s32)
      requires dst.Length == src.Length
      requires S32_MIN <= vol + dst.Length * step <= S32_MAX
      modifies dst
      ensures r == vol + dst.Length * step
      ensures dst[..] == MixRamp(old(dst[..]), old(src[..]), vol, step)
      ensures vol == 0 && step == 0 ==> r == 0 && dst[..] == old(dst[..])
      ensures src != dst ==> src[..] == old(src[..])
    {
      if vol == 0 && step == 0 {
        SilentRampKeepsDestination(dst[..], src[..]);
        return vol;
      }
      ghost var d0, s0 := dst[..], src[..];
      var v := vol;
      for i := 0 to dst.Length
        invariant v == vol + i * step
        invariant forall k :: 0 <= k < i ==> dst[k] == MixRamp(d0, s0, vol, step)[k]
        invariant forall k :: i <= k < dst.Length ==> dst[k] == d0[k] && src[k] == s0[k]
        invariant src != dst ==> src[..] == s0
      {
        var d, x := dst[i], src[i];
        assert d == d0[i] && x == s0[i];
        MixRampStep(d0, s0, vol, step, i, v);
        dst[i] := ToS16(d + RampAddend(x, v));
        RampVolumeInRange(vol, step, dst.Length, i + 1);
        v := v + step;
      }
      assert dst[..] == MixRamp(d0, s0, vol, step);
      r := v;
    }
  }
}
