# Zelda DSP microcode emulation: fixed-point helpers and command queue

This project models the code that `Zelda.h` defines inline in Dolphin's
high-level emulation of the "Zelda" family of DSP microcode. It proves
properties of that model in Dafny.

- **Volume scaling** (`ApplyVolumeInPlace<N, B>` and its 1.15 and 4.12
  wrappers). Each 16-bit sample is multiplied by an unsigned 16-bit volume.
  The product is shifted right arithmetically by `16 - B` and clamped to the
  signed 16-bit range. The buffer is rewritten in place.
- **Volume-ramped mixing** (`AddBuffersWithVolumeRamp<N>`). Each source sample
  is scaled by the top 16 bits of a running 32-bit volume and added into the
  destination. The volume grows by `step` after every sample, and the final
  volume is returned. Volume 0 with step 0 returns at once.
- **Command buffer.** A circular queue of 64 32-bit words with a read offset
  and a write offset (`Read32`, `Write32`).
- **Protocol and renderer state.** The mail state machine's state and
  `SetMailState`. The synchronisation and rendering counters, and
  `RenderingInProgress`. The renderer's mixing buffers, lookup tables and
  configuration setters.

Files:

- `fixed_point.dfy` (module `FixedPoint`): the `s16`/`u16`/`s32`/`u32` types
  and the C++ conversions between them (modular wrap-around, arithmetic shift,
  clamp).
- `volume.dfy` (module `Volume`): the two DSP helpers as functions on values,
  with lemmas about them.
- `command_queue.dfy` (module `CommandQueue`): the command buffer as a queue
  value, with FIFO lemmas.
- `renderer.dfy` (module `ZeldaRenderer`): class `ZeldaAudioRenderer`. Its
  in-place methods are proved against the `Volume` functions.
- `ucode.dfy` (module `ZeldaUCodeState`): class `ZeldaUCode`. `Read32` and
  `Write32` are proved against `CommandQueue.Read` and `CommandQueue.Write`.

Modelling decisions:

- Dafny fields use camelCase. For example, `m_read_offset` is `readOffset`
  and `m_cmd_buffer` is `cmdBuffer`.
- Each `std::array` member is a `const` array field, because its storage is
  never re-seated.
- Samples stored in arrays have type `s16`, so they are always in range. The
  content of the clamp property is that the final `(s16)` cast never wraps.
- The `(u32)` and `(s16)` casts and stores into `s16`/`s32` are two's
  complement reductions, as on every platform Dolphin targets.
- `MathUtil::Clamp` is a plain clamp.
- The template parameter `B` is an argument `b` with `b <= 16`. A larger `B`
  makes the shift count `16 - B` wrap as a `size_t`.
- `AddBuffersWithVolumeRamp` requires that `vol + N * step` fits in an `s32`.
  Because the volume changes linearly, every intermediate volume then fits too
  (`RampVolumeInRange`). Signed overflow of `vol += step` is undefined
  behaviour in C++.
- `dst` and `src` may be the same array. Each element is read before it is
  written, so the result is still given by the old contents.

- The ramped mix does not saturate. At `Zelda.h:72` the sum of an `s16` and
  an `int` addend is stored back into an `s16`, so it wraps modulo 2^16.
  `MixRampWraps` shows an input where the result turns negative.

## Model

| member | source | states |
|---|---|---|
| FixedPoint.SarIsFloor | Source/Core/Core/HW/DSPHLE/UCodes/Zelda.h:41 | `x >> n` on a signed value is the floor of x / 2^n and never grows in magnitude |
| FixedPoint.ToU32 | Source/Core/Core/HW/DSPHLE/UCodes/Zelda.h:40 | `(u32)x` is congruent to x modulo 2^32 and is x when x already fits |
| FixedPoint.ToS32 | Source/Core/Core/HW/DSPHLE/UCodes/Zelda.h:40 | storing into an `s32` is congruent modulo 2^32 and keeps every value in the `s32` range |
| FixedPoint.ToS16 | Source/Core/Core/HW/DSPHLE/UCodes/Zelda.h:43 | `(s16)x` is congruent to x modulo 2^16 and keeps every value in [-0x8000, 0x7fff] |
| FixedPoint.Clamp | Source/Core/Core/HW/DSPHLE/UCodes/Zelda.h:42 | the result lies in [lo, hi]; it is x inside the range, lo below it and hi above it |
| Volume.VolumeProductIsExact | Source/Core/Core/HW/DSPHLE/UCodes/Zelda.h:40 | the product computed through `(u32)` and read back as `s32` is the exact signed product sample * vol |
| Volume.ScaledSampleIsClampedQuotient | Source/Core/Core/HW/DSPHLE/UCodes/Zelda.h:38-44 | a scaled sample is clamp(floor(sample * vol / 2^(16-B))) to [-0x8000, 0x7fff], and the final cast does not wrap |
| Volume.FullVolumeSaturates | Source/Core/Core/HW/DSPHLE/UCodes/Zelda.h:42 | at volume 0xffff in 1.15, 0x7fff saturates to 0x7fff and -0x8000 to -0x8000 instead of wrapping |
| Volume.UnityVolumeKeepsSample | Source/Core/Core/HW/DSPHLE/UCodes/Zelda.h:38-55 | with B integer bits, volume 2^(16-B) returns every sample unchanged |
| Volume.ZeroVolumeSilences | Source/Core/Core/HW/DSPHLE/UCodes/Zelda.h:38-44 | volume 0 turns every sample into 0 |
| Volume.ApplyVolume | Source/Core/Core/HW/DSPHLE/UCodes/Zelda.h:35-45 | the scaled buffer has the same length, and element i is clamp(floor(buf[i] * vol / 2^(16-B))), depending on buf[i] alone |
| Volume.ApplyZeroVolume | Source/Core/Core/HW/DSPHLE/UCodes/Zelda.h:35-55 | volume 0 zeroes the whole buffer, in either format |
| Volume.ApplyUnityVolume | Source/Core/Core/HW/DSPHLE/UCodes/Zelda.h:46-55 | 0x8000 in 1.15 and 0x1000 in 4.12 leave the buffer unchanged |
| Volume.RampGainIsS16 | Source/Core/Core/HW/DSPHLE/UCodes/Zelda.h:72 | `vol >> 16` of an `s32` volume lies in [-0x8000, 0x7fff] |
| Volume.RampAddendBound | Source/Core/Core/HW/DSPHLE/UCodes/Zelda.h:72 | every addend `((vol >> 16) * src[i]) >> 16` lies in [-0x4000, 0x4000] |
| Volume.SilentRampKeepsDestination | Source/Core/Core/HW/DSPHLE/UCodes/Zelda.h:67-68 | with volume 0 and step 0 the mix adds nothing, so the early return agrees with running the loop |
| Volume.MixRampAt | Source/Core/Core/HW/DSPHLE/UCodes/Zelda.h:70-74 | element i becomes the old element plus its addend at volume vol + i*step, reduced modulo 2^16; it is exactly that sum when the sum fits |
| Volume.MixRampWraps | Source/Core/Core/HW/DSPHLE/UCodes/Zelda.h:72 | 0x7fff plus the addend of 0x7fff at gain 0x7fff gives -0x4002: the store wraps and does not saturate |
| Volume.RampVolumeInRange | Source/Core/Core/HW/DSPHLE/UCodes/Zelda.h:73 | if the volume fits an `s32` before the first and after the last step, it fits after every step |
| CommandQueue.Pending | Source/Core/Core/HW/DSPHLE/UCodes/Zelda.h:185-206 | the queued words, from the read offset up to the write offset; there are fewer than 64, and none exactly when the offsets are equal |
| CommandQueue.Write | Source/Core/Core/HW/DSPHLE/UCodes/Zelda.h:209-213 | only the word at the write offset changes, the write offset advances modulo 64, and the read offset is kept; with fewer than 63 words queued the word is appended, and with 63 the queue looks empty |
| CommandQueue.Read | Source/Core/Core/HW/DSPHLE/UCodes/Zelda.h:195-206 | an empty queue returns 0 and is unchanged; otherwise the oldest word is returned and removed, with the buffer and write offset untouched |
| CommandQueue.WriteAllAppends | Source/Core/Core/HW/DSPHLE/UCodes/Zelda.h:209-213 | writes append their words in order while fewer than 64 are held |
| CommandQueue.ReadNTakesPrefix | Source/Core/Core/HW/DSPHLE/UCodes/Zelda.h:195-206 | k reads return the k oldest words in order and leave the rest queued |
| CommandQueue.FifoRoundTrip | Source/Core/Core/HW/DSPHLE/UCodes/Zelda.h:195-213 | k < 64 words written into an empty queue come back in order from k reads; the queue is then empty, and one more read returns 0 |
| CommandQueue.WriteAllOffsets | Source/Core/Core/HW/DSPHLE/UCodes/Zelda.h:209-213 | writes keep the read offset and move the write offset by the number of words, modulo 64 |
| CommandQueue.FullLapLooksEmpty | Source/Core/Core/HW/DSPHLE/UCodes/Zelda.h:188-213 | with no overflow check, 64 writes into an empty queue leave it looking empty |
| ZeldaRenderer.ZeldaAudioRenderer.constructor | Source/Core/Core/HW/DSPHLE/UCodes/Zelda.h:80-132 | the renderer is in its `Initial` state: not prepared, zero output addresses and volume, eight all-zero 0x50-sample mixing buffers and zeroed tables of 0x80, 0x100 and 0x20 entries; every array is freshly allocated |
| ZeldaRenderer.ZeldaAudioRenderer.SetSineTable | Source/Core/Core/HW/DSPHLE/UCodes/Zelda.h:18 | the sine table holds the given 0x80 entries; nothing else changes |
| ZeldaRenderer.ZeldaAudioRenderer.SetResamplingCoeffs | Source/Core/Core/HW/DSPHLE/UCodes/Zelda.h:19 | the resampling table holds the given 0x100 coefficients; nothing else changes |
| ZeldaRenderer.ZeldaAudioRenderer.SetAfcCoeffs | Source/Core/Core/HW/DSPHLE/UCodes/Zelda.h:20 | the AFC table holds the given 0x20 coefficients; nothing else changes |
| ZeldaRenderer.ZeldaAudioRenderer.SetVPBBaseAddress | Source/Core/Core/HW/DSPHLE/UCodes/Zelda.h:21 | the VPB base address is the given one; nothing else changes |
| ZeldaRenderer.ZeldaAudioRenderer.SetOutputVolume | Source/Core/Core/HW/DSPHLE/UCodes/Zelda.h:22 | the output volume is the given one; nothing else changes |
| ZeldaRenderer.ZeldaAudioRenderer.SetOutputLeftBufferAddr | Source/Core/Core/HW/DSPHLE/UCodes/Zelda.h:23 | the left output address is the given one; nothing else changes |
| ZeldaRenderer.ZeldaAudioRenderer.SetOutputRightBufferAddr | Source/Core/Core/HW/DSPHLE/UCodes/Zelda.h:24 | the right output address is the given one; nothing else changes |
| ZeldaRenderer.ZeldaAudioRenderer.ApplyVolumeInPlace | Source/Core/Core/HW/DSPHLE/UCodes/Zelda.h:35-45 | the buffer becomes `ApplyVolume` of its old contents; only the buffer changes |
| ZeldaRenderer.ZeldaAudioRenderer.ApplyVolumeInPlace_1_15 | Source/Core/Core/HW/DSPHLE/UCodes/Zelda.h:46-50 | the same with one integer bit (shift by 15) |
| ZeldaRenderer.ZeldaAudioRenderer.ApplyVolumeInPlace_4_12 | Source/Core/Core/HW/DSPHLE/UCodes/Zelda.h:51-55 | the same with four integer bits (shift by 12) |
| ZeldaRenderer.ZeldaAudioRenderer.AddBuffersWithVolumeRamp | Source/Core/Core/HW/DSPHLE/UCodes/Zelda.h:62-77 | returns vol + N*step; dst becomes `MixRamp` of the old dst and src; with vol and step both 0 it returns 0 and dst is unchanged; src is never modified unless it is dst |
| ZeldaUCodeState.ZeldaUCode.constructor | Source/Core/Core/HW/DSPHLE/UCodes/Zelda.h:159-240 | state WAITING, no expected mails, zero sync fields and skip flags, a zeroed command buffer with both offsets 0 (empty), commands allowed, zero rendering counters (so no rendering in progress), a fresh renderer in its initial state (`Initial`: not prepared, zero addresses and volume, all-zero mixing buffers and tables) |
| ZeldaUCodeState.ZeldaUCode.SetMailState | Source/Core/Core/HW/DSPHLE/UCodes/Zelda.h:171-175 | the current state becomes the given one; nothing else changes |
| ZeldaUCodeState.ZeldaUCode.Read32 | Source/Core/Core/HW/DSPHLE/UCodes/Zelda.h:195-206 | the returned word and the new queue are `CommandQueue.Read` of the old queue; only the read offset may change, and it stays below 64 |
| ZeldaUCodeState.ZeldaUCode.Write32 | Source/Core/Core/HW/DSPHLE/UCodes/Zelda.h:209-213 | the new queue is `CommandQueue.Write` of the old one; only the buffer and the write offset may change, and it stays below 64 |
| ZeldaUCodeState.ZeldaUCode.RenderingInProgress | Source/Core/Core/HW/DSPHLE/UCodes/Zelda.h:236 | true exactly when the current frame differs from the requested frame count |

## Left out

- `PrepareFrame`, `AddVoice`, `FinalizeFrame`, `FetchVPB`, `StoreVPB`, `LoadInputSamples`, `NeededRawSamplesCount`, `Resample`, the `Download*` sample loaders and `DecodeAFC` are declared in `Zelda.h` without bodies. Their definitions are not part of this model, and the `VPB` struct is only forward-declared.
- `HandleMail`, `Update`, `RunPendingCommands`, `SendCommandAck`, `RenderAudio`, `GetUpdateMs`, the constructor body and the destructor of `ZeldaUCode` are also declared without bodies. The model does not cover the mail state machine's transitions or the acknowledgement mails. Only the state, the `MailState`/`CommandAck` enumerations and the inline members are modelled.
- `ZeldaUCode.constructor` models only the in-class member initialisers. The `m_vpb_base_addr` field has no initialiser, so the model leaves its initial value unconstrained.
- `DoState` (save-state serialisation) is left out. It goes through an external stream framework.
- The `ERROR_LOG` in `Read32` and the commented-out log in `SetMailState` are I/O, treated as no-ops.
- `PulseAudioStream.cpp` is left out: the audio output thread, the PulseAudio C library, and floating-point time-stretching are device I/O, concurrency and floating point.
- The setters take `std::array&&`, modelled as a sequence of the array's fixed length whose contents are copied. The move itself has no observable effect.
- `ZeldaAudioRenderer.Valid` records only the arrays' lengths, not that the eleven arrays are distinct. The constructor allocates each array fresh and the fields are `const`, but a setter's frame promises only that the named array and field change.
