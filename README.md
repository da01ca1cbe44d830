# Quadrature tone generator: DDS refill core

A model of the sample-producing core of an STM32F0 quadrature (sine/cosine)
tone generator that streams 16-bit stereo samples to an I2S DAC through a
circular DMA buffer. The core is direct digital synthesis (DDS): a 32-bit
phase accumulator `phac` advances by a constant tuning word `tw` once per
scalar sample, the top 8 bits of the phase index a 256-entry sine
wavetable, and the cosine is read a quarter table (64 entries) ahead.
`Populate(pos)` writes 32 consecutive scalar samples into one half of the
64-sample DMA buffer `dmabuf`: odd positions get the sine (right channel),
even positions the cosine (left channel). The DMA interrupt handler refills
the half the DMA has just finished sending: the first half on a
half-transfer interrupt, the second half on a transfer-complete interrupt.

Two modules:

- `Dds` (dds.dfy): the constants, the tuning word, the wrapping phase
  arithmetic, the table indices, the sample written at each position, and
  `Refill`, the buffer a refill produces, defined step by step like the C
  loop. Lemmas give its closed form, the frame layout, and the continuity of
  the phase across refills. `Stream` is an independent reference: the
  endless output, sample t taken at phase step t.
- `Generator` (generator.dfy): class `QuadratureGenerator` holds what the C
  program keeps in globals and a function-local static: `phac`, the arrays
  `dmabuf` and `sinewt`, and the two pending-interrupt flags. `Populate` is a
  loop that writes `dmabuf` in place and is proved against `Refill`;
  `HandleDmaInterrupt` is the two-way dispatch. A ghost counter `emitted`
  records the samples produced since reset, and the class invariant says
  `phac` has advanced exactly once per sample.

Integer widths are explicit: `Word` is the range of `uint32_t`, and every
addition to the phase is reduced modulo 2^32. The shift `phac >> 24` is
written as division by 2^24, the mask `& 255` as remainder by 256 and the
parity test `n & 1` as `n % 2 == 1`; three lemmas prove each of these equal
to the bit operation on `bv32` values. Samples and table entries are `int16`.

`DMA_BUFSIZ` is 32 and the buffer has 64 entries (main.c:57, main.c:68), so
each half is 32 scalar samples, i.e. 16 stereo frames.

## Model

| member | source | states |
|---|---|---|
| Dds.TuningWordValue | main.c:83 | the tuning word is floor(2^32 / (2*46875)) * 8000 = 45812 * 8000 = 366496000, and the product fits in 32 bits |
| Dds.TuningWordUndershoot | main.c:83 | for any sample rate and tone whose product fits in 32 bits, truncating the division makes tw * 2fs <= freq * 2^32 < (tw + freq) * 2fs: the tone comes out flat by less than freq * 2fs / 2^32 Hz |
| Dds.TuningWordAccuracy | main.c:59-65 | with FS = 46875 and FREQOUT = 8000 the generated frequency tw * 2FS / 2^32 is at most 8000 Hz and within 0.0025 % of it |
| Dds.AdvanceNIsLinear | main.c:112 | stepping the accumulator (`phac += tw` modulo 2^32) k times from p gives (p + k*tw) mod 2^32 |
| Dds.PhaseAtAdd | main.c:84 | the phase after a samples and then b more equals the phase after a + b samples |
| Dds.PhaseAfterFillsIsLinear | main.c:80-114 | after k refills the phase is (p + 32*k*tw) mod 2^32: it carries over between calls with no reset, skip or repeat |
| Dds.SineIndex | main.c:91 | the sine index `phac >> 24` is below 256, so the table read is in bounds |
| Dds.CosineIndex | main.c:94-96 | the cosine index is below 256 and equals the sine index + 64, wrapped past 255 (i.e. (sine index + 64) mod 256) |
| Dds.ShiftIsSineIndex | main.c:91 | for every 32-bit phase, `phac >> 24` equals the sine index used by the model |
| Dds.MaskIsCosineIndex | main.c:96 | for every 32-bit phase, `((phac >> 24) + 64) & 255` equals the cosine index used by the model |
| Dds.ParityBitIsRight | main.c:99 | for every buffer position below 64, `n & 1` is set exactly when the model puts the right channel there |
| Dds.QuarterCycleLead | main.c:94-96 | the cosine index of phase p is the sine index of phase p + 2^30 (mod 2^32): the left channel leads the right by a quarter cycle |
| Dds.RefillAt | main.c:89-113 | a refill of count samples from position n changes only positions [n, n + count); position m gets the sine entry (m odd) or cosine entry (m even) for the phase m - n steps after the start |
| Dds.RefillFrames | main.c:98-109 | in a refilled half, stereo frame f holds the cosine entry of phase step 2f on the left (even position) and the sine entry of phase step 2f + 1 on the right (odd position) |
| Dds.HalvesAreContiguous | main.c:117-130 | refilling the first half and then the second half from where the first left the phase yields exactly the first 64 samples of the continuous output stream |
| Generator.QuadratureGenerator.constructor | main.c:68-84 | the state at reset: zeroed 64-sample buffer, phase 0, no interrupt pending, the given 256-entry table |
| Generator.QuadratureGenerator.Populate | main.c:80-114 | for pos with pos + 32 <= 64, writes dmabuf[pos .. pos+32) with the sample for phase step m - pos at each position m, leaves every other position and the wavetable unchanged, and advances the phase by exactly 32 steps |
| Generator.QuadratureGenerator.HandleDmaInterrupt | main.c:117-130 | if HT is pending it clears HT, keeps TC and refills the first half, else if TC is pending it clears TC and refills the second half, else it changes nothing, and in every case it leaves the wavetable unchanged |
| Generator.OneDmaCycle | main.c:157-175 | a half-transfer interrupt followed by a transfer-complete interrupt on the circular 64-sample buffer leaves in it the next 64 consecutive output samples and moves the phase on by 64 steps |

## Left out

- Clock, GPIO, I2S and DMA peripheral configuration in `main` (main.c:135-180, main.c:190-191): vendor register calls with no logic of their own.
- Wavetable generation with `32767*sin(...)` in double precision (main.c:184-187): floating point. The table is an arbitrary array of 256 `int16` values.
- The idle `while(1)` loop (main.c:193-195).
- What `DMA_GetITStatus` and `DMA_ClearITPendingBit` do in hardware: the two pending flags are plain fields that the handler reads and clears; the DMA setting them is modelled only by assignments in `OneDmaCycle`.
- The real-time deadline (a refill finishing before the DMA drains the other half) and the concurrency between the interrupt and the DMA: timing and hardware guarantees, not sequential behaviour.
- The PLL compensation described in the comments at main.c:59-64: the code only uses the resulting constant 46875.
- The C type of the literal `4294967296UL` (an unsigned long long on a 32-bit target): the model computes with unbounded integers and reduces the product modulo 2^32.
