/** Direct digital synthesis arithmetic of the quadrature tone generator:
    the build-time constants, the tuning word, the 32-bit phase accumulator,
    the sine and cosine table indices, and the samples one half-buffer
    refill writes. Everything here is a pure function of its inputs; the
    state that persists between refills lives in module Generator. */
module Dds {

  /** Scalar samples written per refill, i.e. one half of the DMA buffer (DMA_BUFSIZ). */
  const BufSize: nat := 32
  /** Length of the circular DMA buffer: two halves. */
  const BufLength: nat := 2 * BufSize
  /** Sample rate per channel in Hz, detuned from 48000 to compensate the PLL (FS). */
  const Fs: nat := 46875
  /** Target tone frequency in Hz (FREQOUT). */
  const FreqOut: nat := 8000
  /** Number of entries of the sine wavetable. */
  const TableSize: nat := 256
  /** Modulus of uint32_t arithmetic. */
  const Two32: nat := 0x1_0000_0000
  /** Phase units per table step: the low 24 bits of the phase are dropped. */
  const IndexUnit: nat := 0x100_0000

  /** A value of C's int16_t: the wavetable entries and the buffer samples. */
  newtype int16 = x: int | -0x8000 <= x < 0x8000

  /** A value of C's uint32_t: the phase accumulator and the tuning word. */
  type Word = x: int | 0 <= x < 0x1_0000_0000

  // ---------------------------------------------------------------- tuning word

  /** The per-sample phase increment for sample rate `fs` and tone `freq`:
      2^32 divided (truncating) by the scalar rate 2*fs, because the buffer
      interleaves two channels, then scaled by `freq`, then stored in a uint32_t. */
  function TuningWordFor(fs: nat, freq: nat): Word
    requires 0 < fs
  {
    (Two32 / (2 * fs)) * freq % Two32
  }

  /** The tuning word `tw` the program uses. */
  const TW: Word := TuningWordFor(Fs, FreqOut)

  /** The tuning word is floor(2^32 / 93750) * 8000 = 45812 * 8000, and the
      product fits in 32 bits, so the final conversion to uint32_t loses nothing. */
  lemma TuningWordValue()
    ensures Two32 / (2 * Fs) == 45812
    ensures (Two32 / (2 * Fs)) * FreqOut < Two32
    ensures TW == 366496000
  {
  }

  /** Truncating 2^32 / (2*fs) makes the generated tone flat, never sharp, and
      by less than `freq` scalar-rate units: with actual frequency
      tw * 2fs / 2^32, that is 0 <= freq - actual < freq * 2fs / 2^32. */
  lemma TuningWordUndershoot(fs: nat, freq: nat)
    requires 0 < fs && 0 < freq
    requires (Two32 / (2 * fs)) * freq < Two32
    ensures TuningWordFor(fs, freq) * (2 * fs) <= freq * Two32
    ensures freq * Two32 < (TuningWordFor(fs, freq) + freq) * (2 * fs)
  {
    TuningWordNoWrap(fs, freq);
    DivModParts(Two32, 2 * fs);
    TruncatedScale(Two32, 2 * fs, Two32 / (2 * fs), Two32 % (2 * fs), freq, TuningWordFor(fs, freq));
  }

  /** When the scaled quotient fits in 32 bits, storing it loses nothing. */
  lemma TuningWordNoWrap(fs: nat, freq: nat)
    requires 0 < fs
    requires (Two32 / (2 * fs)) * freq < Two32
    ensures TuningWordFor(fs, freq) == (Two32 / (2 * fs)) * freq
  {
    var step: int := Two32 / (2 * fs);
    DivNonNegative(Two32, 2 * fs);
    var scaled: int := step * freq;
    MulNonNegative(step, freq);
    assert TuningWordFor(fs, freq) == scaled % Two32;
    ModSmall(scaled);
  }

  /** Dividing a natural by a positive number gives a natural. */
  lemma DivNonNegative(n: int, d: int)
    requires 0 <= n && 0 < d
    ensures 0 <= n / d
  {
  }

  /** The product of two naturals is a natural. */
  lemma MulNonNegative(a: int, b: int)
    requires 0 <= a && 0 <= b
    ensures 0 <= a * b
  {
  }

  /** Euclidean division of n by d > 0. */
  lemma DivModParts(n: nat, d: nat)
    requires 0 < d
    ensures n == (n / d) * d + n % d && n % d < d
  {
  }

  /** A value already below 2^32 is its own residue. */
  lemma ModSmall(x: int)
    requires 0 <= x < Two32
    ensures x % Two32 == x
  {
  }

  /** If n == q*d + r with r < d and tw == q*f, f > 0, then tw*d <= f*n < (tw + f)*d. */
  lemma TruncatedScale(n: nat, d: nat, q: nat, r: nat, f: nat, tw: nat)
    requires n == q * d + r && r < d && 0 < f && tw == q * f
    ensures tw * d <= f * n < (tw + f) * d
  {
    assert f * n == f * (q * d) + f * r by {
      MulAddSplit(f, q * d, r);
    }
    assert f * (q * d) == tw * d by {
      MulRegroup(f, q, d);
    }
    MulBelow(f, r, d);
    assert (tw + f) * d == tw * d + f * d by {
      MulAddSplit(d, tw, f);
    }
  }

  /** f * (q * d) == (q * f) * d. */
  lemma MulRegroup(f: nat, q: nat, d: nat)
    ensures f * (q * d) == (q * f) * d
  {
  }

  /** Multiplication distributes over addition. */
  lemma MulAddSplit(a: nat, b: nat, c: nat)
    ensures a * (b + c) == a * b + a * c
  {
  }

  /** a * r <= a * d when r < d, strictly when a is positive. */
  lemma MulBelow(a: nat, r: nat, d: nat)
    requires r < d
    ensures a * r <= a * d
    ensures 0 < a ==> a * r < a * d
  {
  }

  /** With the program's constants the tone comes out at about 7999.83 Hz:
      below 8000 Hz by less than 0.0025 %, far smaller than the 2.34 % error
      the PLL introduces into the sample rate. */
  lemma TuningWordAccuracy()
    ensures 0 <= FreqOut * Two32 - TW * (2 * Fs)
    ensures 40000 * (FreqOut * Two32 - TW * (2 * Fs)) < FreqOut * Two32
  {
    TuningWordValue();
  }

  // ---------------------------------------------------------- phase accumulator

  /** One step of the accumulator, `phac += tw` on a uint32_t. */
  function Advance(p: Word): Word
  {
    (p + TW) % Two32
  }

  /** The accumulator `k` steps after `p`, stepping one at a time. */
  function AdvanceN(p: Word, k: nat): Word
    decreases k
  {
    if k == 0 then p else Advance(AdvanceN(p, k - 1))
  }

  /** Closed form of the phase `k` samples after phase `p`. */
  function PhaseAt(p: Word, k: nat): Word
  {
    (p + k * TW) % Two32
  }

  /** (a mod 2^32 + b) mod 2^32 == (a + b) mod 2^32. */
  lemma ModAdd(a: nat, b: nat)
    ensures (a % Two32 + b) % Two32 == (a + b) % Two32
  {
    var q := a / Two32;
    assert a == q * Two32 + a % Two32;
    assert a + b == (a % Two32 + b) + q * Two32;
    ModMultiple(a % Two32 + b, q);
  }

  /** Adding a multiple of the modulus does not change the residue. */
  lemma {:induction false} ModMultiple(x: nat, q: nat)
    ensures (x + q * Two32) % Two32 == x % Two32
    decreases q
  {
    if q > 0 {
      ModMultiple(x, q - 1);
      assert x + q * Two32 == (x + (q - 1) * Two32) + Two32;
    }
  }

  /** One more step of the accumulator is one more sample of the closed form. */
  lemma AdvancePhaseAt(p: Word, k: nat)
    ensures Advance(PhaseAt(p, k)) == PhaseAt(p, k + 1)
  {
    ModAdd(p + k * TW, TW);
    assert p + k * TW + TW == p + (k + 1) * TW;
  }

  /** Advancing the accumulator k times from p lands on (p + k*tw) mod 2^32. */
  lemma {:induction false} AdvanceNIsLinear(p: Word, k: nat)
    ensures AdvanceN(p, k) == PhaseAt(p, k)
    decreases k
  {
    if k > 0 {
      AdvanceNIsLinear(p, k - 1);
      AdvancePhaseAt(p, k - 1);
    }
  }

  /** Zero steps leave the phase where it is. */
  lemma PhaseAtZero(p: Word)
    ensures PhaseAt(p, 0) == p
  {
  }

  /** Counting k steps from the phase one step later is counting k + 1 from p. */
  lemma PhaseAfterAdvance(p: Word, k: nat)
    ensures PhaseAt(Advance(p), k) == PhaseAt(p, k + 1)
  {
    AdvancePhaseAt(p, 0);
    PhaseAtZero(p);
    PhaseAtAdd(p, 1, k);
  }

  /** Phase continuity: running a samples and then b more is running a + b. */
  lemma PhaseAtAdd(p: Word, a: nat, b: nat)
    ensures PhaseAt(PhaseAt(p, a), b) == PhaseAt(p, a + b)
  {
    ModAdd(p + a * TW, b * TW);
    assert p + a * TW + b * TW == p + (a + b) * TW;
  }

  /** The phase after `k` refills, one BufSize-sample refill at a time. */
  function PhaseAfterFills(p: Word, k: nat): Word
    decreases k
  {
    if k == 0 then p else PhaseAt(PhaseAfterFills(p, k - 1), BufSize)
  }

  /** k refills move the phase by exactly k * BufSize steps: the accumulator
      carries over between refills, nothing is reset, skipped or repeated. */
  lemma {:induction false} PhaseAfterFillsIsLinear(p: Word, k: nat)
    ensures PhaseAfterFills(p, k) == PhaseAt(p, BufSize * k)
    decreases k
  {
    if k == 0 {
      PhaseAtZero(p);
    } else {
      PhaseAfterFillsIsLinear(p, k - 1);
      PhaseAtAdd(p, BufSize * (k - 1), BufSize);
      assert BufSize * (k - 1) + BufSize == BufSize * k;
    }
  }

  // -------------------------------------------------------------- table indices

  /** `sinph = phac >> 24`: the top 8 bits of the phase. */
  function SineIndex(p: Word): (i: nat)
    ensures i < TableSize
  {
    p / IndexUnit
  }

  /** `cosph = (sinph + 64) & 255`: a quarter of the table ahead of the sine
      index, wrapped into the table. */
  function CosineIndex(p: Word): (i: nat)
    ensures i < TableSize
    ensures SineIndex(p) < 192 ==> i == SineIndex(p) + 64
    ensures 192 <= SineIndex(p) ==> i == SineIndex(p) - 192
  {
    (SineIndex(p) + TableSize / 4) % TableSize
  }

  /** The cosine index is the sine index of the phase a quarter cycle
      (2^30) later: the left channel leads the right by 90 degrees. */
  lemma QuarterCycleLead(p: Word)
    ensures CosineIndex(p) == SineIndex((p + Two32 / 4) % Two32)
  {
    var s := p / IndexUnit;
    assert s * IndexUnit <= p < (s + 1) * IndexUnit;
    var q := p + Two32 / 4;
    assert (s + 64) * IndexUnit <= q < (s + 65) * IndexUnit;
    if s < 192 {
      assert q < Two32;
      assert q % Two32 == q;
      DivInRange(q, s + 64);
    } else {
      assert Two32 <= q;
      assert q % Two32 == q - Two32;
      assert (s - 192) * IndexUnit <= q - Two32 < (s - 191) * IndexUnit;
      DivInRange(q - Two32, s - 192);
    }
  }

  /** On the uint32_t phase itself, `phac >> 24` is SineIndex. */
  lemma ShiftIsSineIndex(p: bv32)
    ensures (p >> 24) as int == SineIndex(p as int)
  {
    ShiftIsDivision(p);
  }

  /** A right shift by 24 of a uint32_t is division by 2^24. */
  lemma ShiftIsDivision(p: bv32)
    ensures (p >> 24) as int == (p as int) / 0x100_0000
  {
  }

  /** `(sinph + 64) & 255` on uint32_t values, with sinph = `phac >> 24`,
      is CosineIndex. */
  lemma MaskIsCosineIndex(p: bv32)
    ensures (((p >> 24) + 64) & 255) as int == CosineIndex(p as int)
  {
    var s := p >> 24;
    ShiftIsSineIndex(p);
    assert s < 256;
    MaskIsRemainder(s);
  }

  /** For a table index s, masking s + 64 with 255 is taking it modulo 256. */
  lemma MaskIsRemainder(s: bv32)
    requires s < 256
    ensures ((s + 64) & 255) as int == (s as int + 64) % 256
  {
  }

  /** A value lying in the m-th block of IndexUnit has index m. */
  lemma DivInRange(x: nat, m: nat)
    requires m * IndexUnit <= x < (m + 1) * IndexUnit
    ensures x / IndexUnit == m
  {
  }

  // ------------------------------------------------------------------- samples

  /** `n & 1`: odd buffer positions carry the right channel, even the left. */
  predicate IsRight(n: nat)
  {
    n % 2 == 1
  }

  /** For every buffer position n (a uint32_t below 64), `n & 1` is IsRight. */
  lemma ParityBitIsRight(n: bv32)
    requires n < 64
    ensures (n & 1 == 1) <==> IsRight(n as int)
  {
  }

  /** The sample written at absolute buffer position `n` while the phase is `p`:
      the sine entry on the right channel, the cosine entry on the left. */
  function Sample(table: seq<int16>, p: Word, n: nat): int16
    requires |table| == TableSize
  {
    if IsRight(n) then table[SineIndex(p)] else table[CosineIndex(p)]
  }

  /** The buffer after writing `count` samples from position `n` on, starting
      at phase `p`: one sample per position, then one accumulator step. */
  function Refill(buf: seq<int16>, table: seq<int16>, p: Word, n: nat, count: nat): (r: seq<int16>)
    requires |buf| == BufLength && |table| == TableSize
    requires n + count <= BufLength
    ensures |r| == BufLength
    decreases count
  {
    if count == 0 then buf
    else Refill(buf[n := Sample(table, p, n)], table, Advance(p), n + 1, count - 1)
  }

  /** A refill touches only positions [n, n + count) and writes, at position
      m of that range, the sample for the phase m - n steps after `p`. */
  lemma {:induction false} RefillAt(buf: seq<int16>, table: seq<int16>, p: Word, n: nat, count: nat, m: nat)
    requires |buf| == BufLength && |table| == TableSize
    requires n + count <= BufLength && m < BufLength
    ensures n <= m < n + count ==> Refill(buf, table, p, n, count)[m] == Sample(table, PhaseAt(p, m - n), m)
    ensures !(n <= m < n + count) ==> Refill(buf, table, p, n, count)[m] == buf[m]
    decreases count
  {
    if count > 0 {
      var buf' := buf[n := Sample(table, p, n)];
      assert Refill(buf, table, p, n, count) == Refill(buf', table, Advance(p), n + 1, count - 1);
      RefillAt(buf', table, Advance(p), n + 1, count - 1, m);
      if n + 1 <= m < n + count {
        PhaseAfterAdvance(p, m - (n + 1));
      } else if m == n {
        PhaseAtZero(p);
      }
    }
  }

  /** Refilling half `pos` (0 or BufSize) from phase `p` writes, for every
      stereo frame f of the half, the cosine sample of phase step 2f on the
      left and the sine sample of phase step 2f + 1 on the right. */
  lemma RefillFrames(buf: seq<int16>, table: seq<int16>, p: Word, pos: nat, f: nat)
    requires |buf| == BufLength && |table| == TableSize
    requires pos == 0 || pos == BufSize
    requires f < BufSize / 2
    ensures Refill(buf, table, p, pos, BufSize)[pos + 2 * f] == table[CosineIndex(PhaseAt(p, 2 * f))]
    ensures Refill(buf, table, p, pos, BufSize)[pos + 2 * f + 1] == table[SineIndex(PhaseAt(p, 2 * f + 1))]
  {
    var left, right := pos + 2 * f, pos + 2 * f + 1;
    RefillAt(buf, table, p, pos, BufSize, left);
    RefillAt(buf, table, p, pos, BufSize, right);
    FrameParity(pos, f);
  }

  /** From an even base, position base + 2f is left and base + 2f + 1 is right. */
  lemma FrameParity(base: nat, f: nat)
    requires base % 2 == 0
    ensures !IsRight(base + 2 * f) && IsRight(base + 2 * f + 1)
  {
  }

  /** Independent reference: the first `len` samples of the endless DDS output,
      sample t taken at phase step t and placed on channel t mod 2. */
  function Stream(table: seq<int16>, p: Word, len: nat): seq<int16>
    requires |table| == TableSize
  {
    seq(len, t requires 0 <= t => Sample(table, PhaseAt(p, t), t))
  }

  /** Continuity across the half boundary: refilling the first half from
      phase p and then the second half from where the first left the
      accumulator lays down exactly 64 consecutive samples of the output,
      with no sample skipped or repeated at the seam. */
  lemma HalvesAreContiguous(buf: seq<int16>, table: seq<int16>, p: Word)
    requires |buf| == BufLength && |table| == TableSize
    ensures Refill(Refill(buf, table, p, 0, BufSize), table, PhaseAt(p, BufSize), BufSize, BufSize)
         == Stream(table, p, BufLength)
  {
    var first := Refill(buf, table, p, 0, BufSize);
    var both := Refill(first, table, PhaseAt(p, BufSize), BufSize, BufSize);
    var s := Stream(table, p, BufLength);
    forall m | 0 <= m < BufLength
      ensures both[m] == s[m]
    {
      RefillAt(first, table, PhaseAt(p, BufSize), BufSize, BufSize, m);
      if m < BufSize {
        RefillAt(buf, table, p, 0, BufSize, m);
      } else {
        PhaseAtAdd(p, BufSize, m - BufSize);
      }
    }
  }
}
