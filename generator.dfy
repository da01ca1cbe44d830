/** The stateful half of the quadrature generator: the phase accumulator
    that persists between refills (a function-local static in the C program),
    the 64-sample circular DMA buffer, the read-only sine wavetable and the
    two pending-interrupt flags of the DMA channel, with the half-buffer
    refill and the interrupt handler that drive them. */
module Generator {
  import opened Dds

  class QuadratureGenerator {
    /** The accumulator `phac`, zero at reset and never reset afterwards. */
    var phac: Word
    /** The wavetable `sinewt`, filled once at start-up and only read here. */
    const sinewt: array<int16>
    /** The circular buffer `dmabuf` the DMA channel streams to the DAC. */
    const dmabuf: array<int16>
    /** Half-transfer interrupt pending: the DMA has finished sending the first half. */
    var htPending: bool
    /** Transfer-complete interrupt pending: the DMA has finished sending the second half. */
    var tcPending: bool
    /** Scalar samples produced since reset. */
    ghost var emitted: nat

    /** Buffer and table have their fixed sizes and are distinct arrays, and
        the accumulator has advanced exactly once per sample produced. */
    ghost predicate Valid()
      reads this
    {
      dmabuf.Length == BufLength && sinewt.Length == TableSize &&
      dmabuf != sinewt &&
      phac == PhaseAt(0, emitted)
    }

    /** State at reset: a zeroed buffer, phase 0, no interrupt pending. */
    constructor (table: array<int16>)
      requires table.Length == TableSize
      ensures Valid() && fresh(dmabuf) && sinewt == table
      ensures dmabuf[..] == seq(BufLength, _ => 0)
      ensures phac == 0 && emitted == 0
      ensures !htPending && !tcPending
    {
      sinewt := table;
      dmabuf := new int16[BufLength](_ => 0);
      phac := 0;
      htPending, tcPending := false, false;
      emitted := 0;
    }

    /** `Populate(pos)`: writes the next BufSize samples of the tone into
        dmabuf[pos .. pos + BufSize), advancing the phase once per sample. */
    method Populate(pos: nat)
      requires Valid()
      requires pos + BufSize <= BufLength
      modifies this`phac, this`emitted, dmabuf
      ensures Valid()
      ensures dmabuf[..] == Refill(old(dmabuf[..]), sinewt[..], old(phac), pos, BufSize)
      ensures forall m :: pos <= m < pos + BufSize ==>
                dmabuf[m] == Sample(sinewt[..], PhaseAt(old(phac), m - pos), m)
      ensures forall m :: 0 <= m < BufLength && !(pos <= m < pos + BufSize) ==>
                dmabuf[m] == old(dmabuf[m])
      ensures phac == PhaseAt(old(phac), BufSize)
      ensures emitted == old(emitted) + BufSize
      ensures sinewt[..] == old(sinewt[..])
    {
      ghost var buf0, p0 := dmabuf[..], phac;
      ghost var table := sinewt[..];
      var n := pos;
      while n < pos + BufSize
        invariant pos <= n <= pos + BufSize
        invariant sinewt[..] == table && emitted == old(emitted)
        invariant phac == PhaseAt(p0, n - pos)
        invariant Refill(dmabuf[..], table, phac, n, pos + BufSize - n) == Refill(buf0, table, p0, pos, BufSize)
      {
        var sinph := SineIndex(phac);
        var cosph := CosineIndex(phac);
        var sample: int16;
        if IsRight(n) {
          sample := sinewt[sinph];
        } else {
          sample := sinewt[cosph];
        }
        assert sample == Sample(table, phac, n);
        ghost var before := dmabuf[..];
        dmabuf[n] := sample;
        assert dmabuf[..] == before[n := sample];
        AdvancePhaseAt(p0, n - pos);
        phac := Advance(phac);
        n := n + 1;
      }
      forall m | 0 <= m < BufLength
        ensures dmabuf[m] == (if pos <= m < pos + BufSize
                              then Sample(table, PhaseAt(p0, m - pos), m) else buf0[m])
      {
        RefillAt(buf0, table, p0, pos, BufSize, m);
      }
      PhaseAtAdd(0, emitted, BufSize);
      emitted := emitted + BufSize;
    }

    /** `DMA1_Channel2_3_IRQHandler`: a pending half-transfer is acknowledged
        and the first half, just sent, is refilled; otherwise a pending
        transfer-complete is acknowledged and the second half is refilled;
        with neither pending nothing happens. */
    method HandleDmaInterrupt()
      requires Valid()
      modifies this, dmabuf
      ensures Valid()
      ensures old(htPending) ==>
                !htPending && tcPending == old(tcPending) &&
                dmabuf[..] == Refill(old(dmabuf[..]), sinewt[..], old(phac), 0, BufSize) &&
                phac == PhaseAt(old(phac), BufSize) && emitted == old(emitted) + BufSize
      ensures !old(htPending) && old(tcPending) ==>
                !htPending && !tcPending &&
                dmabuf[..] == Refill(old(dmabuf[..]), sinewt[..], old(phac), BufSize, BufSize) &&
                phac == PhaseAt(old(phac), BufSize) && emitted == old(emitted) + BufSize
      ensures !old(htPending) && !old(tcPending) ==>
                !htPending && !tcPending &&
                dmabuf[..] == old(dmabuf[..]) && phac == old(phac) && emitted == old(emitted)
      ensures sinewt[..] == old(sinewt[..])
    {
      if htPending {
        htPending := false;
        Populate(0);
      } else if tcPending {
        tcPending := false;
        Populate(BufSize);
      }
    }
  }

  /** One DMA cycle as the program sees it once streaming: the half-transfer
      interrupt, then the transfer-complete interrupt, each handled to
      completion. Afterwards the buffer holds the next 64 consecutive samples
      of the tone, in the order the DMA will send them, and the phase has
      moved on by exactly 64 steps. */
  method OneDmaCycle(g: QuadratureGenerator)
    requires g.Valid()
    modifies g, g.dmabuf
    ensures g.Valid()
    ensures g.dmabuf[..] == Stream(g.sinewt[..], old(g.phac), BufLength)
    ensures g.phac == PhaseAt(old(g.phac), BufLength)
    ensures !g.htPending && !g.tcPending
  {
    ghost var p0 := g.phac;
    g.htPending, g.tcPending := true, false;
    g.HandleDmaInterrupt();
    g.tcPending := true;
    g.HandleDmaInterrupt();
    HalvesAreContiguous(old(g.dmabuf[..]), g.sinewt[..], p0);
    PhaseAtAdd(p0, BufSize, BufSize);
  }
}
