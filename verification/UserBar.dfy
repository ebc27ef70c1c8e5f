/** The device as a user-space program reaches it: a mapped BAR, with the loops of
    register accesses the programs share. */
module UserBar {
  import opened Common
  import opened Machine
  import opened TransportSpec
  import opened UserSpec

  class MappedBar {
    const device: Device
    var history: History

    constructor (device: Device)
      ensures this.device == device && history == Boot
    {
      this.device := device;
      history := Boot;
    }

    method Read32(offset: nat) returns (value: Word)
      modifies `history
      ensures value == device(old(history), offset) && history == Observe(device, old(history), offset)
    {
      value := device(history, offset);
      history := Then(history, Read(offset, value));
    }

    method Write32(offset: nat, value: Word)
      modifies `history
      ensures history == Then(old(history), Write(offset, value))
    {
      history := Then(history, Write(offset, value));
    }

    method InitializeRing(base: nat, first: Address, index: Word)
      requires first + RING_PAGES * PAGE_BYTES <= ADDRESS_LIMIT
      modifies `history
      ensures history == PublishFrom(Then(Then(old(history), Write(base + 0x24, index)), Write(base + 0x20, index)),
                                     base, first, RING_PAGES)
    {
      hide Low32, High32;
      Write32(base + 0x24, index);
      Write32(base + 0x20, index);
      ghost var seeded := history;
      var page := 0;
      while page < RING_PAGES
        invariant page <= RING_PAGES
        invariant history == PublishFrom(seeded, base, first, page)
      {
        var iova := first + page * PAGE_BYTES;
        Write32(base + page * 8, Low32(iova));
        Write32(base + page * 8 + 4, High32(iova));
        page := page + 1;
      }
    }

    method AllDspsReady() returns (ready: bool)
      modifies `history
      ensures (ready, history) == Poll(device, old(history), ReadyWords, DSP_COUNT)
    {
      ghost var h := history;
      var dsp := 0;
      while dsp < DSP_COUNT
        invariant dsp <= DSP_COUNT
        invariant Poll(device, h, ReadyWords, dsp) == (true, history)
      {
        var word := Read32(ReadyOffset(dsp));
        if word % 2 == 0 {
          PollStopsAtFailure(device, h, ReadyWords, dsp + 1, DSP_COUNT);
          return false;
        }
        dsp := dsp + 1;
      }
      return true;
    }

    method ClearAllRings()
      modifies `history
      ensures history == Clear(old(history), CLEARED_WORDS)
    {
      hide RingBase;
      ghost var h := history;
      var dsp := 0;
      while dsp < DSP_COUNT
        invariant dsp <= DSP_COUNT
        invariant history == Clear(h, dsp * 20)
      {
        var ring := 0;
        while ring < RING_COUNT
          invariant ring <= RING_COUNT
          invariant history == Clear(h, dsp * 20 + ring * 10)
        {
          var base := RingBase(dsp, ring);
          var field := 0;
          while field < 10
            invariant field <= 10
            invariant history == Clear(h, dsp * 20 + ring * 10 + field)
          {
            ClearedWord(dsp, ring, field);
            Write32(base + field * 4, 0);
            field := field + 1;
          }
          ring := ring + 1;
        }
        dsp := dsp + 1;
      }
    }

    method AllRingWordsZero() returns (zero: bool)
      modifies `history
      ensures (zero, history) == Poll(device, old(history), RingWords, CHECKED_WORDS)
    {
      hide RingBase, Inspect;
      ghost var h := history;
      var dsp := 0;
      while dsp < DSP_COUNT
        invariant dsp <= DSP_COUNT
        invariant Poll(device, h, RingWords, dsp * 32) == (true, history)
      {
        var ring := 0;
        while ring < RING_COUNT
          invariant ring <= RING_COUNT
          invariant Poll(device, h, RingWords, dsp * 32 + ring * 16) == (true, history)
        {
          var base := RingBase(dsp, ring);
          var field := 0;
          while field < 16
            invariant field <= 16
            invariant Poll(device, h, RingWords, dsp * 32 + ring * 16 + field) == (true, history)
          {
            RingWordTest(device, history, dsp, ring, field);
            var value := Read32(base + field * 4);
            if value != 0 {
              PollStopsAtFailure(device, h, RingWords, dsp * 32 + ring * 16 + field + 1, CHECKED_WORDS);
              return false;
            }
            field := field + 1;
          }
          ring := ring + 1;
        }
        dsp := dsp + 1;
      }
      return true;
    }

    /** Brings the engines down and looks whether the rings are restored. */
    method Restore() returns (restored: bool)
      modifies `history
      ensures (restored, history) == Restored(device, old(history))
    {
      hide Clear, Poll;
      Write32(INTERRUPT_ENABLE, 0);
      Write32(INTERRUPT_ACK, ALL_ONES);
      Write32(DMA_CONTROL, DMA_RESET_GLOBAL);
      Write32(DMA_CONTROL, DMA_GLOBAL_ONLY);
      ClearAllRings();
      Write32(DMA_CONTROL, DMA_COLD_RESET);
      restored := AllRingWordsZero();
      if restored {
        var word := Read32(DMA_CONTROL);
        restored := word == DMA_COLD_RESET;
      }
    }

    /** The check behind a device reset. */
    method Recover() returns (ok: bool)
      modifies `history
      ensures (ok, history) == Recovering(device, old(history))
    {
      ok := AllRingWordsZero();
      if !ok { return; }
      var control := Read32(DMA_CONTROL);
      if control != DMA_COLD_RESET { return false; }
      ok := AllDspsReady();
    }

    /** Maps the window, opens the device and maps its BAR, as far as that goes. */
    method Open(env: Environment) returns (mapped: bool, open: bool, bar: bool)
      modifies `history
      ensures Opened(mapped, open, bar, history) == Opening(env, old(history))
    {
      mapped, open, bar := false, false, false;
      if !env.succeeds(history, MapDma) { return; }
      history := Then(history, MapWindow(WindowPages()));
      mapped := true;
      if !env.succeeds(history, OpenDevice) { return; }
      history := Then(history, Acquire(PciEnabled));
      history := Then(history, Acquire(Region));
      open := true;
      if !env.succeeds(history, ValidateDevice) || !env.succeeds(history, Call.MapBar) { return; }
      history := Then(history, Acquire(Bar));
      bar := true;
    }

    /** Everything behind the cleanup label. */
    method CleanUp(env: Environment, mapped: bool, open: bool, bar: bool, startup: bool)
      returns (restored: bool, resetRecovered: bool, unmapped: bool)
      requires env.device == device
      modifies `history
      ensures Cleaned(restored, resetRecovered, unmapped, history)
              == CleaningUp(env, Opened(mapped, open, bar, old(history)), startup)
    {
      hide Restored, Recovering;
      restored, resetRecovered, unmapped := false, false, false;
      if startup {
        restored := Restore();
      }
      if open && bar && env.succeeds(history, VfioReset) {
        history := Then(history, ResetDevice);
        resetRecovered := Recover();
      }
      if bar {
        history := Then(history, Release(Bar));
      }
      if open {
        history := Then(history, Release(Region));
        history := Then(history, Release(PciEnabled));
      }
      if mapped && env.succeeds(history, UnmapDma) {
        history := Then(history, UnmapWindow);
        unmapped := true;
      }
    }
  }
}
