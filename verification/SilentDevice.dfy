/** What a well-behaved device shows as long as nothing is written to it. */
module SilentDevice {
  import opened Common
  import opened Machine
  import opened TransportSpec
  import opened TransportSafety
  import opened TransportRefinement

  /** Nothing was written and the device was not reset. */
  predicate Silent(h: History) {
    h.Then? ==> Silent(h.past) && !h.event.Write? && !h.event.ResetDevice?
  }

  /** What a device shows while nothing is written is what it showed at first; the
      indexes need the engines to be cold besides. */
  lemma {:induction false} SilentView(dev: Device, h: History)
    requires Benign(dev) && Silent(h)
    ensures State(h).regs == map[]
    ensures forall offset: nat | Plain(offset) || Stable(offset) :: dev(h, offset) == dev(Boot, offset)
    ensures dev(Boot, DMA_CONTROL) == DMA_COLD_RESET ==>
              forall dsp, ring | 0 <= dsp < DSP_COUNT && 0 <= ring < RING_COUNT ::
                dev(h, Index(dsp, ring)) == dev(Boot, Index(dsp, ring))
  {
    if h.Then? {
      hide Index, Position, Plain, Stable, Enabled;
      var past, e := h.past, h.event;
      SilentView(dev, past);
      ControlIsPlain();
      if dev(Boot, DMA_CONTROL) == DMA_COLD_RESET {
        forall dsp, ring | 0 <= dsp < DSP_COUNT && 0 <= ring < RING_COUNT
          ensures dev(h, Index(dsp, ring)) == dev(Boot, Index(dsp, ring))
        {
          ColdDisables(dsp);
          assert !e.Write?;
        }
      }
    }
  }

  lemma ControlIsPlain()
    ensures Plain(DMA_CONTROL) && Plain(INTERRUPT_ENABLE)
    ensures Stable(FPGA_REVISION) && Stable(EXTENDED_CAPABILITIES)
  {}

  lemma ColdDisables(dsp: nat)
    requires dsp < DSP_COUNT
    ensures !Enabled(DMA_COLD_RESET, dsp)
  {
    EngineBits(dsp);
  }

  /** While nothing is written a device stays at rest, and was so from the start. */
  lemma SilentRest(dev: Device, h: History)
    requires Benign(dev) && Silent(h)
    ensures AtRest(dev, h) <==> AtRest(dev, Boot)
  {
    SilentView(dev, h);
    ControlIsPlain();
    hide Index, Plain, InRings;
    forall dsp | 0 <= dsp < DSP_COUNT
      ensures Stable(ReadyOffset(dsp))
    {}
    assert AtRest(dev, h) || AtRest(dev, Boot) ==> dev(Boot, DMA_CONTROL) == DMA_COLD_RESET;
  }

  lemma {:induction false} SilentPoll(dev: Device, h: History, check: Check, n: nat)
    requires Silent(h)
    ensures Silent(Poll(dev, h, check, n).1)
  {
    if n > 0 {
      SilentPoll(dev, h, check, n - 1);
    }
  }

  // ---------- what passed checks tell ----------

  lemma {:induction false} PollPassed(dev: Device, h: History, check: Check, n: nat, i: nat)
    requires i < n && Poll(dev, h, check, n).0
    ensures Poll(dev, h, check, i).0 && Inspect(dev, Poll(dev, h, check, i).1, check, i).0
  {
    if i < n - 1 {
      PollPassed(dev, h, check, n - 1, i);
    }
  }

  /** The ring word a checked position stands for. */
  lemma CheckedWord(offset: nat) returns (dsp: nat, ring: nat, word: nat)
    requires InRings(offset)
    ensures dsp < DSP_COUNT && ring < RING_COUNT && word < 16 && offset == RingBase(dsp, ring) + word * 4
  {
    var line := if offset < 0x2200 then (offset - 0x2000) / 0x40 else (offset - 0x6000) / 0x40 + 8;
    dsp, ring, word := line / 2, line % 2, (offset % 0x40) / 4;
  }

  /** A ring word as the device shows it at first. */
  function FirstWord(dev: Device, dsp: nat, ring: nat, word: nat): Word {
    dev(Boot, RingBase(dsp, ring) + word * 4)
  }

  lemma WordsPassed(dev: Device, h: History, dsp: nat, ring: nat, word: nat)
    requires Benign(dev) && Silent(h) && dev(Boot, DMA_CONTROL) == DMA_COLD_RESET
    requires Poll(dev, h, RingWords, CHECKED_WORDS).0
    requires dsp < DSP_COUNT && ring < RING_COUNT && word < 16
    ensures FirstWord(dev, dsp, ring, word) == 0
  {
    hide Benign, Plain, InRings, RingBase, Poll, Inspect;
    var i := dsp * 32 + ring * 16 + word;
    PollPassed(dev, h, RingWords, CHECKED_WORDS, i);
    SilentPoll(dev, h, RingWords, i);
    var g := Poll(dev, h, RingWords, i).1;
    RingWordTest(dev, g, dsp, ring, word);
    SilentView(dev, g);
    RingWordKind(dsp, ring, word);
    if word == 10 {
      assert Index(dsp, ring) == RingBase(dsp, ring) + word * 4;
    }
  }

  lemma ReadyPassed(dev: Device, h: History, dsp: nat)
    requires Benign(dev) && Silent(h) && Poll(dev, h, ReadyWords, DSP_COUNT).0 && dsp < DSP_COUNT
    ensures dev(Boot, ReadyOffset(dsp)) % 2 == 1
  {
    PollPassed(dev, h, ReadyWords, DSP_COUNT, dsp);
    SilentPoll(dev, h, ReadyWords, dsp);
    SilentView(dev, Poll(dev, h, ReadyWords, dsp).1);
    hide Benign, Poll, ReadyOffset;
    assert Stable(ReadyOffset(dsp));
  }

  lemma BootRest(dev: Device)
    requires dev(Boot, DMA_CONTROL) == DMA_COLD_RESET && dev(Boot, INTERRUPT_ENABLE) == 0
    requires dev(Boot, FPGA_REVISION) == EXPECTED_FPGA_REVISION
    requires dev(Boot, EXTENDED_CAPABILITIES) == EXPECTED_CAPABILITIES
    requires forall dsp | 0 <= dsp < DSP_COUNT :: dev(Boot, ReadyOffset(dsp)) % 2 == 1
    requires forall dsp, ring, word | 0 <= dsp < DSP_COUNT && 0 <= ring < RING_COUNT && 0 <= word < 16 ::
               FirstWord(dev, dsp, ring, word) == 0
    ensures AtRest(dev, Boot)
  {
    forall offset: nat | InRings(offset)
      ensures dev(Boot, offset) == 0
    {
      var dsp, ring, word := CheckedWord(offset);
      assert FirstWord(dev, dsp, ring, word) == 0;
    }
    hide RingBase;
    forall dsp, ring | 0 <= dsp < DSP_COUNT && 0 <= ring < RING_COUNT
      ensures dev(Boot, Index(dsp, ring)) == 0
    {
      assert FirstWord(dev, dsp, ring, 10) == 0;
    }
  }

  lemma PolledRest(dev: Device, h: History, g: History)
    requires Benign(dev) && Silent(h) && Silent(g)
    requires dev(Boot, DMA_CONTROL) == DMA_COLD_RESET && dev(Boot, INTERRUPT_ENABLE) == 0
    requires dev(Boot, FPGA_REVISION) == EXPECTED_FPGA_REVISION
    requires dev(Boot, EXTENDED_CAPABILITIES) == EXPECTED_CAPABILITIES
    requires Poll(dev, h, RingWords, CHECKED_WORDS).0 && Poll(dev, g, ReadyWords, DSP_COUNT).0
    ensures AtRest(dev, Boot)
  {
    hide Benign, Poll, Silent, AtRest;
    forall dsp, ring, word | 0 <= dsp < DSP_COUNT && 0 <= ring < RING_COUNT && 0 <= word < 16
      ensures FirstWord(dev, dsp, ring, word) == 0
    {
      WordsPassed(dev, h, dsp, ring, word);
    }
    forall dsp | 0 <= dsp < DSP_COUNT
      ensures dev(Boot, ReadyOffset(dsp)) % 2 == 1
    {
      ReadyPassed(dev, g, dsp);
    }
    BootRest(dev);
  }
}
