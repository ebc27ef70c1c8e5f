/** DMA containment: whatever the device answers, every single step of start,
    stop and reset keeps each enabled engine on its own allocated pages. */
module TransportSafety {
  import opened Common
  import opened Bits
  import opened Machine
  import opened TransportSpec

  /** The driver holds the BAR and its 64 pages, at the addresses it recorded. */
  ghost predicate Owned(s: Hardware, dma: seq<Address>) {
    && PageTable(dma)
    && {Memory, PciEnabled, Region, Bar} <= s.held
    && (forall slot | 0 <= slot < PAGE_SLOTS :: slot in s.pages && s.pages[slot] == dma[slot])
    && forall slot | slot in s.pages :: slot < PAGE_SLOTS
  }

  ghost predicate Stopped(s: Hardware, dma: seq<Address>) {
    Owned(s, dma) && !s.master && Cold(s)
  }

  ghost predicate Running(s: Hardware, dma: seq<Address>) {
    Owned(s, dma) && s.master && Shadow(s, DMA_CONTROL) == DMA_ALL_DSPS && AllHold(s, DSP_COUNT)
  }

  /** The rings of the first `n` DSPs are fully published. */
  ghost predicate AllHold(s: Hardware, n: nat) {
    forall dsp, ring, page | 0 <= dsp < n && 0 <= ring < RING_COUNT && 0 <= page < RING_PAGES ::
      Holds(s, dsp, ring, page)
  }

  /** Only register values may differ, and DMA control is one that does not. */
  ghost predicate SameBut(s: Hardware, t: Hardware) {
    && t == s.(regs := t.regs)
    && Shadow(t, DMA_CONTROL) == Shadow(s, DMA_CONTROL)
  }

  ghost predicate NoneLive(s: Hardware) {
    forall dsp | 0 <= dsp < DSP_COUNT :: !Enabled(Shadow(s, DMA_CONTROL), dsp)
  }

  lemma ColdMeansNoneLive(s: Hardware)
    requires Shadow(s, DMA_CONTROL) in {DMA_COLD_RESET, DMA_RESET_GLOBAL, DMA_GLOBAL_ONLY}
    ensures NoneLive(s)
  {
    forall dsp | 0 <= dsp < DSP_COUNT
      ensures !Enabled(Shadow(s, DMA_CONTROL), dsp)
    {
      EngineBits(dsp);
    }
  }

  lemma ColdIsContained(s: Hardware)
    requires Cold(s)
    ensures Contained(s)
  {
    ColdMeansNoneLive(s);
  }

  lemma ObserveKeeps(dev: Device, h: History, offset: nat)
    ensures var g := Observe(dev, h, offset);
            && State(g) == State(h) && Writes(g) == Writes(h)
            && (Safe(h) && Contained(State(h)) && Bar in State(h).held ==> Safe(g))
  {}

  /** Reading changes nothing and needs only the mapped BAR. */
  lemma {:induction false} PollKeeps(dev: Device, h: History, check: Check, n: nat)
    ensures var g := Poll(dev, h, check, n).1;
            && State(g) == State(h) && Writes(g) == Writes(h)
            && (Safe(h) && Contained(State(h)) && Bar in State(h).held ==> Safe(g))
  {
    if n > 0 {
      PollKeeps(dev, h, check, n - 1);
      var (ok, g) := Poll(dev, h, check, n - 1);
      if ok {
        match check
        case RingWords => ObserveKeeps(dev, g, RingBase((n - 1) / 32, ((n - 1) / 16) % 2) + ((n - 1) % 16) * 4);
        case ReadyWords => ObserveKeeps(dev, g, ReadyOffset(n - 1));
        case Descriptors(dma) =>
          var offset := PageRegister((n - 1) / 8, ((n - 1) / 4) % 2, (n - 1) % 4);
          ObserveKeeps(dev, g, offset);
          ObserveKeeps(dev, Observe(dev, g, offset), offset + 4);
        case Rings(indexes, pages) =>
          var ring, field := (n - 1) / 6, (n - 1) % 6;
          var base := RingBase(ring / 2, ring % 2);
          ObserveKeeps(dev, g, if field < 2 then base + 0x20 + field * 4 else base + (field - 2) * 8);
          if field >= 2 {
            ObserveKeeps(dev, Observe(dev, g, base + (field - 2) * 8), base + (field - 2) * 8 + 4);
          }
      }
    }
  }

  lemma ColdCheckKeeps(dev: Device, h: History)
    ensures var g := ColdCheck(dev, h).1;
            && State(g) == State(h) && Writes(g) == Writes(h)
            && (Safe(h) && Contained(State(h)) && Bar in State(h).held ==> Safe(g))
  {
    ObserveKeeps(dev, h, DMA_CONTROL);
    var h1 := Observe(dev, h, DMA_CONTROL);
    ObserveKeeps(dev, h1, INTERRUPT_ENABLE);
    var h2 := Observe(dev, h1, INTERRUPT_ENABLE);
    ObserveKeeps(dev, h2, FPGA_REVISION);
    var h3 := Observe(dev, h2, FPGA_REVISION);
    ObserveKeeps(dev, h3, EXTENDED_CAPABILITIES);
    var h4 := Observe(dev, h3, EXTENDED_CAPABILITIES);
    PollKeeps(dev, h4, RingWords, CHECKED_WORDS);
    PollKeeps(dev, Poll(dev, h4, RingWords, CHECKED_WORDS).1, ReadyWords, DSP_COUNT);
  }

  /** A write outside every live ring keeps containment. */
  lemma HarmlessWrite(h: History, offset: nat, value: Word)
    requires Safe(h) && Bar in State(h).held && Contained(State(h))
    requires offset != DMA_CONTROL
    requires forall dsp, ring, page |
               0 <= dsp < DSP_COUNT && Live(State(h), dsp) && 0 <= ring < RING_COUNT && 0 <= page < RING_PAGES ::
               offset != PageRegister(dsp, ring, page) && offset != PageRegister(dsp, ring, page) + 4
    ensures var g := Then(h, Write(offset, value));
            && Safe(g) && Contained(State(g)) && SameBut(State(h), State(g))
            && State(g).regs == State(h).regs[offset := value]
  {
    var s, t := State(h), State(Then(h, Write(offset, value)));
    forall dsp, ring, page |
      0 <= dsp < DSP_COUNT && Live(t, dsp) && 0 <= ring < RING_COUNT && 0 <= page < RING_PAGES
      ensures Holds(t, dsp, ring, page)
    {
      assert Live(s, dsp) && Holds(s, dsp, ring, page);
    }
  }

  /** A write inside a ring whose engine is off keeps containment. */
  lemma DeadRingWrite(h: History, dsp: nat, ring: nat, at: nat, value: Word)
    requires Safe(h) && Bar in State(h).held && Contained(State(h))
    requires dsp < DSP_COUNT && ring < RING_COUNT && at < 0x40 && !Live(State(h), dsp)
    ensures var g := Then(h, Write(RingBase(dsp, ring) + at, value));
            && Safe(g) && Contained(State(g)) && SameBut(State(h), State(g))
            && State(g).regs == State(h).regs[RingBase(dsp, ring) + at := value]
  {
    forall dsp', ring', page |
      0 <= dsp' < DSP_COUNT && Live(State(h), dsp') && 0 <= ring' < RING_COUNT && 0 <= page < RING_PAGES
      ensures RingBase(dsp, ring) + at != PageRegister(dsp', ring', page)
      ensures RingBase(dsp, ring) + at != PageRegister(dsp', ring', page) + 4
    {
      RingsDoNotAlias(dsp, ring, at, dsp', ring', page * 8);
      RingsDoNotAlias(dsp, ring, at, dsp', ring', page * 8 + 4);
    }
    RingsDoNotAlias(dsp, ring, at, dsp, ring, at);
    HarmlessWrite(h, RingBase(dsp, ring) + at, value);
  }

  lemma ControlWrite(h: History, offset: nat, value: Word)
    requires Safe(h) && Bar in State(h).held && Contained(State(h))
    requires offset in {NOTIFICATION_CONTROL, INTERRUPT_ENABLE, INTERRUPT_ACK}
    ensures var g := Then(h, Write(offset, value));
            && Safe(g) && Contained(State(g)) && SameBut(State(h), State(g))
            && State(g).regs == State(h).regs[offset := value]
  {
    forall dsp, ring, page |
      0 <= dsp < DSP_COUNT && Live(State(h), dsp) && 0 <= ring < RING_COUNT && 0 <= page < RING_PAGES
      ensures offset != PageRegister(dsp, ring, page) && offset != PageRegister(dsp, ring, page) + 4
    {
      RingsDoNotAlias(dsp, ring, page * 8, dsp, ring, page * 8);
      RingsDoNotAlias(dsp, ring, page * 8 + 4, dsp, ring, page * 8 + 4);
    }
    HarmlessWrite(h, offset, value);
  }

  /** DMA control may be written when every engine it enables is published. */
  lemma EnablingWrite(h: History, value: Word)
    requires Safe(h) && Bar in State(h).held
    requires forall dsp, ring, page | 0 <= dsp < DSP_COUNT && 0 <= ring < RING_COUNT && 0 <= page < RING_PAGES ::
               Bit(value, dsp + 1) ==> Holds(State(h), dsp, ring, page)
    ensures var g := Then(h, Write(DMA_CONTROL, value));
            Safe(g) && Contained(State(g)) && State(g) == State(h).(regs := State(h).regs[DMA_CONTROL := value])
  {
    var s, t := State(h), State(Then(h, Write(DMA_CONTROL, value)));
    forall dsp, ring, page |
      0 <= dsp < DSP_COUNT && Live(t, dsp) && 0 <= ring < RING_COUNT && 0 <= page < RING_PAGES
      ensures Holds(t, dsp, ring, page)
    {
      assert Holds(s, dsp, ring, page);
      KeepsHold(s, t, dsp, ring, page);
    }
  }

  /** A control-register write never disturbs a published descriptor. */
  lemma KeepsHold(s: Hardware, t: Hardware, dsp: nat, ring: nat, page: nat)
    requires dsp < DSP_COUNT && ring < RING_COUNT && page < RING_PAGES
    requires t.pages == s.pages
    requires DMA_CONTROL in t.regs && t.regs == s.regs[DMA_CONTROL := t.regs[DMA_CONTROL]]
    ensures Holds(t, dsp, ring, page) == Holds(s, dsp, ring, page)
  {
    RingsDoNotAlias(dsp, ring, page * 8, dsp, ring, page * 8);
    RingsDoNotAlias(dsp, ring, page * 8 + 4, dsp, ring, page * 8 + 4);
  }

  lemma DisablingWrite(h: History, value: Word)
    requires Safe(h) && Bar in State(h).held
    requires value in {DMA_COLD_RESET, DMA_RESET_GLOBAL, DMA_GLOBAL_ONLY}
    ensures var g := Then(h, Write(DMA_CONTROL, value));
            Safe(g) && Contained(State(g)) && NoneLive(State(g)) &&
            State(g) == State(h).(regs := State(h).regs[DMA_CONTROL := value])
  {
    forall dsp, ring, page | 0 <= dsp < DSP_COUNT && 0 <= ring < RING_COUNT && 0 <= page < RING_PAGES
      ensures Bit(value, dsp + 1) ==> Holds(State(h), dsp, ring, page)
    {
      EngineBits(dsp);
    }
    EnablingWrite(h, value);
    ColdMeansNoneLive(State(Then(h, Write(DMA_CONTROL, value))));
  }

  lemma {:induction false} ClearKeeps(h: History, n: nat)
    requires Safe(h) && Contained(State(h)) && Bar in State(h).held && NoneLive(State(h)) && n <= CLEARED_WORDS
    ensures var g := Clear(h, n);
            Safe(g) && Contained(State(g)) && SameBut(State(h), State(g)) && NoneLive(State(g))
  {
    if n > 0 {
      ClearKeeps(h, n - 1);
      DeadRingWrite(Clear(h, n - 1), (n - 1) / 20, ((n - 1) / 10) % 2, ((n - 1) % 10) * 4, 0);
    }
  }

  /** Outside one ring nothing moved. */
  ghost predicate OnlyRing(s: Hardware, t: Hardware, dsp: nat, ring: nat) {
    && SameBut(s, t)
    && forall offset: nat | !(RingBase(dsp, ring) <= offset < RingBase(dsp, ring) + 0x28) ::
         (offset in t.regs <==> offset in s.regs) && (offset in s.regs ==> t.regs[offset] == s.regs[offset])
  }

  /** A descriptor survives anything that leaves its two registers and its page alone. */
  lemma HoldsUntouched(s: Hardware, t: Hardware, dsp: nat, ring: nat, page: nat)
    requires Holds(s, dsp, ring, page) && t.pages == s.pages
    requires forall offset | offset == PageRegister(dsp, ring, page) || offset == PageRegister(dsp, ring, page) + 4 ::
               offset in t.regs && t.regs[offset] == s.regs[offset]
    ensures Holds(t, dsp, ring, page)
  {}

  /** Writing one descriptor pair of a dead ring. */
  lemma DescriptorWrite(h: History, dsp: nat, ring: nat, page: nat, a: Address)
    requires Safe(h) && Bar in State(h).held && Contained(State(h))
    requires dsp < DSP_COUNT && ring < RING_COUNT && page < RING_PAGES && !Live(State(h), dsp)
    requires Slot(dsp, ring, page) in State(h).pages && State(h).pages[Slot(dsp, ring, page)] == a
    ensures var o := PageRegister(dsp, ring, page);
            var g := Then(Then(h, Write(o, Low32(a))), Write(o + 4, High32(a)));
            && Safe(g) && Contained(State(g)) && SameBut(State(h), State(g))
            && State(g).regs == State(h).regs[o := Low32(a)][o + 4 := High32(a)]
            && Holds(State(g), dsp, ring, page) && OnlyRing(State(h), State(g), dsp, ring)
  {
    hide Safe, Legal, Contained, State, Low32, High32, RingBase;
    DeadRingWrite(h, dsp, ring, page * 8, Low32(a));
    DeadRingWrite(Then(h, Write(PageRegister(dsp, ring, page), Low32(a))), dsp, ring, page * 8 + 4, High32(a));
  }

  /** The first `n` descriptors of one ring are published. */
  ghost predicate RingHolds(s: Hardware, dsp: nat, ring: nat, n: nat) {
    forall page | 0 <= page < n :: Holds(s, dsp, ring, page)
  }

  lemma OneMoreDescriptor(s: Hardware, t: Hardware, dsp: nat, ring: nat, n: nat, low: Word, high: Word)
    requires RingHolds(s, dsp, ring, n) && t.pages == s.pages
    requires var o := PageRegister(dsp, ring, n); t.regs == s.regs[o := low][o + 4 := high]
    requires Holds(t, dsp, ring, n)
    ensures RingHolds(t, dsp, ring, n + 1)
  {
    forall page | 0 <= page < n + 1
      ensures Holds(t, dsp, ring, page)
    {
      if page < n {
        assert Holds(s, dsp, ring, page);
        HoldsUntouched(s, t, dsp, ring, page);
      }
    }
  }

  lemma {:induction false} PublishKeeps(h: History, dma: seq<Address>, dsp: nat, ring: nat, n: nat)
    requires Safe(h) && Contained(State(h)) && Owned(State(h), dma)
    requires dsp < DSP_COUNT && ring < RING_COUNT && n <= RING_PAGES && !Live(State(h), dsp)
    ensures var g := Publish(h, dma, dsp, ring, n);
            && Safe(g) && Contained(State(g)) && OnlyRing(State(h), State(g), dsp, ring)
            && RingHolds(State(g), dsp, ring, n)
  {
    hide Contained, Safe, Legal, Holds, Bit, State, Low32, High32, RingBase;
    if n > 0 {
      PublishKeeps(h, dma, dsp, ring, n - 1);
      var g := Publish(h, dma, dsp, ring, n - 1);
      var a := dma[Slot(dsp, ring, n - 1)];
      assert Owned(State(g), dma);
      DescriptorWrite(g, dsp, ring, n - 1, a);
      var s, t := State(g), State(Publish(h, dma, dsp, ring, n));
      OnlyRingTwice(State(h), s, t, dsp, ring);
      OneMoreDescriptor(s, t, dsp, ring, n - 1, Low32(a), High32(a));
    }
  }

  lemma SeedIndexKeeps(dev: Device, h: History, dsp: nat, ring: nat)
    requires Safe(h) && Contained(State(h)) && Bar in State(h).held
    requires dsp < DSP_COUNT && ring < RING_COUNT && !Live(State(h), dsp)
    ensures var g := SeedIndex(dev, h, dsp, ring);
            Safe(g) && Contained(State(g)) && OnlyRing(State(h), State(g), dsp, ring)
  {
    hide Contained, Safe, Legal, Bit, State;
    var base := RingBase(dsp, ring);
    var index := BoundedIndex(dev(h, base + 0x28));
    ObserveKeeps(dev, h, base + 0x28);
    var h1 := Observe(dev, h, base + 0x28);
    DeadRingWrite(h1, dsp, ring, 0x24, index);
    DeadRingWrite(Then(h1, Write(base + 0x24, index)), dsp, ring, 0x20, index);
  }

  lemma OnlyRingTwice(s: Hardware, t: Hardware, u: Hardware, dsp: nat, ring: nat)
    requires OnlyRing(s, t, dsp, ring) && OnlyRing(t, u, dsp, ring)
    ensures OnlyRing(s, u, dsp, ring)
  {}

  lemma InitRingKeeps(dev: Device, h: History, dma: seq<Address>, dsp: nat, ring: nat)
    requires Safe(h) && Contained(State(h)) && Owned(State(h), dma)
    requires dsp < DSP_COUNT && ring < RING_COUNT && !Live(State(h), dsp)
    ensures var g := InitRing(dev, h, dma, dsp, ring);
            && Safe(g) && Contained(State(g)) && OnlyRing(State(h), State(g), dsp, ring)
            && RingHolds(State(g), dsp, ring, RING_PAGES)
  {
    SeedIndexKeeps(dev, h, dsp, ring);
    var g := SeedIndex(dev, h, dsp, ring);
    PublishKeeps(g, dma, dsp, ring, RING_PAGES);
    OnlyRingTwice(State(h), State(g), State(InitRing(dev, h, dma, dsp, ring)), dsp, ring);
  }

  lemma RingLeavesOthers(s: Hardware, t: Hardware, dsp: nat, ring: nat, dsp': nat, ring': nat, page: nat)
    requires OnlyRing(s, t, dsp, ring) && Holds(s, dsp', ring', page)
    requires dsp < DSP_COUNT && ring < RING_COUNT && dsp' < DSP_COUNT && ring' < RING_COUNT && page < RING_PAGES
    requires (dsp, ring) != (dsp', ring')
    ensures Holds(t, dsp', ring', page)
  {
    var o := PageRegister(dsp', ring', page);
    if RingBase(dsp, ring) <= o < RingBase(dsp, ring) + 0x28 {
      RingsDoNotAlias(dsp, ring, o - RingBase(dsp, ring), dsp', ring', page * 8);
    }
    if RingBase(dsp, ring) <= o + 4 < RingBase(dsp, ring) + 0x28 {
      RingsDoNotAlias(dsp, ring, o + 4 - RingBase(dsp, ring), dsp', ring', page * 8 + 4);
    }
  }

  lemma OneMoreDsp(s: Hardware, t: Hardware, u: Hardware, dsp: nat)
    requires dsp < DSP_COUNT && AllHold(s, dsp)
    requires OnlyRing(s, t, dsp, 0) && RingHolds(t, dsp, 0, RING_PAGES)
    requires OnlyRing(t, u, dsp, 1) && RingHolds(u, dsp, 1, RING_PAGES)
    ensures AllHold(u, dsp + 1)
  {
    forall d, ring, page | 0 <= d < dsp + 1 && 0 <= ring < RING_COUNT && 0 <= page < RING_PAGES
      ensures Holds(u, d, ring, page)
    {
      if d < dsp {
        RingLeavesOthers(s, t, dsp, 0, d, ring, page);
        RingLeavesOthers(t, u, dsp, 1, d, ring, page);
      } else if ring == 0 {
        RingLeavesOthers(t, u, dsp, 1, dsp, 0, page);
      } else {
        assert Holds(u, dsp, 1, page);
      }
    }
  }

  /** One more DSP, before its enable: both rings published, the earlier ones intact. */
  lemma BothRingsKeep(dev: Device, h: History, dma: seq<Address>, dsp: nat)
    requires Safe(h) && Contained(State(h)) && Owned(State(h), dma)
    requires dsp < DSP_COUNT && !Live(State(h), dsp) && AllHold(State(h), dsp)
    ensures var g := InitRing(dev, InitRing(dev, h, dma, dsp, 0), dma, dsp, 1);
            Safe(g) && Contained(State(g)) && SameBut(State(h), State(g)) && AllHold(State(g), dsp + 1)
  {
    InitRingKeeps(dev, h, dma, dsp, 0);
    var g0 := InitRing(dev, h, dma, dsp, 0);
    InitRingKeeps(dev, g0, dma, dsp, 1);
    OneMoreDsp(State(h), State(g0), State(InitRing(dev, g0, dma, dsp, 1)), dsp);
  }

  /** Enabling engines 0..n-1 once they are all published. */
  lemma EnableFirst(h: History, n: nat)
    requires Safe(h) && Bar in State(h).held && n <= DSP_COUNT && AllHold(State(h), n)
    requires Pow2(n + 1) - 1 < WORD_LIMIT
    ensures var g := Then(h, Write(DMA_CONTROL, Pow2(n + 1) - 1));
            && Safe(g) && Contained(State(g)) && AllHold(State(g), n)
            && State(g) == State(h).(regs := State(h).regs[DMA_CONTROL := Pow2(n + 1) - 1])
  {
    forall dsp, ring, page | 0 <= dsp < DSP_COUNT && 0 <= ring < RING_COUNT && 0 <= page < RING_PAGES
      ensures Bit(Pow2(n + 1) - 1, dsp + 1) ==> Holds(State(h), dsp, ring, page)
    {
      BitOnes(n + 1, dsp + 1);
    }
    EnablingWrite(h, Pow2(n + 1) - 1);
    var s, t := State(h), State(Then(h, Write(DMA_CONTROL, Pow2(n + 1) - 1)));
    forall dsp, ring, page | 0 <= dsp < n && 0 <= ring < RING_COUNT && 0 <= page < RING_PAGES
      ensures Holds(t, dsp, ring, page)
    {
      KeepsHold(s, t, dsp, ring, page);
    }
  }

  /** From `dsp` running engines to one more. */
  lemma OneMoreEngine(dev: Device, h: History, dma: seq<Address>, dsp: nat)
    requires Safe(h) && Contained(State(h)) && Owned(State(h), dma) && dsp < DSP_COUNT
    requires Shadow(State(h), DMA_CONTROL) == Pow2(dsp + 1) - 1 && AllHold(State(h), dsp)
    ensures Pow2(dsp + 2) - 1 < WORD_LIMIT
    ensures var g := Then(InitRing(dev, InitRing(dev, h, dma, dsp, 0), dma, dsp, 1),
                          Write(DMA_CONTROL, Pow2(dsp + 2) - 1));
            && Safe(g) && Contained(State(g)) && AllHold(State(g), dsp + 1)
            && State(g) == State(h).(regs := State(g).regs)
            && Shadow(State(g), DMA_CONTROL) == Pow2(dsp + 2) - 1
  {
    hide Contained, Safe, Legal, Holds, AllHold, InitRing, Bit, Pow2, State;
    BitOnes(dsp + 1, dsp + 1);
    BothRingsKeep(dev, h, dma, dsp);
    Pow2Monotone(dsp + 2, 9);
    SmallPow2();
    EnableFirst(InitRing(dev, InitRing(dev, h, dma, dsp, 0), dma, dsp, 1), dsp + 1);
  }

  lemma SmallPow2()
    ensures Pow2(1) == 2 && Pow2(9) == 512
  {}

  /** Bringing up the first `n` engines publishes exactly their rings first. */
  lemma {:induction false} InitDspsKeeps(dev: Device, h: History, dma: seq<Address>, n: nat)
    requires Safe(h) && Contained(State(h)) && Owned(State(h), dma) && n <= DSP_COUNT
    requires Shadow(State(h), DMA_CONTROL) == DMA_GLOBAL_ONLY
    ensures var g := InitDsps(dev, h, dma, n);
            && Safe(g) && Contained(State(g))
            && State(g) == State(h).(regs := State(g).regs)
            && Shadow(State(g), DMA_CONTROL) == Pow2(n + 1) - 1
            && AllHold(State(g), n)
  {
    hide Contained, Safe, Legal, Holds, InitRing, Bit, Pow2, State;
    if n == 0 {
      SmallPow2();
    } else {
      InitDspsKeeps(dev, h, dma, n - 1);
      OneMoreEngine(dev, InitDsps(dev, h, dma, n - 1), dma, n - 1);
    }
  }

  lemma PrologueKeeps(h: History, dma: seq<Address>)
    requires Safe(h) && Contained(State(h)) && Owned(State(h), dma)
    ensures var g := Prologue(h);
            && Safe(g) && Contained(State(g)) && Owned(State(g), dma)
            && State(g) == State(h).(regs := State(g).regs)
            && Shadow(State(g), DMA_CONTROL) == DMA_GLOBAL_ONLY
  {
    ControlWrite(h, NOTIFICATION_CONTROL, 0);
    var h1 := Then(h, Write(NOTIFICATION_CONTROL, 0));
    ControlWrite(h1, INTERRUPT_ENABLE, 0);
    var h2 := Then(h1, Write(INTERRUPT_ENABLE, 0));
    ControlWrite(h2, INTERRUPT_ACK, 0);
    var h3 := Then(h2, Write(INTERRUPT_ACK, 0));
    DisablingWrite(h3, DMA_RESET_GLOBAL);
    var h4 := Then(h3, Write(DMA_CONTROL, DMA_RESET_GLOBAL));
    DisablingWrite(h4, DMA_GLOBAL_ONLY);
    var h5 := Then(h4, Write(DMA_CONTROL, DMA_GLOBAL_ONLY));
    ControlWrite(h5, INTERRUPT_ACK, ALL_ONES);
  }

  lemma QuiesceHeadKeeps(h: History)
    requires Safe(h) && Contained(State(h)) && Bar in State(h).held
    ensures var g := QuiesceHead(h);
            && Safe(g) && Contained(State(g)) && NoneLive(State(g))
            && State(g) == State(h).(regs := State(g).regs)
            && Shadow(State(g), DMA_CONTROL) == DMA_GLOBAL_ONLY
  {
    ControlWrite(h, INTERRUPT_ENABLE, 0);
    var h1 := Then(h, Write(INTERRUPT_ENABLE, 0));
    ControlWrite(h1, INTERRUPT_ACK, ALL_ONES);
    var h2 := Then(h1, Write(INTERRUPT_ACK, ALL_ONES));
    DisablingWrite(h2, DMA_RESET_GLOBAL);
    DisablingWrite(Then(h2, Write(DMA_CONTROL, DMA_RESET_GLOBAL)), DMA_GLOBAL_ONLY);
  }

  lemma QuiesceWritesKeeps(h: History)
    requires Safe(h) && Contained(State(h)) && Bar in State(h).held
    ensures var g := QuiesceWrites(h);
            && Safe(g) && Contained(State(g)) && Cold(State(g))
            && State(g) == State(h).(regs := State(g).regs)
  {
    QuiesceHeadKeeps(h);
    var g := QuiesceHead(h);
    ClearKeeps(g, CLEARED_WORDS);
    DisablingWrite(Clear(g, CLEARED_WORDS), DMA_COLD_RESET);
  }

  lemma ClearMasterKeeps(h: History)
    requires Safe(h) && Contained(State(h)) && PciEnabled in State(h).held && Cold(State(h))
    ensures var g := Then(h, ClearMaster);
            Safe(g) && Contained(State(g)) && State(g) == State(h).(master := false)
  {
    var s, t := State(h), State(Then(h, ClearMaster));
    assert s.regs == t.regs;
    forall dsp, ring, page | 0 <= dsp < DSP_COUNT && Live(t, dsp) && 0 <= ring < RING_COUNT && 0 <= page < RING_PAGES
      ensures Holds(t, dsp, ring, page)
    {
      assert Live(s, dsp) && Holds(s, dsp, ring, page);
    }
  }

  /** Quiescing leaves DMA control cold and bus mastering off, from any state. */
  lemma QuiesceStops(dev: Device, h: History, dma: seq<Address>)
    requires Safe(h) && Contained(State(h)) && Owned(State(h), dma)
    ensures var g := Quiesce(dev, h);
            && Safe(g) && Contained(State(g)) && Stopped(State(g), dma)
            && State(g) == State(h).(regs := State(g).regs, master := false)
  {
    QuiesceWritesKeeps(h);
    var g := QuiesceWrites(h);
    ObserveKeeps(dev, g, DMA_CONTROL);
    ClearMasterKeeps(Observe(dev, g, DMA_CONTROL));
  }

  lemma ContainedSetMaster(s: Hardware)
    requires Contained(s)
    ensures Contained(s.(master := true))
  {
    var t := s.(master := true);
    forall dsp, ring, page | 0 <= dsp < DSP_COUNT && Live(t, dsp) && 0 <= ring < RING_COUNT && 0 <= page < RING_PAGES
      ensures Holds(t, dsp, ring, page)
    {
      assert Live(s, dsp) && Holds(s, dsp, ring, page);
    }
  }

  lemma LaunchRuns(dev: Device, h: History, dma: seq<Address>)
    requires Safe(h) && Contained(State(h)) && Stopped(State(h), dma)
    ensures var g := Launch(dev, h, dma);
            Safe(g) && Contained(State(g)) && Running(State(g), dma) &&
            State(g) == State(h).(regs := State(g).regs, master := true)
  {
    hide Holds, Bit, Prologue, Pow2, InitDsps;
    var h2 := Then(Then(h, ZeroPages), SetMaster);
    ContainedSetMaster(State(h));
    PrologueKeeps(h2, dma);
    InitDspsKeeps(dev, Prologue(h2), dma, DSP_COUNT);
    SmallPow2();
  }

  lemma VerdictKeeps(dev: Device, h: History, dma: seq<Address>)
    ensures var g := Verdict(dev, h, dma).1;
            && State(g) == State(h) && Writes(g) == Writes(h)
            && (Safe(h) && Contained(State(h)) && Bar in State(h).held ==> Safe(g))
  {
    var h1 := Observe(dev, h, DMA_CONTROL);
    PollKeeps(dev, h1, Descriptors(dma), PAGE_SLOTS);
    PollKeeps(dev, Poll(dev, h1, Descriptors(dma), PAGE_SLOTS).1, ReadyWords, DSP_COUNT);
  }

  /** Whatever the device answers, a start either runs with every engine on its
      own pages or leaves the transport stopped; it is safe at every step. */
  lemma StartIsSafe(dev: Device, h: History, dma: seq<Address>, started: bool)
    requires Safe(h) && Contained(State(h))
    requires if started then Running(State(h), dma) else Stopped(State(h), dma)
    ensures var r := Start(dev, h, dma, started);
            && Safe(r.history) && Contained(State(r.history))
            && (if r.started then Running(State(r.history), dma) else Stopped(State(r.history), dma))
            && (r.started <==> r.code == Done)
            && State(r.history).held == State(h).held && State(r.history).frees == State(h).frees
  {
    if !started {
      ColdCheckKeeps(dev, h);
      var (cold, h1) := ColdCheck(dev, h);
      if cold {
        LaunchRuns(dev, h1, dma);
        var g := Launch(dev, h1, dma);
        VerdictKeeps(dev, g, dma);
        QuiesceStops(dev, Verdict(dev, g, dma).1, dma);
      }
    }
  }

  /** A stop always ends cold and unmastered, even when it reports failure. */
  lemma StopIsSafe(dev: Device, h: History, dma: seq<Address>, started: bool)
    requires Safe(h) && Contained(State(h))
    requires if started then Running(State(h), dma) else Stopped(State(h), dma)
    ensures var r := Stop(dev, h, started);
            && Safe(r.history) && Contained(State(r.history))
            && !r.started && Stopped(State(r.history), dma)
            && State(r.history).held == State(h).held && State(r.history).frees == State(h).frees
  {
    if started {
      QuiesceStops(dev, h, dma);
      ColdCheckKeeps(dev, Quiesce(dev, h));
    }
  }

  /** The pulse and the pause of a reset leave the other seven engines alone. */
  lemma PulseBits(dsp: nat, k: nat)
    requires dsp < DSP_COUNT
    ensures Bit(Disabled(dsp), k) <==> k <= DSP_COUNT && k != dsp + 1
    ensures Bit(Pulse(dsp), k) <==> (k <= DSP_COUNT && k != dsp + 1) || k == dsp + 9
  {
    hide Bit, Pow2, Or, AndNot;
    BitAndNot(DMA_ALL_DSPS, EnableBit(dsp), k);
    BitPow2(dsp + 1, k);
    SmallPow2();
    BitOnes(9, k);
    BitOr(Disabled(dsp), ResetBit(dsp), k);
    BitPow2(dsp + 9, k);
  }

  lemma ResetIsSafe(dev: Device, h: History, dma: seq<Address>, started: bool, dsp: nat, flags: nat)
    requires Safe(h) && Contained(State(h))
    requires if started then Running(State(h), dma) else Stopped(State(h), dma)
    ensures var r := Reset(dev, h, started, dsp, flags);
            && Safe(r.history) && Contained(State(r.history))
            && (if started then Running(State(r.history), dma) else Stopped(State(r.history), dma))
            && State(r.history).held == State(h).held && State(r.history).frees == State(h).frees
  {
    if started && dsp < DSP_COUNT && flags == 0 {
      ObserveKeeps(dev, h, DMA_CONTROL);
      var h1 := Observe(dev, h, DMA_CONTROL);
      PulseKeeps(h1, dma, dsp);
      var h2 := Then(Then(Then(h1, Write(DMA_CONTROL, Pulse(dsp))), Write(DMA_CONTROL, Disabled(dsp))), Sleep);
      ObserveKeeps(dev, h2, ReadyOffset(dsp));
      var h3 := Observe(dev, h2, ReadyOffset(dsp));
      AllHoldAfterControl(h3, dma, DMA_ALL_DSPS);
      var h4 := Then(h3, Write(DMA_CONTROL, DMA_ALL_DSPS));
      ObserveKeeps(dev, h4, DMA_CONTROL);
      var h5 := Observe(dev, h4, DMA_CONTROL);
      ObserveKeeps(dev, h5, DMA_CONTROL);
      ObserveKeeps(dev, Observe(dev, h5, DMA_CONTROL), ReadyOffset(dsp));
    }
  }

  lemma PulseKeeps(h: History, dma: seq<Address>, dsp: nat)
    requires Safe(h) && Owned(State(h), dma) && AllHold(State(h), DSP_COUNT) && dsp < DSP_COUNT
    ensures var g := Then(Then(Then(h, Write(DMA_CONTROL, Pulse(dsp))), Write(DMA_CONTROL, Disabled(dsp))), Sleep);
            && Safe(g) && Contained(State(g)) && AllHold(State(g), DSP_COUNT)
            && State(g) == State(h).(regs := State(g).regs)
  {
    AllHoldAfterControl(h, dma, Pulse(dsp));
    AllHoldAfterControl(Then(h, Write(DMA_CONTROL, Pulse(dsp))), dma, Disabled(dsp));
  }

  /** With all rings published any DMA-control value is contained. */
  lemma AllHoldAfterControl(h: History, dma: seq<Address>, value: Word)
    requires Safe(h) && Owned(State(h), dma) && AllHold(State(h), DSP_COUNT)
    ensures var g := Then(h, Write(DMA_CONTROL, value));
            && Safe(g) && Contained(State(g)) && AllHold(State(g), DSP_COUNT) && Owned(State(g), dma)
            && State(g) == State(h).(regs := State(h).regs[DMA_CONTROL := value])
  {
    EnablingWrite(h, value);
    var g := Then(h, Write(DMA_CONTROL, value));
    forall dsp, ring, page | 0 <= dsp < DSP_COUNT && 0 <= ring < RING_COUNT && 0 <= page < RING_PAGES
      ensures Holds(State(g), dsp, ring, page)
    {
      KeepsHold(State(h), State(g), dsp, ring, page);
    }
  }
}
