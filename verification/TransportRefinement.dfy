/** With a well-behaved device the driver is a two-state machine: every sequence
    of start, stop and reset calls returns what that machine returns. */
module TransportRefinement {
  import opened Common
  import opened Bits
  import opened Machine
  import opened TransportSpec
  import opened TransportSafety

  /** A 32-bit word of one of the sixteen rings. */
  predicate InRings(offset: nat) {
    (0x2000 <= offset < 0x2200 || 0x6000 <= offset < 0x6200) && offset % 4 == 0
  }

  /** The hardware index and the published position of one ring. */
  function Index(dsp: nat, ring: nat): nat {
    RingBase(dsp, ring) + 0x28
  }

  function Position(dsp: nat, ring: nat): nat {
    RingBase(dsp, ring) + 0x24
  }

  predicate HardwareIndex(offset: nat) {
    InRings(offset) && offset % 0x40 == 0x28
  }

  predicate Plain(offset: nat) {
    offset == DMA_CONTROL || offset == INTERRUPT_ENABLE || (InRings(offset) && !HardwareIndex(offset))
  }

  predicate Stable(offset: nat) {
    || offset == FPGA_REVISION || offset == EXTENDED_CAPABILITIES
    || exists dsp | 0 <= dsp < DSP_COUNT :: offset == ReadyOffset(dsp)
  }

  /** Ordinary registers hold the last write. */
  ghost predicate HoldsWrites(dev: Device) {
    forall h: History, e: Event, offset: nat | Plain(offset) && !e.ResetDevice? ::
      dev(Then(h, e), offset) == if e.Write? && e.offset == offset then e.value else dev(h, offset)
  }

  /** The hardware index of a ring moves only while its engine is enabled and
      the index differs from the position the host published at +0x24, except that
      a reset of all of DMA may set it to zero. */
  ghost predicate IndexWaits(dev: Device) {
    forall h: History, e: Event, dsp, ring | 0 <= dsp < DSP_COUNT && 0 <= ring < RING_COUNT && !e.ResetDevice? ::
      && !(e.Write? && e.offset == Index(dsp, ring))
      && (!Enabled(dev(h, DMA_CONTROL), dsp)
          || dev(h, Index(dsp, ring)) == dev(h, Position(dsp, ring)))
      ==> || dev(Then(h, e), Index(dsp, ring)) == dev(h, Index(dsp, ring))
          || (GlobalReset(e) && dev(Then(h, e), Index(dsp, ring)) == 0)
  }

  /** The write that resets all of DMA. */
  predicate GlobalReset(e: Event) {
    e == Write(DMA_CONTROL, DMA_RESET_GLOBAL)
  }

  /** Identity and ready words never change. */
  ghost predicate KeepsIdentity(dev: Device) {
    forall h: History, e: Event, offset: nat | Stable(offset) :: dev(Then(h, e), offset) == dev(h, offset)
  }

  ghost predicate Benign(dev: Device) {
    HoldsWrites(dev) && IndexWaits(dev) && KeepsIdentity(dev)
  }

  /** A device that simply stores what is written is benign, so the hypothesis
      of the refinement can be met. */
  ghost function Store(h: History, offset: nat): Word {
    match h
    case Boot =>
      if offset == FPGA_REVISION then EXPECTED_FPGA_REVISION
      else if offset == EXTENDED_CAPABILITIES then EXPECTED_CAPABILITIES
      else if offset == DMA_CONTROL then DMA_COLD_RESET
      else if Stable(offset) then 1
      else 0
    case Then(past, Write(o, value)) => if o == offset && !Stable(offset) then value else Store(past, offset)
    case Then(past, _) => Store(past, offset)
  }

  lemma StoreIsBenign()
    ensures Benign((h, offset) => Store(h, offset))
    ensures AtRest((h, offset) => Store(h, offset), Boot)
  {
    var dev: Device := (h, offset) => Store(h, offset);
    assert forall offset: nat | Plain(offset) :: !Stable(offset);
    forall dsp, ring | 0 <= dsp < DSP_COUNT && 0 <= ring < RING_COUNT
      ensures dev(Boot, Index(dsp, ring)) == 0
    {
      RingWordKind(dsp, ring, 10);
    }
  }

  /** Where word `w` of a ring lies. */
  lemma RingWordKind(dsp: nat, ring: nat, w: nat)
    requires dsp < DSP_COUNT && ring < RING_COUNT && w < 16
    ensures InRings(RingBase(dsp, ring) + w * 4)
    ensures (RingBase(dsp, ring) + w * 4) % 0x40 == w * 4
    ensures w != 10 ==> Plain(RingBase(dsp, ring) + w * 4)
  {
    var line := (if dsp < 4 then 0x80 else 0x178) + 2 * dsp + ring;
    assert RingBase(dsp, ring) == 0x40 * line;
    WithinLine(line, w * 4);
  }

  lemma WithinLine(line: nat, at: nat)
    requires at < 0x40
    ensures (0x40 * line + at) % 0x40 == at
  {}

  /** What the device shows is what was last written. */
  ghost predicate Mirrors(dev: Device, h: History) {
    forall offset: nat | Plain(offset) :: dev(h, offset) == Shadow(State(h), offset)
  }

  ghost predicate IndexesZero(dev: Device, h: History) {
    forall dsp, ring | 0 <= dsp < DSP_COUNT && 0 <= ring < RING_COUNT ::
      dev(h, Index(dsp, ring)) == 0
  }

  /** No position was published and words 10..15 were never written. */
  ghost predicate TailsZero(s: Hardware) {
    && (forall offset: nat | InRings(offset) && offset % 0x40 >= 0x20 :: Shadow(s, offset) == 0)
    && Shadow(s, INTERRUPT_ENABLE) == 0
  }

  ghost predicate Identified(dev: Device, h: History) {
    && dev(h, FPGA_REVISION) == EXPECTED_FPGA_REVISION
    && dev(h, EXTENDED_CAPABILITIES) == EXPECTED_CAPABILITIES
    && forall dsp | 0 <= dsp < DSP_COUNT :: dev(h, ReadyOffset(dsp)) % 2 == 1
  }

  /** The device agrees with the driver's writes, no ring has work pending, and
      identity and ready words are the expected ones. */
  ghost predicate Parked(dev: Device, h: History) {
    Mirrors(dev, h) && IndexesZero(dev, h) && TailsZero(State(h)) && Identified(dev, h)
  }

  ghost predicate EmptyRings(s: Hardware) {
    forall offset: nat | InRings(offset) :: Shadow(s, offset) == 0
  }

  /** Parked, nothing published, DMA control cold. */
  ghost predicate AtRest(dev: Device, h: History) {
    Parked(dev, h) && EmptyRings(State(h)) && Cold(State(h))
  }

  /** Events that submit no work. */
  predicate Tame(e: Event) {
    && !e.ResetDevice?
    && (e.Write? ==>
      && (InRings(e.offset) ==> e.offset % 0x40 < 0x28 && (e.offset % 0x40 >= 0x20 ==> e.value == 0))
      && (e.offset == INTERRUPT_ENABLE ==> e.value == 0))
  }

  lemma IndexesStay(dev: Device, h: History, e: Event)
    requires Benign(dev) && Mirrors(dev, h) && IndexesZero(dev, h) && TailsZero(State(h)) && Tame(e)
    ensures IndexesZero(dev, Then(h, e))
  {
    hide Bit, State, Shadow, InRings, Plain, Position, Index;
    forall dsp, ring | 0 <= dsp < DSP_COUNT && 0 <= ring < RING_COUNT
      ensures dev(Then(h, e), Index(dsp, ring)) == 0
    {
      PositionAndIndex(dsp, ring);
      assert dev(h, Position(dsp, ring)) == Shadow(State(h), Position(dsp, ring));
    }
  }

  lemma PositionAndIndex(dsp: nat, ring: nat)
    requires dsp < DSP_COUNT && ring < RING_COUNT
    ensures Plain(Position(dsp, ring)) && InRings(Position(dsp, ring)) && Position(dsp, ring) % 0x40 == 0x24
    ensures InRings(Index(dsp, ring)) && Index(dsp, ring) % 0x40 == 0x28
  {
    hide InRings, Plain, RingBase;
    RingWordKind(dsp, ring, 9);
    RingWordKind(dsp, ring, 10);
  }

  lemma ParkedStep(dev: Device, h: History, e: Event)
    requires Benign(dev) && Parked(dev, h) && Tame(e)
    ensures Parked(dev, Then(h, e))
  {
    hide Bit, Enabled;
    var g := Then(h, e);
    IndexesStay(dev, h, e);
    assert Mirrors(dev, g) by {
      forall offset: nat | Plain(offset)
        ensures dev(g, offset) == Shadow(State(g), offset)
      {
        assert dev(h, offset) == Shadow(State(h), offset);
      }
    }
    assert Identified(dev, g) by {
      forall dsp | 0 <= dsp < DSP_COUNT
        ensures dev(g, ReadyOffset(dsp)) % 2 == 1
      {
        assert Stable(ReadyOffset(dsp)) && dev(h, ReadyOffset(dsp)) % 2 == 1;
      }
      assert Stable(FPGA_REVISION) && Stable(EXTENDED_CAPABILITIES);
      assert dev(g, FPGA_REVISION) == dev(h, FPGA_REVISION);
      assert dev(g, EXTENDED_CAPABILITIES) == dev(h, EXTENDED_CAPABILITIES);
    }
  }

  lemma ParkedInspect(dev: Device, g: History, check: Check, i: nat)
    requires Benign(dev) && Parked(dev, g)
    ensures Parked(dev, Inspect(dev, g, check, i).1)
  {
    hide Parked, Benign, RingBase, Join32;
    match check
    case RingWords =>
      var offset := RingBase(i / 32, (i / 16) % 2) + (i % 16) * 4;
      ParkedStep(dev, g, Read(offset, dev(g, offset)));
    case ReadyWords => ParkedStep(dev, g, Read(ReadyOffset(i), dev(g, ReadyOffset(i))));
    case Descriptors(dma) =>
      var offset := PageRegister(i / 8, (i / 4) % 2, i % 4);
      ParkedStep(dev, g, Read(offset, dev(g, offset)));
      var g1 := Observe(dev, g, offset);
      ParkedStep(dev, g1, Read(offset + 4, dev(g1, offset + 4)));
    case Rings(indexes, pages) =>
      var ring, field := i / 6, i % 6;
      var base := RingBase(ring / 2, ring % 2);
      var offset := if field < 2 then base + 0x20 + field * 4 else base + (field - 2) * 8;
      ParkedStep(dev, g, Read(offset, dev(g, offset)));
      if field >= 2 {
        var g1 := Observe(dev, g, offset);
        ParkedStep(dev, g1, Read(offset + 4, dev(g1, offset + 4)));
      }
  }

  /** Reads keep the device parked. */
  lemma {:induction false} ParkedPoll(dev: Device, h: History, check: Check, n: nat)
    requires Benign(dev) && Parked(dev, h)
    ensures Parked(dev, Poll(dev, h, check, n).1)
  {
    hide Parked, Benign, Inspect;
    if n > 0 {
      ParkedPoll(dev, h, check, n - 1);
      ParkedInspect(dev, Poll(dev, h, check, n - 1).1, check, n - 1);
    }
  }

  lemma ParkedObserve(dev: Device, h: History, offset: nat)
    requires Benign(dev) && Parked(dev, h)
    ensures Parked(dev, Observe(dev, h, offset)) && State(Observe(dev, h, offset)) == State(h)
  {
    ParkedStep(dev, h, Read(offset, dev(h, offset)));
  }

  lemma EmptyWord(dev: Device, g: History, dsp: nat, ring: nat, w: nat)
    requires Parked(dev, g) && EmptyRings(State(g)) && dsp < DSP_COUNT && ring < RING_COUNT && w < 16
    ensures dev(g, RingBase(dsp, ring) + w * 4) == 0
  {
    hide State, Shadow, RingBase, InRings, Plain;
    RingWordKind(dsp, ring, w);
    if w == 10 {
      assert dev(g, Index(dsp, ring)) == 0;
    }
  }

  lemma EmptyWordReadsZero(dev: Device, g: History, i: nat)
    requires Parked(dev, g) && EmptyRings(State(g)) && i < CHECKED_WORDS
    ensures Inspect(dev, g, RingWords, i).0
  {
    hide Parked, EmptyRings, State, RingBase;
    EmptyWord(dev, g, i / 32, (i / 16) % 2, i % 16);
  }

  lemma {:induction false} EmptyRingsPass(dev: Device, h: History, n: nat)
    requires Benign(dev) && Parked(dev, h) && EmptyRings(State(h)) && n <= CHECKED_WORDS
    ensures Poll(dev, h, RingWords, n).0
  {
    hide Parked, Benign, State, Inspect, EmptyRings;
    if n > 0 {
      EmptyRingsPass(dev, h, n - 1);
      ParkedPoll(dev, h, RingWords, n - 1);
      PollKeeps(dev, h, RingWords, n - 1);
      EmptyWordReadsZero(dev, Poll(dev, h, RingWords, n - 1).1, n - 1);
    }
  }

  lemma {:induction false} ReadyWordsPass(dev: Device, h: History, n: nat)
    requires Benign(dev) && Parked(dev, h) && n <= DSP_COUNT
    ensures Poll(dev, h, ReadyWords, n).0
  {
    if n > 0 {
      ReadyWordsPass(dev, h, n - 1);
      ParkedPoll(dev, h, ReadyWords, n - 1);
    }
  }

  lemma {:induction false} DescriptorsPass(dev: Device, h: History, dma: seq<Address>, n: nat)
    requires Benign(dev) && Parked(dev, h) && Owned(State(h), dma) && AllHold(State(h), DSP_COUNT) && n <= PAGE_SLOTS
    ensures Poll(dev, h, Descriptors(dma), n).0
  {
    hide Parked, Benign, State, Inspect, AllHold;
    if n > 0 {
      DescriptorsPass(dev, h, dma, n - 1);
      ParkedPoll(dev, h, Descriptors(dma), n - 1);
      PollKeeps(dev, h, Descriptors(dma), n - 1);
      DescriptorReadsBack(dev, Poll(dev, h, Descriptors(dma), n - 1).1, dma, n - 1);
    }
  }

  lemma DescriptorReadsBack(dev: Device, g: History, dma: seq<Address>, i: nat)
    requires Benign(dev) && Parked(dev, g) && Owned(State(g), dma) && AllHold(State(g), DSP_COUNT) && i < PAGE_SLOTS
    ensures Inspect(dev, g, Descriptors(dma), i).0
  {
    var dsp, ring, page := i / 8, (i / 4) % 2, i % 4;
    SlotCoordinates(i);
    PublishedPair(State(g), dma, dsp, ring, page);
    hide Benign, Parked, Owned, State, AllHold, PageRegister, Join32, Slot;
    DescriptorPairReadsBack(dev, g, dma[i], dsp, ring, page);
  }

  lemma SlotCoordinates(i: nat)
    requires i < PAGE_SLOTS
    ensures i / 8 < DSP_COUNT && Slot(i / 8, (i / 4) % 2, i % 4) == i
  {}

  lemma DescriptorPairReadsBack(dev: Device, g: History, a: Address, dsp: nat, ring: nat, page: nat)
    requires Benign(dev) && Parked(dev, g)
    requires dsp < DSP_COUNT && ring < RING_COUNT && page < RING_PAGES
    requires var o, s := PageRegister(dsp, ring, page), State(g);
             o in s.regs && s.regs[o] == Low32(a) && o + 4 in s.regs && s.regs[o + 4] == High32(a)
    ensures var o := PageRegister(dsp, ring, page);
            Join32(dev(g, o), dev(Observe(dev, g, o), o + 4)) == a
  {
    hide Benign, Parked, Bit, State, RingBase, Shadow, Join32, Low32, High32;
    ParkedObserve(dev, g, PageRegister(dsp, ring, page));
    PublishedWordReadsBack(dev, g, dsp, ring, page * 2);
    PublishedWordReadsBack(dev, Observe(dev, g, PageRegister(dsp, ring, page)), dsp, ring, page * 2 + 1);
    AddressRoundTrip(a, Low32(a), High32(a));
  }

  lemma PublishedPair(s: Hardware, dma: seq<Address>, dsp: nat, ring: nat, page: nat)
    requires Owned(s, dma) && AllHold(s, DSP_COUNT)
    requires dsp < DSP_COUNT && ring < RING_COUNT && page < RING_PAGES
    ensures var o := PageRegister(dsp, ring, page);
            && o in s.regs && s.regs[o] == Low32(dma[Slot(dsp, ring, page)])
            && o + 4 in s.regs && s.regs[o + 4] == High32(dma[Slot(dsp, ring, page)])
  {
    hide Bank, Low32, High32;
    assert Holds(s, dsp, ring, page);
  }

  lemma PublishedWordReadsBack(dev: Device, g: History, dsp: nat, ring: nat, w: nat)
    requires Parked(dev, g) && dsp < DSP_COUNT && ring < RING_COUNT && w < 8
    requires RingBase(dsp, ring) + w * 4 in State(g).regs
    ensures dev(g, RingBase(dsp, ring) + w * 4) == State(g).regs[RingBase(dsp, ring) + w * 4]
  {
    hide State;
    RingWordKind(dsp, ring, w);
    assert Plain(RingBase(dsp, ring) + w * 4);
  }

  /** A device at rest passes the whole cold-state precondition. */
  lemma RestPassesColdCheck(dev: Device, h: History)
    requires Benign(dev) && AtRest(dev, h)
    ensures var (ok, g) := ColdCheck(dev, h); ok && AtRest(dev, g) && State(g) == State(h)
  {
    assert Plain(DMA_CONTROL) && Plain(INTERRUPT_ENABLE);
    ParkedObserve(dev, h, DMA_CONTROL);
    var h1 := Observe(dev, h, DMA_CONTROL);
    ParkedObserve(dev, h1, INTERRUPT_ENABLE);
    var h2 := Observe(dev, h1, INTERRUPT_ENABLE);
    ParkedObserve(dev, h2, FPGA_REVISION);
    var h3 := Observe(dev, h2, FPGA_REVISION);
    ParkedObserve(dev, h3, EXTENDED_CAPABILITIES);
    var h4 := Observe(dev, h3, EXTENDED_CAPABILITIES);
    EmptyRingsPass(dev, h4, CHECKED_WORDS);
    ParkedPoll(dev, h4, RingWords, CHECKED_WORDS);
    PollKeeps(dev, h4, RingWords, CHECKED_WORDS);
    var h5 := Poll(dev, h4, RingWords, CHECKED_WORDS).1;
    ReadyWordsPass(dev, h5, DSP_COUNT);
    ParkedPoll(dev, h5, ReadyWords, DSP_COUNT);
    PollKeeps(dev, h5, ReadyWords, DSP_COUNT);
  }

  lemma {:induction false} ParkedClear(dev: Device, h: History, n: nat)
    requires Benign(dev) && Parked(dev, h) && n <= CLEARED_WORDS
    ensures Parked(dev, Clear(h, n))
  {
    hide Parked, Benign;
    if n > 0 {
      ParkedClear(dev, h, n - 1);
      RingWordKind((n - 1) / 20, ((n - 1) / 10) % 2, (n - 1) % 10);
      ParkedStep(dev, Clear(h, n - 1),
                 Write(RingBase((n - 1) / 20, ((n - 1) / 10) % 2) + ((n - 1) % 10) * 4, 0));
    }
  }

  /** Clearing words 0..9 leaves zero in each of them. */
  lemma {:induction false} ClearZeroes(h: History, n: nat, i: nat)
    requires i < n <= CLEARED_WORDS
    ensures Shadow(State(Clear(h, n)), RingBase(i / 20, (i / 10) % 2) + (i % 10) * 4) == 0
  {
    if i < n - 1 {
      ClearZeroes(h, n - 1, i);
    }
  }

  /** Words 10 to 15 of every ring were never written. */
  ghost predicate UpperZero(s: Hardware) {
    forall offset: nat | InRings(offset) && offset % 0x40 >= 0x28 :: Shadow(s, offset) == 0
  }

  /** The ten cleared words and the six untouched ones together empty every ring. */
  lemma ClearEmpties(h: History)
    requires UpperZero(State(h))
    ensures EmptyRings(State(Clear(h, CLEARED_WORDS)))
  {
    hide State, Shadow, Clear;
    forall offset: nat | InRings(offset)
      ensures Shadow(State(Clear(h, CLEARED_WORDS)), offset) == 0
    {
      if offset % 0x40 < 0x28 {
        RingWordAt(offset);
        ClearZeroes(h, CLEARED_WORDS, ClearedAs(offset));
      } else {
        ClearLeavesIndex(h, CLEARED_WORDS, offset);
      }
    }
  }

  /** Which of the 160 clearing writes reaches a ring word. */
  function ClearedAs(offset: nat): nat
    requires InRings(offset)
  {
    (if offset < 0x2200 then (offset - 0x2000) / 0x40 else (offset - 0x6000) / 0x40 + 8) * 10 + (offset % 0x40) / 4
  }

  lemma RingWordAt(offset: nat)
    requires InRings(offset) && offset % 0x40 < 0x28
    ensures var i := ClearedAs(offset);
            i < CLEARED_WORDS && RingBase(i / 20, (i / 10) % 2) + (i % 10) * 4 == offset
  {
    var line := if offset < 0x2200 then (offset - 0x2000) / 0x40 else (offset - 0x6000) / 0x40 + 8;
    var i := ClearedAs(offset);
    assert i / 10 == line && i % 10 == (offset % 0x40) / 4;
    assert i / 20 == line / 2;
  }

  lemma {:induction false} ClearLeavesIndex(h: History, n: nat, offset: nat)
    requires n <= CLEARED_WORDS && InRings(offset) && offset % 0x40 >= 0x28
    ensures Shadow(State(Clear(h, n)), offset) == Shadow(State(h), offset)
  {
    if n > 0 {
      ClearLeavesIndex(h, n - 1, offset);
      RingWordKind((n - 1) / 20, ((n - 1) / 10) % 2, (n - 1) % 10);
    }
  }

  // ---- the driver's operations on a benign device ----

  lemma ParkedPrologue(dev: Device, h: History)
    requires Benign(dev) && Parked(dev, h)
    ensures Parked(dev, Prologue(h))
  {
    hide Parked, Benign;
    ParkedStep(dev, h, Write(NOTIFICATION_CONTROL, 0));
    var h1 := Then(h, Write(NOTIFICATION_CONTROL, 0));
    ParkedStep(dev, h1, Write(INTERRUPT_ENABLE, 0));
    var h2 := Then(h1, Write(INTERRUPT_ENABLE, 0));
    ParkedStep(dev, h2, Write(INTERRUPT_ACK, 0));
    var h3 := Then(h2, Write(INTERRUPT_ACK, 0));
    ParkedStep(dev, h3, Write(DMA_CONTROL, DMA_RESET_GLOBAL));
    var h4 := Then(h3, Write(DMA_CONTROL, DMA_RESET_GLOBAL));
    ParkedStep(dev, h4, Write(DMA_CONTROL, DMA_GLOBAL_ONLY));
    ParkedStep(dev, Then(h4, Write(DMA_CONTROL, DMA_GLOBAL_ONLY)), Write(INTERRUPT_ACK, ALL_ONES));
  }

  lemma {:induction false} ParkedPublish(dev: Device, h: History, dma: seq<Address>, dsp: nat, ring: nat, n: nat)
    requires Benign(dev) && Parked(dev, h)
    requires PageTable(dma) && dsp < DSP_COUNT && ring < RING_COUNT && n <= RING_PAGES
    ensures Parked(dev, Publish(h, dma, dsp, ring, n))
  {
    hide Parked, Benign, RingBase, InRings, Low32, High32;
    if n > 0 {
      ParkedPublish(dev, h, dma, dsp, ring, n - 1);
      var a := dma[Slot(dsp, ring, n - 1)];
      var g := Publish(h, dma, dsp, ring, n - 1);
      var o := PageRegister(dsp, ring, n - 1);
      RingWordKind(dsp, ring, (n - 1) * 2);
      RingWordKind(dsp, ring, (n - 1) * 2 + 1);
      ParkedStep(dev, g, Write(o, Low32(a)));
      ParkedStep(dev, Then(g, Write(o, Low32(a))), Write(o + 4, High32(a)));
    }
  }

  lemma IndexReadsZero(dev: Device, h: History, dsp: nat, ring: nat)
    requires Parked(dev, h) && dsp < DSP_COUNT && ring < RING_COUNT
    ensures dev(h, RingBase(dsp, ring) + 0x28) == 0
  {
    assert dev(h, Index(dsp, ring)) == 0;
  }

  lemma PositionReadsZero(dev: Device, g: History, dsp: nat, ring: nat, field: nat)
    requires Parked(dev, g) && dsp < DSP_COUNT && ring < RING_COUNT && field < 2
    ensures dev(g, RingBase(dsp, ring) + 0x20 + field * 4) == 0
  {
    hide State, Shadow, RingBase, InRings, Plain;
    RingWordKind(dsp, ring, 8 + field);
  }

  lemma ParkedSeedIndex(dev: Device, h: History, dsp: nat, ring: nat)
    requires Benign(dev) && Parked(dev, h) && dsp < DSP_COUNT && ring < RING_COUNT
    ensures Parked(dev, SeedIndex(dev, h, dsp, ring))
  {
    hide Parked, Benign, RingBase, InRings;
    var base := RingBase(dsp, ring);
    IndexReadsZero(dev, h, dsp, ring);
    RingWordKind(dsp, ring, 8);
    RingWordKind(dsp, ring, 9);
    var h1 := Then(h, Read(base + 0x28, 0));
    ParkedStep(dev, h, Read(base + 0x28, 0));
    ParkedStep(dev, h1, Write(base + 0x24, 0));
    ParkedStep(dev, Then(h1, Write(base + 0x24, 0)), Write(base + 0x20, 0));
  }

  lemma ParkedInitRing(dev: Device, h: History, dma: seq<Address>, dsp: nat, ring: nat)
    requires Benign(dev) && Parked(dev, h) && PageTable(dma) && dsp < DSP_COUNT && ring < RING_COUNT
    ensures Parked(dev, InitRing(dev, h, dma, dsp, ring))
  {
    hide Parked, Benign, SeedIndex, Publish;
    ParkedSeedIndex(dev, h, dsp, ring);
    ParkedPublish(dev, SeedIndex(dev, h, dsp, ring), dma, dsp, ring, RING_PAGES);
  }

  lemma {:induction false} ParkedInitDsps(dev: Device, h: History, dma: seq<Address>, n: nat)
    requires Benign(dev) && Parked(dev, h) && PageTable(dma) && n <= DSP_COUNT
    ensures Parked(dev, InitDsps(dev, h, dma, n))
  {
    hide Parked, Benign, InitRing;
    if n > 0 {
      ParkedInitDsps(dev, h, dma, n - 1);
      var g := InitDsps(dev, h, dma, n - 1);
      ParkedInitRing(dev, g, dma, n - 1, 0);
      ParkedInitRing(dev, InitRing(dev, g, dma, n - 1, 0), dma, n - 1, 1);
      Pow2Monotone(n + 1, 9);
      SmallPow2();
      ParkedStep(dev, InitRing(dev, InitRing(dev, g, dma, n - 1, 0), dma, n - 1, 1),
                 Write(DMA_CONTROL, Pow2(n + 1) - 1));
    }
  }

  /** Stopped, safe and at rest. */
  ghost predicate RestMode(dev: Device, h: History, dma: seq<Address>) {
    AtRest(dev, h) && Safe(h) && Contained(State(h)) && Stopped(State(h), dma)
  }

  /** Running, safe and idle. */
  ghost predicate RunMode(dev: Device, h: History, dma: seq<Address>) {
    Parked(dev, h) && Safe(h) && Contained(State(h)) && Running(State(h), dma)
  }

  lemma VerdictPasses(dev: Device, h: History, dma: seq<Address>)
    requires Benign(dev) && Parked(dev, h) && Running(State(h), dma)
    ensures var (ok, g) := Verdict(dev, h, dma); ok && Parked(dev, g)
  {
    assert Plain(DMA_CONTROL);
    ParkedObserve(dev, h, DMA_CONTROL);
    var h1 := Observe(dev, h, DMA_CONTROL);
    assert Running(State(h1), dma);
    DescriptorsPass(dev, h1, dma, PAGE_SLOTS);
    ParkedPoll(dev, h1, Descriptors(dma), PAGE_SLOTS);
    var h2 := Poll(dev, h1, Descriptors(dma), PAGE_SLOTS).1;
    ReadyWordsPass(dev, h2, DSP_COUNT);
    ParkedPoll(dev, h2, ReadyWords, DSP_COUNT);
  }

  lemma StartRuns(dev: Device, h: History, dma: seq<Address>)
    requires Benign(dev) && RestMode(dev, h, dma)
    ensures var r := Start(dev, h, dma, false);
            r.code == Done && r.started && RunMode(dev, r.history, dma)
  {
    StartIsSafe(dev, h, dma, false);
    RestPassesColdCheck(dev, h);
    ColdCheckKeeps(dev, h);
    var h1 := ColdCheck(dev, h).1;
    LaunchRuns(dev, h1, dma);
    hide Parked, Benign, State, Running, Verdict;
    ParkedStep(dev, h1, ZeroPages);
    ParkedStep(dev, Then(h1, ZeroPages), SetMaster);
    ParkedPrologue(dev, Then(Then(h1, ZeroPages), SetMaster));
    ParkedInitDsps(dev, Prologue(Then(Then(h1, ZeroPages), SetMaster)), dma, DSP_COUNT);
    ParkedObserve(dev, InitDsps(dev, Prologue(Then(Then(h1, ZeroPages), SetMaster)), dma, DSP_COUNT), DMA_CONTROL);
    VerdictPasses(dev, Launch(dev, h1, dma), dma);
  }

  lemma ParkedQuiesceHead(dev: Device, h: History)
    requires Benign(dev) && Parked(dev, h)
    ensures Parked(dev, QuiesceHead(h)) && TailsZero(State(QuiesceHead(h)))
  {
    hide Benign, State;
    ParkedStep(dev, h, Write(INTERRUPT_ENABLE, 0));
    var h1 := Then(h, Write(INTERRUPT_ENABLE, 0));
    ParkedStep(dev, h1, Write(INTERRUPT_ACK, ALL_ONES));
    var h2 := Then(h1, Write(INTERRUPT_ACK, ALL_ONES));
    ParkedStep(dev, h2, Write(DMA_CONTROL, DMA_RESET_GLOBAL));
    ParkedStep(dev, Then(h2, Write(DMA_CONTROL, DMA_RESET_GLOBAL)), Write(DMA_CONTROL, DMA_GLOBAL_ONLY));
  }

  lemma ParkedQuiesceWrites(dev: Device, h: History)
    requires Benign(dev) && Parked(dev, h)
    ensures var g := QuiesceWrites(h); Parked(dev, g) && EmptyRings(State(g))
  {
    hide Benign, Parked, EmptyRings, QuiesceHead, Clear;
    var h1 := QuiesceHead(h);
    ParkedQuiesceHead(dev, h);
    ParkedClear(dev, h1, CLEARED_WORDS);
    ClearEmpties(h1);
    var h2 := Clear(h1, CLEARED_WORDS);
    ParkedStep(dev, h2, Write(DMA_CONTROL, DMA_COLD_RESET));
    ControlKeepsRings(State(h2), DMA_COLD_RESET);
  }

  lemma ParkedQuiesce(dev: Device, h: History)
    requires Benign(dev) && Parked(dev, h)
    ensures var g := Quiesce(dev, h); Parked(dev, g) && EmptyRings(State(g))
  {
    hide Benign, Parked, EmptyRings, QuiesceWrites;
    var h3 := QuiesceWrites(h);
    ParkedQuiesceWrites(dev, h);
    ParkedObserve(dev, h3, DMA_CONTROL);
    ParkedStep(dev, Observe(dev, h3, DMA_CONTROL), ClearMaster);
    MasterKeepsRings(State(h3));
  }

  lemma MasterKeepsRings(s: Hardware)
    requires EmptyRings(s)
    ensures EmptyRings(s.(master := false))
  {
    forall offset: nat | InRings(offset)
      ensures Shadow(s.(master := false), offset) == 0
    {
      assert Shadow(s, offset) == 0;
    }
  }

  lemma ControlKeepsRings(s: Hardware, value: Word)
    requires EmptyRings(s)
    ensures EmptyRings(s.(regs := s.regs[DMA_CONTROL := value]))
  {
    forall offset: nat | InRings(offset)
      ensures Shadow(s.(regs := s.regs[DMA_CONTROL := value]), offset) == 0
    {
      assert Shadow(s, offset) == 0;
    }
  }

  /** A stop re-establishes the whole cold precondition: all sixteen words of
      every ring read zero although only ten of them are written. */
  lemma StopRests(dev: Device, h: History, dma: seq<Address>)
    requires Benign(dev) && RunMode(dev, h, dma)
    ensures var r := Stop(dev, h, true);
            r.code == Done && !r.started && RestMode(dev, r.history, dma) && ColdCheck(dev, r.history).0
  {
    StopIsSafe(dev, h, dma, true);
    QuiesceStops(dev, h, dma);
    hide State, Parked, Benign;
    ParkedQuiesce(dev, h);
    RestPassesColdCheck(dev, Quiesce(dev, h));
    RestPassesColdCheck(dev, Stop(dev, h, true).history);
  }

  lemma ResetRuns(dev: Device, h: History, dma: seq<Address>, dsp: nat, flags: nat)
    requires Benign(dev) && RunMode(dev, h, dma)
    ensures var r := Reset(dev, h, true, dsp, flags);
            && r.code == (if dsp >= DSP_COUNT || flags != 0 then Invalid else Done)
            && RunMode(dev, r.history, dma)
  {
    ResetIsSafe(dev, h, dma, true, dsp, flags);
    if dsp < DSP_COUNT && flags == 0 {
      assert Plain(DMA_CONTROL);
      ParkedObserve(dev, h, DMA_CONTROL);
      var h1 := Observe(dev, h, DMA_CONTROL);
      ParkedStep(dev, h1, Write(DMA_CONTROL, Pulse(dsp)));
      var h2 := Then(h1, Write(DMA_CONTROL, Pulse(dsp)));
      ParkedStep(dev, h2, Write(DMA_CONTROL, Disabled(dsp)));
      var h3 := Then(h2, Write(DMA_CONTROL, Disabled(dsp)));
      ParkedStep(dev, h3, Sleep);
      var h4 := Then(h3, Sleep);
      ParkedObserve(dev, h4, ReadyOffset(dsp));
      var h5 := Observe(dev, h4, ReadyOffset(dsp));
      ParkedStep(dev, h5, Write(DMA_CONTROL, DMA_ALL_DSPS));
      var h6 := Then(h5, Write(DMA_CONTROL, DMA_ALL_DSPS));
      ParkedObserve(dev, h6, DMA_CONTROL);
      var h7 := Observe(dev, h6, DMA_CONTROL);
      ParkedObserve(dev, h7, DMA_CONTROL);
      ParkedObserve(dev, Observe(dev, h7, DMA_CONTROL), ReadyOffset(dsp));
    }
  }

  // ---- the abstract machine ----

  datatype Call = StartCall | StopCall | ResetCall(dsp: nat, flags: nat)

  datatype Mode = AtStop | AtRun

  function AbstractStep(mode: Mode, call: Call): (Mode, Code) {
    match call
    case StartCall => (AtRun, Done)
    case StopCall => (AtStop, Done)
    case ResetCall(dsp, flags) =>
      (mode, if mode.AtStop? then BrokenPipe
             else if dsp >= DSP_COUNT || flags != 0 then Invalid
             else Done)
  }

  function AbstractCodes(mode: Mode, calls: seq<Call>): seq<Code>
    decreases calls
  {
    if calls == [] then []
    else
      var (next, code) := AbstractStep(mode, calls[0]);
      [code] + AbstractCodes(next, calls[1..])
  }

  function DriverStep(dev: Device, h: History, dma: seq<Address>, started: bool, call: Call): Outcome
    requires PageTable(dma)
  {
    match call
    case StartCall => Start(dev, h, dma, started)
    case StopCall => Stop(dev, h, started)
    case ResetCall(dsp, flags) =>
      var r := Reset(dev, h, started, dsp, flags);
      Outcome(r.history, started, r.code)
  }

  function DriverCodes(dev: Device, h: History, dma: seq<Address>, started: bool, calls: seq<Call>): seq<Code>
    requires PageTable(dma)
    decreases calls
  {
    if calls == [] then []
    else
      var r := DriverStep(dev, h, dma, started, calls[0]);
      [r.code] + DriverCodes(dev, r.history, dma, r.started, calls[1..])
  }

  ghost predicate InMode(dev: Device, h: History, dma: seq<Address>, mode: Mode) {
    match mode
    case AtStop => RestMode(dev, h, dma)
    case AtRun => RunMode(dev, h, dma)
  }

  lemma StepRefines(dev: Device, h: History, dma: seq<Address>, mode: Mode, call: Call)
    requires Benign(dev) && InMode(dev, h, dma, mode)
    ensures PageTable(dma)
    ensures var r := DriverStep(dev, h, dma, mode.AtRun?, call);
            var (next, code) := AbstractStep(mode, call);
            r.code == code && r.started == next.AtRun? && InMode(dev, r.history, dma, next)
  {
    hide Parked, Benign, State, Safe, Contained;
    match call
    case StartCall => if mode.AtStop? { StartRuns(dev, h, dma); }
    case StopCall => if mode.AtRun? { StopRests(dev, h, dma); }
    case ResetCall(dsp, flags) => if mode.AtRun? { ResetRuns(dev, h, dma, dsp, flags); }
  }

  /** Every sequence of calls returns what the two-state machine returns. */
  lemma {:induction false} DriverRefinesMachine(
    dev: Device, h: History, dma: seq<Address>, mode: Mode, calls: seq<Call>)
    requires Benign(dev) && InMode(dev, h, dma, mode) && PageTable(dma)
    ensures DriverCodes(dev, h, dma, mode.AtRun?, calls) == AbstractCodes(mode, calls)
    decreases calls
  {
    hide Benign, InMode, DriverStep, AbstractStep;
    if calls != [] {
      StepRefines(dev, h, dma, mode, calls[0]);
      var r := DriverStep(dev, h, dma, mode.AtRun?, calls[0]);
      DriverRefinesMachine(dev, r.history, dma, AbstractStep(mode, calls[0]).0, calls[1..]);
    }
  }
}
