/** What each driver operation does to the history, as functions of the device's
    answers. The imperative driver is proved equal to these. */
module TransportSpec {
  import opened Common
  import opened Bits
  import opened Machine

  datatype Code =
    | Done | NotPermitted | Busy | Fault | Invalid | IoError | BrokenPipe
    | NoDevice | NoMemory | NotTty | Unsupported | Failed(reason: int)

  /** A multi-register check, given by the reads it makes in order. */
  datatype Check =
    | RingWords
    | ReadyWords
    | Descriptors(dma: seq<Address>)
    | Rings(indexes: seq<Word>, pages: seq<Address>)

  predicate PageTable(dma: seq<Address>) {
    |dma| == PAGE_SLOTS
  }

  function Observe(dev: Device, h: History, offset: nat): History {
    Then(h, Read(offset, dev(h, offset)))
  }

  /** The i-th test of a check: whether it passes, and the history after its reads. */
  function Inspect(dev: Device, h: History, check: Check, i: nat): (r: (bool, History)) {
    match check
    case RingWords =>
      var offset := RingBase(i / 32, (i / 16) % 2) + (i % 16) * 4;
      (dev(h, offset) == 0, Observe(dev, h, offset))
    case ReadyWords =>
      (dev(h, ReadyOffset(i)) % 2 == 1, Observe(dev, h, ReadyOffset(i)))
    case Descriptors(dma) =>
      var offset := PageRegister(i / 8, (i / 4) % 2, i % 4);
      var g := Observe(dev, h, offset);
      (i < |dma| && Join32(dev(h, offset), dev(g, offset + 4)) == dma[i], Observe(dev, g, offset + 4))
    case Rings(indexes, pages) =>
      var ring, field := i / 6, i % 6;
      if field < 2 then
        var offset := RingBase(ring / 2, ring % 2) + 0x20 + field * 4;
        (ring < |indexes| && dev(h, offset) == indexes[ring], Observe(dev, h, offset))
      else
        var slot, offset := ring * 4 + (field - 2), RingBase(ring / 2, ring % 2) + (field - 2) * 8;
        var g := Observe(dev, h, offset);
        (slot < |pages| && Join32(dev(h, offset), dev(g, offset + 4)) == pages[slot], Observe(dev, g, offset + 4))
  }

  /** The first `n` tests of a check, stopping at the first that fails. */
  function Poll(dev: Device, h: History, check: Check, n: nat): (r: (bool, History)) {
    if n == 0 then (true, h)
    else
      var (ok, g) := Poll(dev, h, check, n - 1);
      if ok then Inspect(dev, g, check, n - 1) else (false, g)
  }

  function Expect(dev: Device, h: History, offset: nat, want: Word): (bool, History) {
    (dev(h, offset) == want, Observe(dev, h, offset))
  }

  /** The cold-state precondition, with its left-to-right short circuit. */
  function ColdCheck(dev: Device, h: History): (bool, History) {
    var (control, h1) := Expect(dev, h, DMA_CONTROL, DMA_COLD_RESET);
    if !control then (false, h1) else
    var (quiet, h2) := Expect(dev, h1, INTERRUPT_ENABLE, 0);
    if !quiet then (false, h2) else
    var (revision, h3) := Expect(dev, h2, FPGA_REVISION, EXPECTED_FPGA_REVISION);
    if !revision then (false, h3) else
    var (capable, h4) := Expect(dev, h3, EXTENDED_CAPABILITIES, EXPECTED_CAPABILITIES);
    if !capable then (false, h4) else
    var (empty, h5) := Poll(dev, h4, RingWords, CHECKED_WORDS);
    if !empty then (false, h5) else
    Poll(dev, h5, ReadyWords, DSP_COUNT)
  }

  /** The first `n` of the 160 writes that clear words 0..9 of all sixteen rings. */
  function Clear(h: History, n: nat): History {
    if n == 0 then h
    else Then(Clear(h, n - 1), Write(RingBase((n - 1) / 20, ((n - 1) / 10) % 2) + ((n - 1) % 10) * 4, 0))
  }

  /** The first `n` descriptor pairs of one ring. */
  function Publish(h: History, dma: seq<Address>, dsp: nat, ring: nat, n: nat): History
    requires PageTable(dma) && dsp < DSP_COUNT && ring < RING_COUNT && n <= RING_PAGES
  {
    if n == 0 then h
    else
      var a := dma[Slot(dsp, ring, n - 1)];
      Then(Then(Publish(h, dma, dsp, ring, n - 1),
                Write(PageRegister(dsp, ring, n - 1), Low32(a))),
           Write(PageRegister(dsp, ring, n - 1) + 4, High32(a)))
  }

  /** The hardware index, replaced by zero when out of range. */
  function BoundedIndex(raw: Word): Word {
    if raw < RING_ENTRIES then raw else 0
  }

  function SeedIndex(dev: Device, h: History, dsp: nat, ring: nat): History {
    var base := RingBase(dsp, ring);
    var index := BoundedIndex(dev(h, base + 0x28));
    Then(Then(Observe(dev, h, base + 0x28), Write(base + 0x24, index)), Write(base + 0x20, index))
  }

  function InitRing(dev: Device, h: History, dma: seq<Address>, dsp: nat, ring: nat): History
    requires PageTable(dma) && dsp < DSP_COUNT && ring < RING_COUNT
  {
    Publish(SeedIndex(dev, h, dsp, ring), dma, dsp, ring, RING_PAGES)
  }

  /** The first `n` DSPs brought up: both rings published, then the engine enabled. */
  function InitDsps(dev: Device, h: History, dma: seq<Address>, n: nat): History
    requires PageTable(dma) && n <= DSP_COUNT
  {
    if n == 0 then h
    else
      var g := InitDsps(dev, h, dma, n - 1);
      var rings := InitRing(dev, InitRing(dev, g, dma, n - 1, 0), dma, n - 1, 1);
      Pow2Monotone(n + 1, 9);
      assert Pow2(9) == 512;
      Then(rings, Write(DMA_CONTROL, Pow2(n + 1) - 1))
  }

  function Prologue(h: History): History {
    Then(Then(Then(Then(Then(Then(h,
      Write(NOTIFICATION_CONTROL, 0)),
      Write(INTERRUPT_ENABLE, 0)),
      Write(INTERRUPT_ACK, 0)),
      Write(DMA_CONTROL, DMA_RESET_GLOBAL)),
      Write(DMA_CONTROL, DMA_GLOBAL_ONLY)),
      Write(INTERRUPT_ACK, ALL_ONES))
  }

  /** The writes that bring every engine down and return to the cold state. */
  function QuiesceHead(h: History): History {
    Then(Then(Then(Then(h,
      Write(INTERRUPT_ENABLE, 0)),
      Write(INTERRUPT_ACK, ALL_ONES)),
      Write(DMA_CONTROL, DMA_RESET_GLOBAL)),
      Write(DMA_CONTROL, DMA_GLOBAL_ONLY))
  }

  function QuiesceWrites(h: History): History {
    Then(Clear(QuiesceHead(h), CLEARED_WORDS), Write(DMA_CONTROL, DMA_COLD_RESET))
  }

  function Quiesce(dev: Device, h: History): History {
    Then(Observe(dev, QuiesceWrites(h), DMA_CONTROL), ClearMaster)
  }

  /** Everything `start` does between its precondition and its verdict. */
  function Launch(dev: Device, h: History, dma: seq<Address>): History
    requires PageTable(dma)
  {
    var up := InitDsps(dev, Prologue(Then(Then(h, ZeroPages), SetMaster)), dma, DSP_COUNT);
    Observe(dev, up, DMA_CONTROL)
  }

  /** The verdict: DMA control, published descriptors, ready words. */
  function Verdict(dev: Device, h: History, dma: seq<Address>): (bool, History) {
    var (enabled, h1) := Expect(dev, h, DMA_CONTROL, DMA_ALL_DSPS);
    if !enabled then (false, h1) else
    var (published, h2) := Poll(dev, h1, Descriptors(dma), PAGE_SLOTS);
    if !published then (false, h2) else
    Poll(dev, h2, ReadyWords, DSP_COUNT)
  }

  datatype Outcome = Outcome(history: History, started: bool, code: Code)

  function Start(dev: Device, h: History, dma: seq<Address>, started: bool): Outcome
    requires PageTable(dma)
  {
    if started then Outcome(h, true, Done) else
    var (cold, h1) := ColdCheck(dev, h);
    if !cold then Outcome(h1, false, Busy) else
    var (good, h2) := Verdict(dev, Launch(dev, h1, dma), dma);
    if good then Outcome(h2, true, Done)
    else Outcome(Quiesce(dev, h2), false, IoError)
  }

  function Stop(dev: Device, h: History, started: bool): Outcome {
    if !started then Outcome(h, false, Done) else
    var (recovered, h1) := ColdCheck(dev, Quiesce(dev, h));
    Outcome(h1, false, if recovered then Done else IoError)
  }

  /** The three DMA-control values of one reset pulse. */
  function EnableBit(dsp: nat): nat { Pow2(dsp + 1) }

  function ResetBit(dsp: nat): nat { Pow2(dsp + 9) }

  function Disabled(dsp: nat): Word {
    AndNot(DMA_ALL_DSPS, EnableBit(dsp))
  }

  function Pulse(dsp: nat): (v: Word)
    requires dsp < DSP_COUNT
  {
    PulseValues(dsp);
    Or(Disabled(dsp), ResetBit(dsp))
  }

  lemma PulseValues(dsp: nat)
    requires dsp < DSP_COUNT
    ensures Disabled(dsp) == 0x1ff - Pow2(dsp + 1)
    ensures Or(Disabled(dsp), ResetBit(dsp)) == Disabled(dsp) + Pow2(dsp + 9) < WORD_LIMIT
  {
    assert Pow2(9) == 512;
    assert Pow2(16) == 65536 by { Pow2Sum(9, 7); assert Pow2(7) == 128; }
    Pow2Monotone(dsp + 9, 16);
    Pow2Monotone(9, dsp + 9);
    DisabledSum(dsp);
    BitOnes(9, dsp + 9);
    BitAndNot(DMA_ALL_DSPS, EnableBit(dsp), dsp + 9);
    OrClearBit(Disabled(dsp), dsp + 9);
  }

  lemma DisabledSum(dsp: nat)
    requires dsp < DSP_COUNT
    ensures AndNot(DMA_ALL_DSPS, Pow2(dsp + 1)) + Pow2(dsp + 1) == DMA_ALL_DSPS
  {
    var cleared := AndNot(DMA_ALL_DSPS, Pow2(dsp + 1));
    BitPow2(dsp + 1, dsp + 1);
    BitAndNot(DMA_ALL_DSPS, Pow2(dsp + 1), dsp + 1);
    OrClearBit(cleared, dsp + 1);
    forall k: nat
      ensures Bit(Or(cleared, Pow2(dsp + 1)), k) == Bit(DMA_ALL_DSPS, k)
    {
      BitOr(cleared, Pow2(dsp + 1), k);
      BitAndNot(DMA_ALL_DSPS, Pow2(dsp + 1), k);
      BitPow2(dsp + 1, k);
      EngineBits(dsp);
    }
    SameBits(Or(cleared, Pow2(dsp + 1)), DMA_ALL_DSPS);
  }

  /** What the caller of a reset gets back beside the code. */
  datatype ResetReport = ResetReport(before: Word, after: Word, readyAfter: bool)

  datatype ResetOutcome = ResetOutcome(history: History, code: Code, report: Option<ResetReport>)

  function Reset(dev: Device, h: History, started: bool, dsp: nat, flags: nat): ResetOutcome {
    if !started then ResetOutcome(h, BrokenPipe, None) else
    if dsp >= DSP_COUNT || flags != 0 then ResetOutcome(h, Invalid, None) else
    var (all, h1) := Expect(dev, h, DMA_CONTROL, DMA_ALL_DSPS);
    if !all then ResetOutcome(h1, Busy, None) else
    var h2 := Then(Then(Then(h1,
      Write(DMA_CONTROL, Pulse(dsp))), Write(DMA_CONTROL, Disabled(dsp))), Sleep);
    var pulsed := dev(h2, ReadyOffset(dsp)) % 2 == 1;
    var h3 := Then(Observe(dev, h2, ReadyOffset(dsp)), Write(DMA_CONTROL, DMA_ALL_DSPS));
    var h4 := Observe(dev, h3, DMA_CONTROL);
    var after := dev(h4, DMA_CONTROL);
    var h5 := Observe(dev, h4, DMA_CONTROL);
    var ready := dev(h5, ReadyOffset(dsp)) % 2 == 1;
    ResetOutcome(Observe(dev, h5, ReadyOffset(dsp)),
                 if pulsed && after == DMA_ALL_DSPS && ready then Done else IoError,
                 Some(ResetReport(DMA_ALL_DSPS, after, ready)))
  }

  lemma {:induction false} PollStopsAtFailure(dev: Device, h: History, check: Check, n: nat, m: nat)
    requires n <= m && !Poll(dev, h, check, n).0
    ensures Poll(dev, h, check, m) == Poll(dev, h, check, n)
    decreases m
  {
    if n < m { PollStopsAtFailure(dev, h, check, n, m - 1); }
  }

  lemma RingWordTest(dev: Device, h: History, dsp: nat, ring: nat, word: nat)
    requires ring < 2 && word < 16
    ensures var offset := RingBase(dsp, ring) + word * 4;
            Inspect(dev, h, RingWords, dsp * 32 + ring * 16 + word) == (dev(h, offset) == 0, Observe(dev, h, offset))
  {
    hide RingBase;
    var i := dsp * 32 + ring * 16 + word;
    assert i / 16 == dsp * 2 + ring;
    assert i / 32 == dsp && i % 16 == word;
  }

  lemma ClearedWord(dsp: nat, ring: nat, word: nat)
    requires ring < 2 && word < 10
    ensures var i := dsp * 20 + ring * 10 + word;
            i / 20 == dsp && (i / 10) % 2 == ring && i % 10 == word
  {
    var i := dsp * 20 + ring * 10 + word;
    assert i / 10 == dsp * 2 + ring;
  }
}
