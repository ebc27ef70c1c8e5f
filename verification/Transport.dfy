/** The transport driver as it is written: loops of register accesses over a
    device structure whose fields change in place. Every method is proved to do
    exactly what its specification function says, and so inherits its safety. */
module Transport {
  import opened Common
  import opened Bits
  import opened Machine
  import opened TransportSpec
  import opened TransportSafety
  import opened LifecycleSpec
  import opened LifecycleSafety
  import RequestAnswers

  class UadDevice {
    /** The board: its answer to a read, given the history. */
    const device: Device

    /** The page table, row-major: bus addresses, and which entries are allocated. */
    var dma: seq<Address>
    var present: seq<bool>

    var history: History
    var started: bool
    var removing: bool
    var refcount: nat
    var named: bool

    /** Open files and removal progress live outside the structure. */
    ghost var files: nat
    ghost var phase: Phase

    /** The zeroed structure. */
    constructor (device: Device)
      ensures this.device == device && history == Then(Boot, Acquire(Memory))
      ensures dma == seq(PAGE_SLOTS, _ => 0) && present == seq(PAGE_SLOTS, _ => false)
      ensures !started && !removing && !named && refcount == 1 && files == 0 && phase == Bound
    {
      this.device := device;
      dma, present := seq(PAGE_SLOTS, _ => 0), seq(PAGE_SLOTS, _ => false);
      history := Then(Boot, Acquire(Memory));
      started, removing, named, refcount := false, false, false, 1;
      files, phase := 0, Bound;
    }

    ghost function View(): Driver
      reads this
    {
      Driver(history, dma, started, removing, refcount, files, phase)
    }

    /** What holds whenever the lock is free. */
    ghost predicate Valid()
      reads this
    {
      Invariant(View()) && named && (phase.Bound? || phase.Deregistered? ==> present == AllPresent())
    }

    method ReadRegister(offset: nat) returns (value: Word)
      modifies `history
      ensures value == device(old(history), offset)
      ensures history == Observe(device, old(history), offset)
    {
      value := device(history, offset);
      history := Then(history, Read(offset, value));
    }

    method WriteRegister(offset: nat, value: Word)
      modifies `history
      ensures history == Then(old(history), Write(offset, value))
    {
      history := Then(history, Write(offset, value));
    }

    method AllDspsReady() returns (ready: bool)
      modifies `history
      ensures (ready, history) == Poll(device, old(history), ReadyWords, DSP_COUNT)
    {
      ghost var h := history;
      var dsp := 0;
      while dsp < DSP_COUNT
        invariant dsp <= DSP_COUNT
        invariant Poll(device, h, ReadyWords, dsp) == (true, history)
      {
        var word := ReadRegister(ReadyOffset(dsp));
        if word % 2 == 0 {
          PollStopsAtFailure(device, h, ReadyWords, dsp + 1, DSP_COUNT);
          return false;
        }
        dsp := dsp + 1;
      }
      return true;
    }

    method AllRingWordsZero() returns (zero: bool)
      modifies `history
      ensures (zero, history) == Poll(device, old(history), RingWords, CHECKED_WORDS)
    {
      hide RingBase, Inspect;
      ghost var h := history;
      var dsp := 0;
      while dsp < DSP_COUNT
        invariant dsp <= DSP_COUNT
        invariant Poll(device, h, RingWords, dsp * 32) == (true, history)
      {
        var ring := 0;
        while ring < RING_COUNT
          invariant ring <= RING_COUNT
          invariant Poll(device, h, RingWords, dsp * 32 + ring * 16) == (true, history)
        {
          var word := 0;
          while word < 16
            invariant word <= 16
            invariant Poll(device, h, RingWords, dsp * 32 + ring * 16 + word) == (true, history)
          {
            ghost var i := dsp * 32 + ring * 16 + word;
            RingWordTest(device, history, dsp, ring, word);
            var value := ReadRegister(RingBase(dsp, ring) + word * 4);
            if value != 0 {
              PollStopsAtFailure(device, h, RingWords, i + 1, CHECKED_WORDS);
              return false;
            }
            word := word + 1;
          }
          ring := ring + 1;
        }
        dsp := dsp + 1;
      }
      return true;
    }

    method ClearAllRings()
      modifies `history
      ensures history == Clear(old(history), CLEARED_WORDS)
    {
      hide RingBase;
      ghost var h := history;
      var dsp := 0;
      while dsp < DSP_COUNT
        invariant dsp <= DSP_COUNT
        invariant history == Clear(h, dsp * 20)
      {
        var ring := 0;
        while ring < RING_COUNT
          invariant ring <= RING_COUNT
          invariant history == Clear(h, dsp * 20 + ring * 10)
        {
          var word := 0;
          while word < 10
            invariant word <= 10
            invariant history == Clear(h, dsp * 20 + ring * 10 + word)
          {
            ClearedWord(dsp, ring, word);
            WriteRegister(RingBase(dsp, ring) + word * 4, 0);
            word := word + 1;
          }
          ring := ring + 1;
        }
        dsp := dsp + 1;
      }
    }

    method ColdPrecondition() returns (cold: bool)
      modifies `history
      ensures (cold, history) == ColdCheck(device, old(history))
    {
      var word := ReadRegister(DMA_CONTROL);
      if word != DMA_COLD_RESET { return false; }
      word := ReadRegister(INTERRUPT_ENABLE);
      if word != 0 { return false; }
      word := ReadRegister(FPGA_REVISION);
      if word != EXPECTED_FPGA_REVISION { return false; }
      word := ReadRegister(EXTENDED_CAPABILITIES);
      if word != EXPECTED_CAPABILITIES { return false; }
      cold := AllRingWordsZero();
      if cold { cold := AllDspsReady(); }
    }

    method InitializeRing(dsp: nat, ring: nat)
      requires PageTable(dma) && dsp < DSP_COUNT && ring < RING_COUNT
      modifies `history
      ensures history == InitRing(device, old(history), dma, dsp, ring)
    {
      hide RingBase, Low32, High32, Slot;
      var base := RingBase(dsp, ring);
      var index := ReadRegister(base + 0x28);
      if index >= RING_ENTRIES { index := 0; }
      WriteRegister(base + 0x24, index);
      WriteRegister(base + 0x20, index);
      ghost var seeded := history;
      var page := 0;
      while page < RING_PAGES
        invariant page <= RING_PAGES
        invariant history == Publish(seeded, dma, dsp, ring, page)
      {
        SlotInTable(dsp, ring, page);
        var address := dma[Slot(dsp, ring, page)];
        WriteRegister(base + page * 8, Low32(address));
        WriteRegister(base + page * 8 + 4, High32(address));
        page := page + 1;
      }
    }

    method RingsPublished() returns (published: bool)
      requires PageTable(dma)
      modifies `history
      ensures (published, history) == Poll(device, old(history), Descriptors(dma), PAGE_SLOTS)
    {
      hide RingBase, Inspect, Join32;
      ghost var h := history;
      var dsp := 0;
      while dsp < DSP_COUNT
        invariant dsp <= DSP_COUNT
        invariant Poll(device, h, Descriptors(dma), dsp * 8) == (true, history)
      {
        var ring := 0;
        while ring < RING_COUNT
          invariant ring <= RING_COUNT
          invariant Poll(device, h, Descriptors(dma), dsp * 8 + ring * 4) == (true, history)
        {
          var base := RingBase(dsp, ring);
          var page := 0;
          while page < RING_PAGES
            invariant page <= RING_PAGES
            invariant Poll(device, h, Descriptors(dma), dsp * 8 + ring * 4 + page) == (true, history)
          {
            ghost var i := dsp * 8 + ring * 4 + page;
            DescriptorTest(device, history, dma, dsp, ring, page);
            var low := ReadRegister(base + page * 8);
            var high := ReadRegister(base + page * 8 + 4);
            if Join32(low, high) != dma[Slot(dsp, ring, page)] {
              PollStopsAtFailure(device, h, Descriptors(dma), i + 1, PAGE_SLOTS);
              return false;
            }
            page := page + 1;
          }
          ring := ring + 1;
        }
        dsp := dsp + 1;
      }
      return true;
    }

    /** Start, as one sequence of register accesses. */
    method StartLocked() returns (code: Code)
      requires PageTable(dma)
      modifies `history, `started
      ensures Outcome(history, started, code) == Start(device, old(history), dma, old(started))
    {
      hide InitRing, Poll, Publish, ColdCheck, Clear, RingBase, Bit;
      if started { return Done; }
      var cold := ColdPrecondition();
      if !cold { return Busy; }
      history := Then(history, ZeroPages);
      history := Then(history, SetMaster);
      WriteRegister(NOTIFICATION_CONTROL, 0);
      WriteRegister(INTERRUPT_ENABLE, 0);
      WriteRegister(INTERRUPT_ACK, 0);
      WriteRegister(DMA_CONTROL, DMA_RESET_GLOBAL);
      WriteRegister(DMA_CONTROL, DMA_GLOBAL_ONLY);
      WriteRegister(INTERRUPT_ACK, ALL_ONES);
      ghost var ready := history;
      var dsp := 0;
      while dsp < DSP_COUNT
        invariant dsp <= DSP_COUNT && !started
        invariant history == InitDsps(device, ready, dma, dsp)
      {
        var ring := 0;
        ghost var before := history;
        while ring < RING_COUNT
          invariant ring <= RING_COUNT && !started
          invariant ring == 0 ==> history == before
          invariant ring == 1 ==> history == InitRing(device, before, dma, dsp, 0)
          invariant ring == 2 ==> history == InitRing(device, InitRing(device, before, dma, dsp, 0), dma, dsp, 1)
        {
          InitializeRing(dsp, ring);
          ring := ring + 1;
        }
        Pow2Monotone(dsp + 2, 9);
        SmallPow2();
        WriteRegister(DMA_CONTROL, Pow2(dsp + 2) - 1);
        dsp := dsp + 1;
      }
      var word := ReadRegister(DMA_CONTROL);
      word := ReadRegister(DMA_CONTROL);
      var good := word == DMA_ALL_DSPS;
      if good { good := RingsPublished(); }
      if good { good := AllDspsReady(); }
      if !good {
        WriteRegister(INTERRUPT_ENABLE, 0);
        WriteRegister(INTERRUPT_ACK, ALL_ONES);
        WriteRegister(DMA_CONTROL, DMA_RESET_GLOBAL);
        WriteRegister(DMA_CONTROL, DMA_GLOBAL_ONLY);
        ClearAllRings();
        WriteRegister(DMA_CONTROL, DMA_COLD_RESET);
        word := ReadRegister(DMA_CONTROL);
        history := Then(history, ClearMaster);
        return IoError;
      }
      started := true;
      return Done;
    }

    method StopLocked() returns (code: Code)
      modifies `history, `started
      ensures Outcome(history, started, code) == Stop(device, old(history), old(started))
    {
      if !started { return Done; }
      WriteRegister(INTERRUPT_ENABLE, 0);
      WriteRegister(INTERRUPT_ACK, ALL_ONES);
      WriteRegister(DMA_CONTROL, DMA_RESET_GLOBAL);
      WriteRegister(DMA_CONTROL, DMA_GLOBAL_ONLY);
      ClearAllRings();
      WriteRegister(DMA_CONTROL, DMA_COLD_RESET);
      var word := ReadRegister(DMA_CONTROL);
      history := Then(history, ClearMaster);
      started := false;
      var recovered := ColdPrecondition();
      return if recovered then Done else IoError;
    }

    method ResetDspLocked(dsp: nat, flags: nat) returns (code: Code, report: Option<ResetReport>)
      modifies `history
      ensures ResetOutcome(history, code, report) == Reset(device, old(history), started, dsp, flags)
    {
      if !started { return BrokenPipe, None; }
      if dsp >= DSP_COUNT || flags != 0 { return Invalid, None; }
      var before := ReadRegister(DMA_CONTROL);
      if before != DMA_ALL_DSPS { return Busy, None; }
      var enableBit := Pow2(dsp + 1);
      var resetBit := Pow2(dsp + 9);
      var disabled := AndNot(before, enableBit);
      PulseValues(dsp);
      WriteRegister(DMA_CONTROL, Or(disabled, resetBit));
      WriteRegister(DMA_CONTROL, disabled);
      history := Then(history, Sleep);
      var word := ReadRegister(ReadyOffset(dsp));
      var readyAfterPulse := word % 2 == 1;
      WriteRegister(DMA_CONTROL, before);
      word := ReadRegister(DMA_CONTROL);
      var after := ReadRegister(DMA_CONTROL);
      word := ReadRegister(ReadyOffset(dsp));
      var readyAfter := word % 2 == 1;
      report := Some(ResetReport(before, after, readyAfter));
      if !readyAfterPulse || after != before || !readyAfter { return IoError, report; }
      return Done, report;
    }

    method ReadStatus(dsp: nat) returns (status: Reply)
      modifies `history
      ensures history == StatusReads(device, old(history), dsp)
      ensures status == StatusOf(device, old(history), dsp)
    {
      var commandBase := Bank(dsp);
      var responseBase := commandBase + 0x40;
      var control := ReadRegister(DMA_CONTROL);
      var raw := ReadRegister(ReadyOffset(dsp));
      var commandRead := ReadRegister(commandBase + 0x28);
      var commandWrite := ReadRegister(commandBase + 0x24);
      var responseRead := ReadRegister(responseBase + 0x28);
      var responseWrite := ReadRegister(responseBase + 0x24);
      status := Status(raw, raw % 2 == 1, Enabled(control, dsp),
                       commandRead, commandWrite, responseRead, responseWrite);
    }

    /** The commands, each with its ways out. */
    method Dispatch(request: Request) returns (code: Code, reply: Option<Reply>)
      requires PageTable(dma) && !removing && !request.ForeignMagic?
      modifies `history, `started
      ensures (View(), code) == Ioctl(device, old(View()), request)
      ensures reply == Answer(device, old(View()), request)
    {
      hide Start, Stop, Reset, StatusReads, StatusOf;
      code, reply := Done, None;
      match request
      case GetInfo(copyOut) =>
        var revision := ReadRegister(FPGA_REVISION);
        var capabilities := ReadRegister(EXTENDED_CAPABILITIES);
        if !copyOut { return Fault, None; }
        reply := Some(Info(revision, capabilities, DSP_COUNT, started));
      case DspStatus(copyIn, sizeOk, dsp, copyOut) =>
        if !copyIn { return Fault, None; }
        if !sizeOk || dsp >= DSP_COUNT { return Invalid, None; }
        var status := ReadStatus(dsp);
        if !copyOut { return Fault, None; }
        reply := Some(status);
      case StartTransport(capable) =>
        if !capable { return NotPermitted, None; }
        code := StartLocked();
      case StopTransport(capable) =>
        if !capable { return NotPermitted, None; }
        code := StopLocked();
      case ResetDsp(capable, copyIn, sizeOk, dsp, flags, copyOut) =>
        if !capable { return NotPermitted, None; }
        if !copyIn { return Fault, None; }
        if !sizeOk { return Invalid, None; }
        var report;
        code, report := ResetDspLocked(dsp, flags);
        if code == Done && !copyOut { return Fault, None; }
        if code == Done && report.Some? { reply := Some(ResetDone(report.value)); }
      case UnknownCommand =>
        code := NotTty;
      case ForeignMagic =>
        code := NotTty;
    }

    /** One request: refused for a foreign magic, or under the lock once removal has
        begun, and dispatched otherwise. */
    method HandleIoctl(request: Request) returns (code: Code, reply: Option<Reply>)
      requires Valid() && files > 0
      modifies `history, `started
      ensures (View(), code) == Ioctl(device, old(View()), request)
      ensures reply == Answer(device, old(View()), request)
      ensures RequestAnswers.Answered(old(View()), request, View(), code, reply)
      ensures Valid()
    {
      hide RequestAnswers.Answered, PhaseInvariant, Contained, Safe;
      IoctlKeeps(device, View(), request);
      RequestAnswers.IoctlAnswers(device, View(), request);
      if request.ForeignMagic? { return NotTty, None; }
      if removing { return NoDevice, None; }
      assert PageTable(dma);
      code, reply := Dispatch(request);
    }

    method OpenFile() returns (code: Code)
      requires Valid()
      modifies `refcount, `files
      ensures (View(), code) == Open(old(View())) && Valid()
    {
      if removing || refcount == 0 { return NoDevice; }
      refcount, files := refcount + 1, files + 1;
      return Done;
    }

    method KrefPut()
      requires refcount > 0
      modifies `history, `refcount
      ensures refcount == old(refcount) - 1
      ensures history == if old(refcount) == 1 then ReleaseDevice(old(history), named) else old(history)
    {
      refcount := refcount - 1;
      if refcount == 0 {
        if named { history := Then(history, Release(Name)); }
        history := Then(history, Release(Memory));
      }
    }

    method ReleaseFile()
      requires Valid() && files > 0 && refcount > 0
      modifies `history, `refcount, `files
      ensures View() == Close(old(View())) && Valid()
    {
      ghost var before := View();
      ActKeeps(device, before, CloseFile);
      KrefPut();
      files := files - 1;
    }

    method FreeAllPages()
      requires |present| == PAGE_SLOTS
      modifies `history, `present
      ensures history == Free(old(history), old(present), PAGE_SLOTS)
      ensures present == seq(PAGE_SLOTS, _ => false)
    {
      ghost var h, was := history, present;
      var slot := 0;
      while slot < PAGE_SLOTS
        invariant slot <= PAGE_SLOTS == |present|
        invariant history == Free(h, was, slot)
        invariant forall i | 0 <= i < PAGE_SLOTS :: present[i] == (i >= slot && was[i])
      {
        if present[slot] {
          history := Then(history, FreePage(slot));
          present := present[slot := false];
        }
        slot := slot + 1;
      }
    }

    method AllocatePages(pages: seq<Option<Address>>) returns (ok: bool)
      requires |pages| == |present| == |dma| == PAGE_SLOTS && present == FirstPresent(0)
      modifies `history, `present, `dma
      ensures (ok, history) == Allocate(old(history), pages, PAGE_SLOTS)
      ensures present == FirstPresent(Granted(pages))
      ensures |dma| == PAGE_SLOTS && (ok ==> dma == Addresses(pages) && present == AllPresent())
    {
      ghost var h := history;
      var slot := 0;
      while slot < PAGE_SLOTS
        invariant slot <= Granted(pages) && |dma| == PAGE_SLOTS
        invariant Allocate(h, pages, slot) == (true, history)
        invariant present == FirstPresent(slot)
        invariant forall i | 0 <= i < slot :: dma[i] == Addresses(pages)[i]
      {
        if pages[slot].None? {
          AllocationStops(h, pages, slot + 1, PAGE_SLOTS);
          return false;
        }
        dma := dma[slot := pages[slot].value];
        history := Then(history, AllocPage(slot, pages[slot].value));
        present := present[slot := true];
        slot := slot + 1;
      }
      return true;
    }

    /** The rest of a probe, with its chain of unwinding labels. */
    method SetUpDevice(calls: ProbeCalls) returns (code: Code)
      requires WellFormedCalls(calls) && refcount == 1 && !named
      requires |dma| == PAGE_SLOTS && present == seq(PAGE_SLOTS, _ => false)
      modifies `history, `dma, `present, `named, `refcount
      ensures (history, code) == SetUp(device, old(history), calls)
      ensures code == Done ==> dma == Addresses(calls.pages) && present == AllPresent() && named && refcount == 1
    {
      hide ColdCheck, Allocate, Free, Granted;
      assert present == FirstPresent(0);
      history := Then(history, Acquire(DriverData));
      label putDevice: {
        label disableDevice: {
          label releaseRegion: {
            label unmapBar: {
              label freePages: {
                if calls.enable != 0 { code := Failed(calls.enable); break putDevice; }
                history := Then(history, Acquire(PciEnabled));
                if calls.region != 0 { code := Failed(calls.region); break disableDevice; }
                history := Then(history, Acquire(Region));
                if calls.mask != 0 { code := Failed(calls.mask); break releaseRegion; }
                if !calls.barOk { code := NoMemory; break releaseRegion; }
                history := Then(history, Acquire(Bar));
                var cold := ColdPrecondition();
                if !cold { code := Busy; break unmapBar; }
                var granted := AllocatePages(calls.pages);
                if !granted { code := NoMemory; break freePages; }
                if !calls.nameOk { code := NoMemory; break freePages; }
                named := true;
                history := Then(history, Acquire(Name));
                if calls.register != 0 { code := Failed(calls.register); break freePages; }
                history := Then(history, Acquire(Misc));
                return Done;
              }
              FreeAllPages();
            }
            history := Then(history, Release(Bar));
          }
          history := Then(history, Release(Region));
        }
        history := Then(history, Release(PciEnabled));
      }
      history := Then(history, Release(DriverData));
      KrefPut();
    }

    method BeginRemove()
      requires Valid() && phase == Bound
      modifies `history, `phase
      ensures View() == Deregister(old(View())) && Valid()
    {
      DeregisterKeeps(View());
      history := Then(history, Release(Misc));
      phase := Deregistered;
    }

    method LockedRemove()
      requires Valid() && phase == Deregistered
      modifies `history, `started, `removing, `present, `phase
      ensures View() == TearDown(device, old(View())) && Valid()
    {
      TearDownKeeps(device, View());
      removing := true;
      var stopResult := StopLocked();
      FreeAllPages();
      history := Then(history, Release(Bar));
      history := Then(history, Release(Region));
      history := Then(history, Release(PciEnabled));
      history := Then(history, Release(DriverData));
      phase := TornDown;
    }

    method FinishRemove()
      requires Valid() && phase == TornDown && refcount > 0
      modifies `history, `refcount, `phase
      ensures View() == Put(old(View())).(phase := Gone) && Valid()
    {
      ActKeeps(device, View(), LifecycleSpec.FinishRemove);
      KrefPut();
      phase := Gone;
    }
  }

  lemma SlotInTable(dsp: nat, ring: nat, page: nat)
    requires dsp < DSP_COUNT && ring < RING_COUNT && page < RING_PAGES
    ensures Slot(dsp, ring, page) < PAGE_SLOTS
  {}

  lemma DescriptorTest(dev: Device, h: History, dma: seq<Address>, dsp: nat, ring: nat, page: nat)
    requires PageTable(dma) && dsp < DSP_COUNT && ring < RING_COUNT && page < RING_PAGES
    ensures var low := RingBase(dsp, ring) + page * 8;
            var g := Observe(dev, h, low);
            Inspect(dev, h, Descriptors(dma), Slot(dsp, ring, page))
            == (Join32(dev(h, low), dev(g, low + 4)) == dma[Slot(dsp, ring, page)], Observe(dev, g, low + 4))
  {
    hide RingBase, Join32;
    var i := Slot(dsp, ring, page);
    assert i / 4 == dsp * 2 + ring;
    assert i / 8 == dsp && i % 4 == page;
  }

  lemma {:induction false} AllocationStops(h: History, pages: seq<Option<Address>>, n: nat, m: nat)
    requires n <= m <= |pages| && !Allocate(h, pages, n).0
    ensures Allocate(h, pages, m) == Allocate(h, pages, n)
    decreases m
  {
    if n < m { AllocationStops(h, pages, n, m - 1); }
  }

  method ProbeDevice(device: Device, calls: ProbeCalls) returns (code: Code, history: History, bound: UadDevice?)
    requires WellFormedCalls(calls)
    ensures (history, code) == Probe(device, calls)
    ensures bound != null <==> code == Done
    ensures bound != null ==>
              fresh(bound) && bound.device == device && bound.Valid() && bound.View() == FreshDriver(device, calls)
  {
    ProbeIsSafe(device, calls);
    hide Invariant, Safe, Contained, State, NothingHeld, SetUp;
    if !calls.pageSizeOk { return Unsupported, Boot, null; }
    if !calls.barLengthOk { return Invalid, Boot, null; }
    if !calls.memoryOk { return NoMemory, Boot, null; }
    var d := new UadDevice(device);
    code := d.SetUpDevice(calls);
    history := d.history;
    bound := if code == Done then d else null;
  }
}
