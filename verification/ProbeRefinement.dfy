/** From a successful probe on: a well-behaved device that a probe accepted is at
    rest, so every sequence of requests is answered like the two-state machine. */
module ProbeRefinement {
  import opened Common
  import opened Machine
  import opened TransportSpec
  import opened TransportSafety
  import opened TransportRefinement
  import opened SilentDevice
  import opened LifecycleSpec
  import opened LifecycleSafety

  lemma SilentColdCheck(dev: Device, h: History)
    requires Silent(h)
    ensures Silent(ColdCheck(dev, h).1)
  {
    var h1 := Observe(dev, h, DMA_CONTROL);
    var h2 := Observe(dev, h1, INTERRUPT_ENABLE);
    var h4 := Observe(dev, Observe(dev, h2, FPGA_REVISION), EXTENDED_CAPABILITIES);
    assert Silent(h1) && Silent(h2) && Silent(Observe(dev, h2, FPGA_REVISION));
    SilentPoll(dev, h4, RingWords, CHECKED_WORDS);
    SilentPoll(dev, Poll(dev, h4, RingWords, CHECKED_WORDS).1, ReadyWords, DSP_COUNT);
  }

  lemma {:induction false} SilentAllocate(h: History, pages: seq<Option<Address>>, n: nat)
    requires Silent(h) && n <= |pages|
    ensures Silent(Allocate(h, pages, n).1)
  {
    if n > 0 {
      SilentAllocate(h, pages, n - 1);
    }
  }

  lemma ColdPassed(dev: Device, h: History)
    requires Benign(dev) && Silent(h) && ColdCheck(dev, h).0
    ensures AtRest(dev, Boot)
  {
    hide Benign, Plain, Stable, Poll, AtRest, FirstWord;
    ControlIsPlain();
    var h1 := Observe(dev, h, DMA_CONTROL);
    var h2 := Observe(dev, h1, INTERRUPT_ENABLE);
    var h3 := Observe(dev, h2, FPGA_REVISION);
    var h4 := Observe(dev, h3, EXTENDED_CAPABILITIES);
    assert Silent(h1) && Silent(h2) && Silent(h3);
    SilentView(dev, h);
    SilentView(dev, h1);
    SilentView(dev, h2);
    SilentView(dev, h3);
    SilentPoll(dev, h4, RingWords, CHECKED_WORDS);
    PolledRest(dev, h4, Poll(dev, h4, RingWords, CHECKED_WORDS).1);
  }

  /** On a device nothing was written to, the cold check passes exactly when the
      device was at rest from the start. */
  lemma ColdMeansRest(dev: Device, h: History)
    requires Benign(dev) && Silent(h)
    ensures ColdCheck(dev, h).0 <==> AtRest(dev, Boot)
  {
    hide Benign, AtRest, ColdCheck, Silent;
    SilentRest(dev, h);
    if AtRest(dev, Boot) {
      RestPassesColdCheck(dev, h);
    }
    if ColdCheck(dev, h).0 {
      ColdPassed(dev, h);
    }
  }

  // ---------- the probe ----------

  /** Every kernel call of the probe succeeds. */
  predicate CallsSucceed(c: ProbeCalls) {
    && c.pageSizeOk && c.barLengthOk && c.memoryOk && c.enable == 0 && c.region == 0 && c.mask == 0
    && c.barOk && (forall page <- c.pages :: page.Some?) && c.nameOk && c.register == 0
  }

  lemma {:induction false} AllGranted(pages: seq<Option<Address>>)
    ensures Granted(pages) == |pages| <==> forall page <- pages :: page.Some?
  {
    if pages != [] && pages[0].Some? {
      AllGranted(pages[1..]);
      assert pages == [pages[0]] + pages[1..];
    }
  }

  /** A probe of a well-behaved device succeeds exactly when the kernel grants all
      it asks for and the device is at rest. */
  lemma ProbeSucceeds(dev: Device, c: ProbeCalls)
    requires Benign(dev) && WellFormedCalls(c)
    ensures Probe(dev, c).1 == Done <==> CallsSucceed(c) && AtRest(dev, Boot)
  {
    AllGranted(c.pages);
    AllocationStage(dev, c);
    ColdMeansRest(dev, Mapped());
    hide ColdCheck, Allocate, AtRest, Benign, State, NothingButPages, Granted;
  }

  lemma SilentProbe(dev: Device, c: ProbeCalls)
    requires WellFormedCalls(c) && Probe(dev, c).1 == Done
    ensures Silent(Probe(dev, c).0)
  {
    var h := Mapped();
    SilentColdCheck(dev, h);
    SilentAllocate(ColdCheck(dev, h).1, c.pages, PAGE_SLOTS);
    hide ColdCheck, Allocate;
  }

  /** A device that a probe accepted is at rest behind it, with the driver's pages
      in place. */
  lemma ProbeRests(dev: Device, c: ProbeCalls)
    requires Benign(dev) && WellFormedCalls(c) && Probe(dev, c).1 == Done
    ensures RestMode(dev, Probe(dev, c).0, Addresses(c.pages))
  {
    hide Benign, AtRest, Silent, Probe, Safe, Contained, State, Stopped, Running;
    ProbeSucceeds(dev, c);
    ProbeIsSafe(dev, c);
    SilentProbe(dev, c);
    SilentRest(dev, Probe(dev, c).0);
  }

  // ---------- requests ----------

  /** The request that makes a call, by a caller with the capability. */
  function AsRequest(call: Call): Request {
    match call
    case StartCall => StartTransport(true)
    case StopCall => StopTransport(true)
    case ResetCall(dsp, flags) => ResetDsp(true, true, true, dsp, flags, true)
  }

  /** The codes a driver answers to a sequence of requests. */
  function RequestCodes(dev: Device, d: Driver, calls: seq<Call>): seq<Code>
    requires PageTable(d.dma)
    decreases calls
  {
    if calls == [] then []
    else
      var (next, code) := Ioctl(dev, d, AsRequest(calls[0]));
      [code] + RequestCodes(dev, next, calls[1..])
  }

  lemma {:induction false} RequestsAreCalls(dev: Device, d: Driver, calls: seq<Call>)
    requires PageTable(d.dma) && !d.removing
    ensures RequestCodes(dev, d, calls) == DriverCodes(dev, d.history, d.dma, d.started, calls)
    decreases calls
  {
    hide Start, Stop, Reset;
    if calls != [] {
      RequestsAreCalls(dev, Ioctl(dev, d, AsRequest(calls[0])).0, calls[1..]);
    }
  }

  /** After a successful probe of a well-behaved device, every sequence of start,
      stop and reset requests is answered like the two-state machine, which begins
      stopped. */
  lemma BoundDriverRefinesMachine(dev: Device, c: ProbeCalls, calls: seq<Call>)
    requires Benign(dev) && WellFormedCalls(c) && Probe(dev, c).1 == Done
    ensures RequestCodes(dev, FreshDriver(dev, c), calls) == AbstractCodes(AtStop, calls)
  {
    hide Benign, RestMode, RequestCodes, DriverCodes, AbstractCodes, Probe;
    ProbeRests(dev, c);
    RequestsAreCalls(dev, FreshDriver(dev, c), calls);
    DriverRefinesMachine(dev, Probe(dev, c).0, Addresses(c.pages), AtStop, calls);
  }

  /** What a status request tells of a well-behaved device: ready, no work pending,
      and DMA enabled exactly while the transport runs. */
  lemma StatusTells(dev: Device, h: History, dma: seq<Address>, mode: Mode, dsp: nat)
    requires Benign(dev) && InMode(dev, h, dma, mode) && dsp < DSP_COUNT
    ensures var raw := dev(Observe(dev, h, DMA_CONTROL), ReadyOffset(dsp));
            StatusOf(dev, h, dsp) == Status(raw, true, mode.AtRun?, 0, 0, 0, 0)
  {
    EngineBits(dsp);
    ControlIs(dev, h, dma, mode);
    hide Benign, Parked, InMode, Enabled, Bank, RingBase, ReadyOffset;
    RingBases(dsp);
    ParkedObserve(dev, h, DMA_CONTROL);
    var h1 := Observe(dev, h, DMA_CONTROL);
    ReadyNow(dev, h1, dsp);
    ParkedObserve(dev, h1, ReadyOffset(dsp));
    var h2 := Observe(dev, h1, ReadyOffset(dsp));
    RingTells(dev, h2, dsp, 0);
    RingTells(dev, Observe(dev, Observe(dev, h2, Bank(dsp) + 0x28), Bank(dsp) + 0x24), dsp, 1);
  }

  lemma RingTells(dev: Device, h: History, dsp: nat, ring: nat)
    requires Benign(dev) && Parked(dev, h) && dsp < DSP_COUNT && ring < RING_COUNT
    ensures var g := Observe(dev, h, RingBase(dsp, ring) + 0x28);
            && dev(h, RingBase(dsp, ring) + 0x28) == 0 && dev(g, RingBase(dsp, ring) + 0x24) == 0
            && Parked(dev, Observe(dev, g, RingBase(dsp, ring) + 0x24))
  {
    hide Benign, Parked, RingBase;
    IndexReadsZero(dev, h, dsp, ring);
    ParkedObserve(dev, h, RingBase(dsp, ring) + 0x28);
    var g := Observe(dev, h, RingBase(dsp, ring) + 0x28);
    PositionReadsZero(dev, g, dsp, ring, 1);
    ParkedObserve(dev, g, RingBase(dsp, ring) + 0x24);
  }

  lemma RingBases(dsp: nat)
    ensures RingBase(dsp, 0) == Bank(dsp) && RingBase(dsp, 1) == Bank(dsp) + 0x40
  {}

  lemma ReadyNow(dev: Device, h: History, dsp: nat)
    requires Parked(dev, h) && dsp < DSP_COUNT
    ensures dev(h, ReadyOffset(dsp)) % 2 == 1
  {}

  lemma ControlIs(dev: Device, h: History, dma: seq<Address>, mode: Mode)
    requires InMode(dev, h, dma, mode)
    ensures Parked(dev, h)
    ensures dev(h, DMA_CONTROL) == if mode.AtRun? then DMA_ALL_DSPS else DMA_COLD_RESET
  {
    assert Plain(DMA_CONTROL);
    hide Safe, Contained, Owned;
  }

  /** The hypotheses can be met: a device that stores what is written is accepted by
      every probe whose kernel calls succeed. */
  lemma StoreIsAccepted(c: ProbeCalls)
    requires WellFormedCalls(c) && CallsSucceed(c)
    ensures var dev: Device := (h, offset) => Store(h, offset); Benign(dev) && Probe(dev, c).1 == Done
  {
    StoreIsBenign();
    hide Benign, AtRest, Probe;
    ProbeSucceeds((h, offset) => Store(h, offset), c);
  }
}
