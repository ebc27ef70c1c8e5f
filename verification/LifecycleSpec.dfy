/** The device's life from probe to the last release, as functions of what the
    device answers and of which kernel calls succeed. */
module LifecycleSpec {
  import opened Common
  import opened Machine
  import opened TransportSpec

  /** The outcome of every kernel call a probe makes; 0 is success. */
  datatype ProbeCalls = ProbeCalls(
    pageSizeOk: bool, barLengthOk: bool, memoryOk: bool, enable: int, region: int, mask: int,
    barOk: bool, pages: seq<Option<Address>>, nameOk: bool, register: int)

  predicate WellFormedCalls(c: ProbeCalls) {
    |c.pages| == PAGE_SLOTS
  }

  /** The first `n` page allocations, stopping at the first that fails. */
  function Allocate(h: History, pages: seq<Option<Address>>, n: nat): (bool, History)
    requires n <= |pages|
  {
    if n == 0 then (true, h)
    else
      var (ok, g) := Allocate(h, pages, n - 1);
      if !ok || pages[n - 1].None? then (false, g)
      else (true, Then(g, AllocPage(n - 1, pages[n - 1].value)))
  }

  /** How many leading allocations succeed. */
  function Granted(pages: seq<Option<Address>>): (n: nat)
    ensures n <= |pages|
    ensures forall i | 0 <= i < n :: pages[i].Some?
    ensures n < |pages| ==> pages[n].None?
  {
    if pages == [] || pages[0].None? then 0 else 1 + Granted(pages[1..])
  }

  /** The addresses recorded in the page table; a page never granted has none. */
  function Addresses(pages: seq<Option<Address>>): seq<Address> {
    seq(|pages|, i requires 0 <= i < |pages| => if pages[i].Some? then pages[i].value else 0)
  }

  /** Freeing those of the first `n` pages that are present. */
  function Free(h: History, present: seq<bool>, n: nat): History
    requires n <= |present|
  {
    if n == 0 then h
    else if present[n - 1] then Then(Free(h, present, n - 1), FreePage(n - 1))
    else Free(h, present, n - 1)
  }

  function AllPresent(): seq<bool> {
    seq(PAGE_SLOTS, _ => true)
  }

  function FirstPresent(n: nat): seq<bool> {
    seq(PAGE_SLOTS, i => i < n)
  }

  /** The last reference is gone: the name and the structure are freed. */
  function ReleaseDevice(h: History, named: bool): History {
    Then(if named then Then(h, Release(Name)) else h, Release(Memory))
  }

  function PutDevice(h: History, named: bool): History {
    ReleaseDevice(Then(h, Release(DriverData)), named)
  }

  function DisableDevice(h: History, named: bool): History {
    PutDevice(Then(h, Release(PciEnabled)), named)
  }

  function ReleaseRegion(h: History, named: bool): History {
    DisableDevice(Then(h, Release(Region)), named)
  }

  function UnmapBar(h: History, named: bool): History {
    ReleaseRegion(Then(h, Release(Bar)), named)
  }

  function FreePages(h: History, present: seq<bool>, named: bool): History
    requires |present| == PAGE_SLOTS
  {
    UnmapBar(Free(h, present, PAGE_SLOTS), named)
  }

  /** A probe, from an empty history. */
  function Probe(dev: Device, c: ProbeCalls): (History, Code)
    requires WellFormedCalls(c)
  {
    if !c.pageSizeOk then (Boot, Unsupported) else
    if !c.barLengthOk then (Boot, Invalid) else
    if !c.memoryOk then (Boot, NoMemory) else
    SetUp(dev, Then(Boot, Acquire(Memory)), c)
  }

  /** The rest of a probe, once the structure exists. */
  function SetUp(dev: Device, memory: History, c: ProbeCalls): (History, Code)
    requires WellFormedCalls(c)
  {
    var h := Then(memory, Acquire(DriverData));
    if c.enable != 0 then (PutDevice(h, false), Failed(c.enable)) else
    var h1 := Then(h, Acquire(PciEnabled));
    if c.region != 0 then (DisableDevice(h1, false), Failed(c.region)) else
    var h2 := Then(h1, Acquire(Region));
    if c.mask != 0 then (ReleaseRegion(h2, false), Failed(c.mask)) else
    if !c.barOk then (ReleaseRegion(h2, false), NoMemory) else
    var (cold, h3) := ColdCheck(dev, Then(h2, Acquire(Bar)));
    if !cold then (UnmapBar(h3, false), Busy) else
    var (all, h4) := Allocate(h3, c.pages, PAGE_SLOTS);
    if !all then (FreePages(h4, FirstPresent(Granted(c.pages)), false), NoMemory) else
    if !c.nameOk then (FreePages(h4, AllPresent(), false), NoMemory) else
    var h5 := Then(h4, Acquire(Name));
    if c.register != 0 then (FreePages(h5, AllPresent(), true), Failed(c.register)) else
    (Then(h5, Acquire(Misc)), Done)
  }

  /** Where a bound device stands on its way out. */
  datatype Phase = Bound | Deregistered | TornDown | Gone

  datatype Driver = Driver(
    history: History, dma: seq<Address>, started: bool, removing: bool,
    refs: nat, files: nat, phase: Phase)

  datatype Request =
    | GetInfo(copyOut: bool)
    | DspStatus(copyIn: bool, sizeOk: bool, dsp: nat, copyOut: bool)
    | StartTransport(capable: bool)
    | StopTransport(capable: bool)
    | ResetDsp(capable: bool, copyIn: bool, sizeOk: bool, dsp: nat, flags: nat, copyOut: bool)
    | UnknownCommand
    | ForeignMagic

  /** The six reads of a status request. */
  function StatusReads(dev: Device, h: History, dsp: nat): History {
    var h1 := Observe(dev, h, DMA_CONTROL);
    var h2 := Observe(dev, h1, ReadyOffset(dsp));
    var h3 := Observe(dev, h2, Bank(dsp) + 0x28);
    var h4 := Observe(dev, h3, Bank(dsp) + 0x24);
    var h5 := Observe(dev, h4, Bank(dsp) + 0x40 + 0x28);
    Observe(dev, h5, Bank(dsp) + 0x40 + 0x24)
  }

  /** What a request copies back to its caller, but for constants and the PCI
      identity. */
  datatype Reply =
    | Info(fpgaRevision: Word, extendedCapabilities: Word, dspCount: nat, transportStarted: bool)
    | Status(
        rawReadyWord: Word, ready: bool, dmaEnabled: bool,
        commandRead: Word, commandWrite: Word, responseRead: Word, responseWrite: Word)
    | ResetDone(report: ResetReport)

  function StatusOf(dev: Device, h: History, dsp: nat): Reply {
    var control := dev(h, DMA_CONTROL);
    var h1 := Observe(dev, h, DMA_CONTROL);
    var raw := dev(h1, ReadyOffset(dsp));
    var h2 := Observe(dev, h1, ReadyOffset(dsp));
    var h3 := Observe(dev, h2, Bank(dsp) + 0x28);
    var h4 := Observe(dev, h3, Bank(dsp) + 0x24);
    var h5 := Observe(dev, h4, Bank(dsp) + 0x40 + 0x28);
    Status(raw, raw % 2 == 1, Enabled(control, dsp),
           dev(h2, Bank(dsp) + 0x28), dev(h3, Bank(dsp) + 0x24),
           dev(h4, Bank(dsp) + 0x40 + 0x28), dev(h5, Bank(dsp) + 0x40 + 0x24))
  }

  /** The reply to a request, if it has one that reaches the caller. */
  function Answer(dev: Device, s: Driver, r: Request): Option<Reply> {
    if s.removing then None else
    match r
    case GetInfo(true) =>
      Some(Info(dev(s.history, FPGA_REVISION),
                dev(Observe(dev, s.history, FPGA_REVISION), EXTENDED_CAPABILITIES), DSP_COUNT, s.started))
    case DspStatus(true, true, dsp, true) =>
      if dsp < DSP_COUNT then Some(StatusOf(dev, s.history, dsp)) else None
    case ResetDsp(true, true, true, dsp, flags, true) =>
      var o := Reset(dev, s.history, s.started, dsp, flags);
      if o.code == Done && o.report.Some? then Some(ResetDone(o.report.value)) else None
    case _ => None
  }

  function Ioctl(dev: Device, s: Driver, r: Request): (Driver, Code)
    requires PageTable(s.dma)
  {
    if r.ForeignMagic? then (s, NotTty) else
    if s.removing then (s, NoDevice) else
    match r
    case GetInfo(copyOut) =>
      (s.(history := Observe(dev, Observe(dev, s.history, FPGA_REVISION), EXTENDED_CAPABILITIES)),
       if copyOut then Done else Fault)
    case DspStatus(copyIn, sizeOk, dsp, copyOut) =>
      if !copyIn then (s, Fault) else
      if !sizeOk || dsp >= DSP_COUNT then (s, Invalid) else
      (s.(history := StatusReads(dev, s.history, dsp)), if copyOut then Done else Fault)
    case StartTransport(capable) =>
      if !capable then (s, NotPermitted) else
      var o := Start(dev, s.history, s.dma, s.started);
      (s.(history := o.history, started := o.started), o.code)
    case StopTransport(capable) =>
      if !capable then (s, NotPermitted) else
      var o := Stop(dev, s.history, s.started);
      (s.(history := o.history, started := o.started), o.code)
    case ResetDsp(capable, copyIn, sizeOk, dsp, flags, copyOut) =>
      if !capable then (s, NotPermitted) else
      if !copyIn then (s, Fault) else
      if !sizeOk then (s, Invalid) else
      var o := Reset(dev, s.history, s.started, dsp, flags);
      (s.(history := o.history), if o.code == Done && !copyOut then Fault else o.code)
    case UnknownCommand => (s, NotTty)
    case ForeignMagic => (s, NotTty)
  }

  function Open(s: Driver): (Driver, Code) {
    if s.removing || s.refs == 0 then (s, NoDevice)
    else (s.(refs := s.refs + 1, files := s.files + 1), Done)
  }

  /** Dropping one reference; the last one frees the name and the structure. */
  function Put(s: Driver): Driver
    requires s.refs > 0
  {
    s.(refs := s.refs - 1,
       history := if s.refs == 1 then ReleaseDevice(s.history, true) else s.history)
  }

  function Close(s: Driver): Driver
    requires s.refs > 0 && s.files > 0
  {
    Put(s).(files := s.files - 1)
  }

  function Deregister(s: Driver): Driver {
    s.(history := Then(s.history, Release(Misc)), phase := Deregistered)
  }

  /** The part of a removal that runs under the lock. */
  function TearDown(dev: Device, s: Driver): Driver
    requires PageTable(s.dma)
  {
    var o := Stop(dev, s.history, s.started);
    var freed := Free(o.history, AllPresent(), PAGE_SLOTS);
    var released := Then(Then(Then(Then(freed,
      Release(Bar)),
      Release(Region)),
      Release(PciEnabled)),
      Release(DriverData));
    s.(history := released,
       started := o.started, removing := true, phase := TornDown)
  }

  datatype Action =
    | OpenFile
    | Ask(request: Request)
    | CloseFile
    | BeginRemove
    | LockedRemove
    | FinishRemove

  /** What can happen next. An open may arrive as long as the structure exists,
      a request or close needs an open file, and removal runs in its three parts. */
  predicate Possible(s: Driver, a: Action) {
    match a
    case OpenFile => s.refs > 0
    case Ask(_) => s.files > 0 && PageTable(s.dma)
    case CloseFile => s.files > 0 && s.refs > 0
    case BeginRemove => s.phase == Bound
    case LockedRemove => s.phase == Deregistered && PageTable(s.dma)
    case FinishRemove => s.phase == TornDown && s.refs > 0
  }

  function Act(dev: Device, s: Driver, a: Action): Driver
    requires Possible(s, a)
  {
    match a
    case OpenFile => Open(s).0
    case Ask(r) => Ioctl(dev, s, r).0
    case CloseFile => Close(s)
    case BeginRemove => Deregister(s)
    case LockedRemove => TearDown(dev, s)
    case FinishRemove => Put(s).(phase := Gone)
  }
}
