/** Lifecycle safety over all interleavings of open, request, close and removal. */
module LifecycleSafety {
  import opened Common
  import opened Bits
  import opened Machine
  import opened TransportSpec
  import opened TransportSafety
  import opened LifecycleSpec

  const BOUND_RESOURCES: set<Resource> := {Memory, DriverData, PciEnabled, Region, Bar, Name}

  /** Pages gone, engines cold, mastering off. */
  ghost predicate Detached(s: Hardware) {
    s.pages == map[] && Cold(s) && !s.master
  }

  ghost predicate PhaseInvariant(d: Driver, s: Hardware) {
    match d.phase
    case Bound =>
      && !d.removing && d.refs == d.files + 1 && s.frees == 0
      && s.held == BOUND_RESOURCES + {Misc}
      && if d.started then Running(s, d.dma) else Stopped(s, d.dma)
    case Deregistered =>
      && !d.removing && d.refs == d.files + 1 && s.frees == 0
      && s.held == BOUND_RESOURCES
      && if d.started then Running(s, d.dma) else Stopped(s, d.dma)
    case TornDown =>
      && d.removing && !d.started && d.refs == d.files + 1 && s.frees == 0
      && s.held == {Memory, Name} && Detached(s)
    case Gone =>
      && d.removing && !d.started && d.refs == d.files && Detached(s)
      && s.frees == (if d.refs == 0 then 1 else 0)
      && s.held == if d.refs == 0 then {} else {Memory, Name}
  }

  /** What holds whenever the lock is free. */
  ghost predicate Invariant(d: Driver) {
    && PageTable(d.dma) && Safe(d.history) && Contained(State(d.history))
    && PhaseInvariant(d, State(d.history))
  }

  /** With the engines cold, any legal step that leaves registers alone is safe. */
  lemma ColdStep(h: History, e: Event)
    requires Safe(h) && Cold(State(h)) && Legal(State(h), e) && !e.Write?
    ensures var g := Then(h, e);
            Safe(g) && Contained(State(g)) && State(g) == Step(State(h), e) && Cold(State(g))
  {
    hide Bit;
    ColdIsContained(State(Then(h, e)));
  }

  lemma {:induction false} FreeKeeps(h: History, present: seq<bool>, n: nat)
    requires Safe(h) && Contained(State(h)) && Cold(State(h)) && !State(h).master && n <= |present|
    requires forall i | 0 <= i < |present| :: present[i] <==> i in State(h).pages
    ensures var g := Free(h, present, n);
            && Safe(g) && Contained(State(g)) && Cold(State(g))
            && State(g) == State(h).(pages := State(g).pages)
            && forall i :: i in State(g).pages <==> i in State(h).pages && n <= i
  {
    hide Bit, Contained, Safe, State;
    if n > 0 {
      FreeKeeps(h, present, n - 1);
      if present[n - 1] {
        ColdStep(Free(h, present, n - 1), FreePage(n - 1));
      }
    }
  }

  /** Freeing every page that is present leaves none. */
  lemma FreeAllKeeps(h: History, present: seq<bool>)
    requires Safe(h) && Contained(State(h)) && Cold(State(h)) && !State(h).master && |present| == PAGE_SLOTS
    requires forall i | 0 <= i < |present| :: present[i] <==> i in State(h).pages
    requires forall i | i in State(h).pages :: i < PAGE_SLOTS
    ensures var g := Free(h, present, PAGE_SLOTS);
            Safe(g) && Contained(State(g)) && State(g) == State(h).(pages := map[]) && Cold(State(g))
  {
    FreeKeeps(h, present, PAGE_SLOTS);
    assert State(Free(h, present, PAGE_SLOTS)).pages == map[];
  }

  lemma {:induction false} AllocateKeeps(h: History, pages: seq<Option<Address>>, n: nat)
    requires Safe(h) && Contained(State(h)) && Cold(State(h)) && State(h).pages == map[]
    requires Memory in State(h).held && n <= |pages| <= PAGE_SLOTS
    ensures var (ok, g) := Allocate(h, pages, n);
            var count := if n <= Granted(pages) then n else Granted(pages);
            && Safe(g) && Contained(State(g)) && Cold(State(g))
            && State(g) == State(h).(pages := State(g).pages)
            && (ok <==> n <= Granted(pages))
            && (forall i: nat :: i in State(g).pages <==> i < count)
            && (forall i | 0 <= i < count :: State(g).pages[i] == pages[i].value)
  {
    hide Bit, Contained, Safe, State;
    if n > 0 {
      AllocateKeeps(h, pages, n - 1);
      var (ok, g) := Allocate(h, pages, n - 1);
      if ok && pages[n - 1].Some? {
        ColdStep(g, AllocPage(n - 1, pages[n - 1].value));
      }
    }
  }

  lemma ReleaseDeviceKeeps(h: History, named: bool)
    requires Safe(h) && Cold(State(h)) && State(h).pages == map[]
    requires State(h).held == if named then {Memory, Name} else {Memory}
    ensures var g := ReleaseDevice(h, named);
            && Safe(g) && Contained(State(g)) && Cold(State(g))
            && State(g) == State(h).(held := {}, frees := State(h).frees + 1)
  {
    hide Contained;
    if named {
      ColdStep(h, Release(Name));
      assert State(Then(h, Release(Name))).held == {Memory};
      ColdStep(Then(h, Release(Name)), Release(Memory));
    } else {
      ColdStep(h, Release(Memory));
    }
  }

  /** Everything released, nothing left, freed once. */
  ghost predicate NothingHeld(h: History) {
    && Safe(h) && Contained(State(h)) && Detached(State(h))
    && State(h).held == {} && State(h).frees == 1
  }

  function Names(named: bool): set<Resource> {
    if named then {Name} else {}
  }

  lemma PutDeviceKeeps(h: History, named: bool)
    requires Safe(h) && Detached(State(h)) && State(h).frees == 0
    requires State(h).held == {Memory, DriverData} + Names(named)
    ensures NothingHeld(PutDevice(h, named))
  {
    hide Safe, Contained, State;
    ColdStep(h, Release(DriverData));
    ReleaseDeviceKeeps(Then(h, Release(DriverData)), named);
  }

  lemma DisableDeviceKeeps(h: History, named: bool)
    requires Safe(h) && Detached(State(h)) && State(h).frees == 0
    requires State(h).held == {Memory, DriverData, PciEnabled} + Names(named)
    ensures NothingHeld(DisableDevice(h, named))
  {
    hide Safe, Contained, State;
    ColdStep(h, Release(PciEnabled));
    PutDeviceKeeps(Then(h, Release(PciEnabled)), named);
  }

  lemma ReleaseRegionKeeps(h: History, named: bool)
    requires Safe(h) && Detached(State(h)) && State(h).frees == 0
    requires State(h).held == {Memory, DriverData, PciEnabled, Region} + Names(named)
    ensures NothingHeld(ReleaseRegion(h, named))
  {
    hide Safe, Contained, State;
    ColdStep(h, Release(Region));
    DisableDeviceKeeps(Then(h, Release(Region)), named);
  }

  lemma UnmapBarKeeps(h: History, named: bool)
    requires Safe(h) && Detached(State(h)) && State(h).frees == 0
    requires State(h).held == {Memory, DriverData, PciEnabled, Region, Bar} + Names(named)
    ensures NothingHeld(UnmapBar(h, named))
  {
    hide Safe, Contained, State;
    ColdStep(h, Release(Bar));
    ReleaseRegionKeeps(Then(h, Release(Bar)), named);
  }

  lemma FreePagesKeeps(h: History, present: seq<bool>, named: bool)
    requires Safe(h) && Contained(State(h)) && Cold(State(h)) && !State(h).master && |present| == PAGE_SLOTS
    requires forall i | 0 <= i < |present| :: present[i] <==> i in State(h).pages
    requires forall i | i in State(h).pages :: i < PAGE_SLOTS
    requires State(h).frees == 0
    requires State(h).held == {Memory, DriverData, PciEnabled, Region, Bar} + Names(named)
    ensures NothingHeld(FreePages(h, present, named))
  {
    FreeAllKeeps(h, present);
    UnmapBarKeeps(Free(h, present, PAGE_SLOTS), named);
  }

  function FreshDriver(dev: Device, c: ProbeCalls): Driver
    requires WellFormedCalls(c)
  {
    Driver(Probe(dev, c).0, Addresses(c.pages), false, false, 1, 0, Bound)
  }

  /** Up to the cold check a probe only acquires. */
  lemma AcquireKeeps(h: History, r: Resource)
    requires Safe(h) && Detached(State(h)) && State(h).frees == 0
    requires r !in State(h).held && (r == Memory || Memory in State(h).held)
    ensures var g := Then(h, Acquire(r));
            Safe(g) && Detached(State(g)) && State(g) == State(h).(held := State(h).held + {r})
  {
    ColdStep(h, Acquire(r));
  }

  /** The state in which a probe maps the BAR. */
  function Mapped(): History {
    Then(Then(Then(Then(Then(Boot,
      Acquire(Memory)),
      Acquire(DriverData)),
      Acquire(PciEnabled)),
      Acquire(Region)),
      Acquire(Bar))
  }

  lemma MappedIsSafe()
    ensures var h := Mapped();
            && Safe(h) && Contained(State(h)) && Detached(State(h)) && State(h).frees == 0
            && State(h).held == {Memory, DriverData, PciEnabled, Region, Bar}
  {
    AcquireKeeps(Boot, Memory);
    var h1 := Then(Boot, Acquire(Memory));
    AcquireKeeps(h1, DriverData);
    var h2 := Then(h1, Acquire(DriverData));
    AcquireKeeps(h2, PciEnabled);
    var h3 := Then(h2, Acquire(PciEnabled));
    AcquireKeeps(h3, Region);
    AcquireKeeps(Then(h3, Acquire(Region)), Bar);
    ColdIsContained(State(Mapped()));
  }

  lemma EarlyFailureKeeps(dev: Device, c: ProbeCalls)
    requires WellFormedCalls(c) && c.pageSizeOk && c.barLengthOk && c.memoryOk
    requires c.enable != 0 || c.region != 0 || c.mask != 0 || !c.barOk
    ensures Probe(dev, c).1 != Done && NothingHeld(Probe(dev, c).0)
  {
    AcquireKeeps(Boot, Memory);
    var h1 := Then(Boot, Acquire(Memory));
    AcquireKeeps(h1, DriverData);
    var h2 := Then(h1, Acquire(DriverData));
    assert State(h2).held == {Memory, DriverData} + Names(false);
    AcquireKeeps(h2, PciEnabled);
    var h3 := Then(h2, Acquire(PciEnabled));
    assert State(h3).held == {Memory, DriverData, PciEnabled} + Names(false);
    AcquireKeeps(h3, Region);
    var h4 := Then(h3, Acquire(Region));
    assert State(h4).held == {Memory, DriverData, PciEnabled, Region} + Names(false);
    hide State, Safe, Detached, PutDevice, DisableDevice, ReleaseRegion, ColdCheck;
    if c.enable != 0 {
      PutDeviceKeeps(h2, false);
    } else if c.region != 0 {
      DisableDeviceKeeps(h3, false);
    } else {
      ReleaseRegionKeeps(h4, false);
    }
  }

  /** What is known once the device proved cold and every page was asked for. */
  lemma AllocationStage(dev: Device, c: ProbeCalls)
    requires WellFormedCalls(c)
    ensures var h := ColdCheck(dev, Mapped()).1;
            var (all, g) := Allocate(h, c.pages, PAGE_SLOTS);
            && NothingButPages(h) && NothingButPages(g)
            && State(h).pages == map[]
            && (all <==> Granted(c.pages) == PAGE_SLOTS)
            && (forall i: nat :: i in State(g).pages <==> i < Granted(c.pages))
            && (forall i | 0 <= i < Granted(c.pages) :: State(g).pages[i] == c.pages[i].value)
  {
    hide Contained, Safe;
    MappedIsSafe();
    ColdCheckKeeps(dev, Mapped());
    AllocateKeeps(ColdCheck(dev, Mapped()).1, c.pages, PAGE_SLOTS);
  }

  /** Mapped, cold and safe, with possibly some pages. */
  ghost predicate NothingButPages(h: History) {
    && Safe(h) && Contained(State(h)) && Cold(State(h)) && !State(h).master && State(h).frees == 0
    && State(h).held == {Memory, DriverData, PciEnabled, Region, Bar} + Names(false)
  }

  /** Naming the device adds one resource. */
  lemma NameKeeps(h: History)
    requires NothingButPages(h)
    ensures var g := Then(h, Acquire(Name));
            && Safe(g) && Contained(State(g)) && State(g) == State(h).(held := BOUND_RESOURCES)
            && BOUND_RESOURCES == {Memory, DriverData, PciEnabled, Region, Bar} + Names(true)
  {
    hide Contained, Safe, State;
    ColdStep(h, Acquire(Name));
    assert {Memory, DriverData, PciEnabled, Region, Bar} + Names(false) + {Name} == BOUND_RESOURCES;
  }

  lemma LateFailureKeeps(dev: Device, c: ProbeCalls)
    requires WellFormedCalls(c) && c.pageSizeOk && c.barLengthOk && c.memoryOk
    requires c.enable == 0 && c.region == 0 && c.mask == 0 && c.barOk
    requires Probe(dev, c).1 != Done
    ensures NothingHeld(Probe(dev, c).0)
  {
    AllocationStage(dev, c);
    var (cold, h) := ColdCheck(dev, Mapped());
    var (all, g) := Allocate(h, c.pages, PAGE_SLOTS);
    hide Contained, Safe, NothingHeld, State, UnmapBar, FreePages, ColdCheck, Allocate, Granted, Names;
    if !cold {
      UnmapBarKeeps(h, false);
    } else if !all {
      FreePagesKeeps(g, FirstPresent(Granted(c.pages)), false);
    } else if !c.nameOk {
      FreePagesKeeps(g, AllPresent(), false);
    } else {
      NameKeeps(g);
      FreePagesKeeps(Then(g, Acquire(Name)), AllPresent(), true);
    }
  }

  lemma RegisterKeeps(h: History)
    requires Safe(h) && Contained(State(h)) && Cold(State(h)) && State(h).held == BOUND_RESOURCES
    ensures var g := Then(h, Acquire(Misc));
            Safe(g) && Contained(State(g)) && State(g) == State(h).(held := BOUND_RESOURCES + {Misc})
  {
    ColdStep(h, Acquire(Misc));
  }

  lemma SuccessKeeps(dev: Device, c: ProbeCalls)
    requires WellFormedCalls(c) && Probe(dev, c).1 == Done
    ensures Invariant(FreshDriver(dev, c))
  {
    AllocationStage(dev, c);
    var g := Allocate(ColdCheck(dev, Mapped()).1, c.pages, PAGE_SLOTS).1;
    hide Contained, Safe, Legal, State, ColdCheck, Allocate, Granted, Names, Addresses;
    NameKeeps(g);
    RegisterKeeps(Then(g, Acquire(Name)));
  }

  /** A failed probe gives back exactly what it took, each thing once; a
      successful one leaves a stopped, bound device with one reference. */
  lemma ProbeIsSafe(dev: Device, c: ProbeCalls)
    requires WellFormedCalls(c)
    ensures var (h, code) := Probe(dev, c);
            && Safe(h)
            && (code == Done ==> Invariant(FreshDriver(dev, c)))
            && (code != Done ==> h == Boot || NothingHeld(h))
  {
    hide State, ColdCheck, Allocate, Granted, Contained;
    if !c.pageSizeOk || !c.barLengthOk || !c.memoryOk {
    } else if c.enable != 0 || c.region != 0 || c.mask != 0 || !c.barOk {
      EarlyFailureKeeps(dev, c);
    } else if Probe(dev, c).1 != Done {
      LateFailureKeeps(dev, c);
    } else {
      SuccessKeeps(dev, c);
    }
  }

  // ---- steps of a bound device ----

  lemma StatusReadsKeep(dev: Device, h: History, dsp: nat)
    requires Safe(h) && Contained(State(h)) && Bar in State(h).held
    ensures var g := StatusReads(dev, h, dsp); Safe(g) && State(g) == State(h)
  {
    hide Contained;
    ObserveKeeps(dev, h, DMA_CONTROL);
    var h1 := Observe(dev, h, DMA_CONTROL);
    ObserveKeeps(dev, h1, ReadyOffset(dsp));
    var h2 := Observe(dev, h1, ReadyOffset(dsp));
    ObserveKeeps(dev, h2, Bank(dsp) + 0x28);
    var h3 := Observe(dev, h2, Bank(dsp) + 0x28);
    ObserveKeeps(dev, h3, Bank(dsp) + 0x24);
    var h4 := Observe(dev, h3, Bank(dsp) + 0x24);
    ObserveKeeps(dev, h4, Bank(dsp) + 0x40 + 0x28);
    ObserveKeeps(dev, Observe(dev, h4, Bank(dsp) + 0x40 + 0x28), Bank(dsp) + 0x40 + 0x24);
  }

  /** A request keeps the invariant; after removal took the lock it is refused
      and touches nothing. */
  lemma IoctlKeeps(dev: Device, d: Driver, r: Request)
    requires Invariant(d)
    ensures var (e, code) := Ioctl(dev, d, r);
            && Invariant(e)
            && (d.removing ==> e == d && code == if r.ForeignMagic? then NotTty else NoDevice)
  {
    hide Bit, Holds;
    if !d.removing {
      match r
      case GetInfo(_) =>
        ObserveKeeps(dev, d.history, FPGA_REVISION);
        ObserveKeeps(dev, Observe(dev, d.history, FPGA_REVISION), EXTENDED_CAPABILITIES);
      case DspStatus(_, _, dsp, _) => StatusReadsKeep(dev, d.history, dsp);
      case StartTransport(_) => StartIsSafe(dev, d.history, d.dma, d.started);
      case StopTransport(_) => StopIsSafe(dev, d.history, d.dma, d.started);
      case ResetDsp(_, _, _, dsp, flags, _) => ResetIsSafe(dev, d.history, d.dma, d.started, dsp, flags);
      case UnknownCommand =>
      case ForeignMagic =>
    }
  }

  lemma PutKeeps(d: Driver)
    requires Invariant(d) && d.phase == Gone && d.refs > 0
    ensures Invariant(Put(d).(files := Put(d).refs))
  {
    if d.refs == 1 {
      ReleaseDeviceKeeps(d.history, true);
    }
  }

  lemma UnmapKeeps(h: History)
    requires Safe(h) && Detached(State(h)) && State(h).held == BOUND_RESOURCES
    ensures var g := Then(Then(h, Release(Bar)), Release(Region));
            && Safe(g) && Detached(State(g))
            && State(g) == State(h).(held := {Memory, DriverData, PciEnabled, Name})
  {
    hide Contained, Safe, State;
    ColdStep(h, Release(Bar));
    ColdStep(Then(h, Release(Bar)), Release(Region));
    assert BOUND_RESOURCES - {Bar} - {Region} == {Memory, DriverData, PciEnabled, Name};
  }

  lemma DisableKeeps(h: History)
    requires Safe(h) && Detached(State(h)) && State(h).held == {Memory, DriverData, PciEnabled, Name}
    ensures var g := Then(Then(h, Release(PciEnabled)), Release(DriverData));
            && Safe(g) && Contained(State(g)) && Detached(State(g))
            && State(g) == State(h).(held := {Memory, Name})
  {
    hide Contained, Safe, State;
    ColdStep(h, Release(PciEnabled));
    ColdStep(Then(h, Release(PciEnabled)), Release(DriverData));
    assert {Memory, DriverData, PciEnabled, Name} - {PciEnabled} - {DriverData} == {Memory, Name};
  }

  lemma TearDownKeeps(dev: Device, d: Driver)
    requires Invariant(d) && d.phase == Deregistered
    ensures Invariant(TearDown(dev, d))
  {
    StopIsSafe(dev, d.history, d.dma, d.started);
    var h := Stop(dev, d.history, d.started).history;
    hide Contained, Safe, State, Stop, Free;
    FreeAllKeeps(h, AllPresent());
    var h1 := Free(h, AllPresent(), PAGE_SLOTS);
    UnmapKeeps(h1);
    DisableKeeps(Then(Then(h1, Release(Bar)), Release(Region)));
  }

  lemma DeregisterKeeps(d: Driver)
    requires Invariant(d) && d.phase == Bound
    ensures Invariant(Deregister(d))
  {
    var s, t := State(d.history), State(Deregister(d).history);
    assert t == s.(held := BOUND_RESOURCES);
    forall dsp, ring, page | 0 <= dsp < DSP_COUNT && 0 <= ring < RING_COUNT && 0 <= page < RING_PAGES
      ensures Holds(t, dsp, ring, page) == Holds(s, dsp, ring, page)
    {}
  }

  /** Every action, in every order, keeps the invariant. */
  lemma ActKeeps(dev: Device, d: Driver, a: Action)
    requires Invariant(d) && Possible(d, a)
    ensures Invariant(Act(dev, d, a))
  {
    match a
    case OpenFile =>
    case Ask(r) => IoctlKeeps(dev, d, r);
    case CloseFile => if d.phase == Gone { PutKeeps(d); }
    case BeginRemove => DeregisterKeeps(d);
    case LockedRemove => TearDownKeeps(dev, d);
    case FinishRemove =>
      if d.refs == 1 { ReleaseDeviceKeeps(d.history, true); }
  }

  /** A possible interleaving of actions. */
  predicate PossibleRun(dev: Device, d: Driver, actions: seq<Action>)
    decreases actions
  {
    actions == [] || (Possible(d, actions[0]) && PossibleRun(dev, Act(dev, d, actions[0]), actions[1..]))
  }

  function Run(dev: Device, d: Driver, actions: seq<Action>): Driver
    requires PossibleRun(dev, d, actions)
    decreases actions
  {
    if actions == [] then d else Run(dev, Act(dev, d, actions[0]), actions[1..])
  }

  lemma {:induction false} RunKeeps(dev: Device, d: Driver, actions: seq<Action>)
    requires Invariant(d) && PossibleRun(dev, d, actions)
    ensures Invariant(Run(dev, d, actions))
    decreases actions
  {
    hide Invariant, Act, Possible;
    if actions != [] {
      ActKeeps(dev, d, actions[0]);
      RunKeeps(dev, Act(dev, d, actions[0]), actions[1..]);
    }
  }

  /** Lifecycle safety: from a successful probe, through any interleaving and
      any device answers, every step is legal with DMA contained; while the
      device is bound its reference count is the open files plus one; bus
      mastering is on exactly when started; once torn down nothing is mapped,
      allocated or enabled; and the structure is freed once, exactly when the
      last reference is gone. */
  lemma LifecycleIsSafe(dev: Device, c: ProbeCalls, actions: seq<Action>)
    requires WellFormedCalls(c) && Probe(dev, c).1 == Done
    requires PossibleRun(dev, FreshDriver(dev, c), actions)
    ensures var d := Run(dev, FreshDriver(dev, c), actions);
            var s := State(d.history);
            && (forall p | Prefix(p, d.history) && p.Then? ::
                  Legal(State(p.past), p.event) && Contained(State(p)))
            && (s.master <==> d.started)
            && d.refs == d.files + (if d.phase == Gone then 0 else 1)
            && (d.removing ==> s.pages == map[] && s.held <= {Memory, Name} && Cold(s))
            && s.frees == (if d.refs == 0 then 1 else 0)
            && (d.refs == 0 <==> s.held == {})
  {
    ProbeIsSafe(dev, c);
    RunKeeps(dev, FreshDriver(dev, c), actions);
    SafeAtEveryPrefix(Run(dev, FreshDriver(dev, c), actions).history);
  }
}
