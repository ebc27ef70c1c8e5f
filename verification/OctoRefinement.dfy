/** On a well-behaved device at rest the start probe finds everything in order. */
module OctoRefinement {
  import opened Common
  import opened Bits
  import opened Machine
  import opened TransportSpec
  import opened TransportSafety
  import opened TransportRefinement
  import opened SilentDevice
  import opened UserSpec
  import opened OctoSpec
  import opened TraceEquivalence
  import opened UserSafety
  import opened OctoSafety

  lemma ParkedDsps(dev: Device, h: History, n: nat)
    requires Benign(dev) && Parked(dev, h) && n <= DSP_COUNT
    ensures Parked(dev, ProbeDsps(dev, h, n))
  {
    SameBringUp(dev, h, n);
    ParkedInitDsps(dev, h, WindowPages(), n);
  }

  lemma ParkedRing(dev: Device, h: History, dsp: nat, ring: nat)
    requires Benign(dev) && Parked(dev, h) && dsp < DSP_COUNT && ring < RING_COUNT
    ensures Parked(dev, ProbeRing(dev, h, dsp, ring))
  {
    SamePages(SeedIndex(dev, h, dsp, ring), dsp, ring, RING_PAGES);
    ParkedInitRing(dev, h, WindowPages(), dsp, ring);
  }

  predicate AllZero(s: seq<Word>) {
    forall i | 0 <= i < |s| :: s[i] == 0
  }

  lemma NoZeroes()
    ensures AllZero([])
  {}

  lemma TwoMoreZeroes(s: seq<Word>)
    requires AllZero(s)
    ensures AllZero(s + [0, 0])
  {}

  /** A device with no work pending shows zero for every index. */
  lemma {:induction false} SeenZero(dev: Device, h: History, n: nat)
    requires Benign(dev) && Parked(dev, h) && n <= DSP_COUNT
    ensures AllZero(SeenIndexes(dev, h, n))
  {
    hide AllZero, Benign, Parked, ProbeDsps, ProbeRing, RingBase;
    NoZeroes();
    if n > 0 {
      SeenZero(dev, h, n - 1);
      DspShowsZero(dev, h, n - 1);
      TwoMoreZeroes(SeenIndexes(dev, h, n - 1));
    }
  }

  lemma DspShowsZero(dev: Device, h: History, n: nat)
    requires Benign(dev) && Parked(dev, h) && n < DSP_COUNT
    ensures var g := ProbeDsps(dev, h, n);
            dev(g, RingBase(n, 0) + 0x28) == 0 && dev(ProbeRing(dev, g, n, 0), RingBase(n, 1) + 0x28) == 0
  {
    hide Benign, Parked, ProbeDsps, ProbeRing, RingBase;
    ParkedDsps(dev, h, n);
    var g := ProbeDsps(dev, h, n);
    IndexReadsZero(dev, g, n, 0);
    ParkedRing(dev, g, n, 0);
    IndexReadsZero(dev, ProbeRing(dev, g, n, 0), n, 1);
  }

  lemma PageReadsBack(dev: Device, g: History, dsp: nat, ring: nat, page: nat)
    requires Benign(dev) && Parked(dev, g) && Owned(State(g), WindowPages()) && AllHold(State(g), DSP_COUNT)
    requires dsp < DSP_COUNT && ring < RING_COUNT && page < RING_PAGES
    ensures Slot(dsp, ring, page) < PAGE_SLOTS
    ensures var o := PageRegister(dsp, ring, page);
            Join32(dev(g, o), dev(Observe(dev, g, o), o + 4)) == WindowPages()[Slot(dsp, ring, page)]
  {
    SlotAddress(dsp, ring, page);
    hide Benign, Parked, Owned, State, AllHold, PageRegister, Join32, WindowPages, Slot;
    PublishedPair(State(g), WindowPages(), dsp, ring, page);
    DescriptorPairReadsBack(dev, g, WindowPages()[Slot(dsp, ring, page)], dsp, ring, page);
  }

  lemma UpMeans(g: History)
    requires Up(g)
    ensures Owned(State(g), WindowPages()) && AllHold(State(g), DSP_COUNT)
  {}

  lemma AllZeroAt(s: seq<Word>, i: nat)
    requires AllZero(s)
    ensures i < |s| ==> s[i] == 0
  {}

  lemma Sixths(ring: nat, field: nat)
    requires field < 6
    ensures (ring * 6 + field) / 6 == ring && (ring * 6 + field) % 6 == field
  {}

  lemma SlotOf(ring: nat, page: nat)
    ensures Slot(ring / 2, ring % 2, page) == ring * 4 + page
  {}

  lemma PositionUnit(dev: Device, g: History, indexes: seq<Word>, ring: nat, field: nat)
    requires Parked(dev, g) && ring < 16 && field < 2 && |indexes| == 2 * DSP_COUNT && AllZero(indexes)
    ensures Inspect(dev, g, Rings(indexes, WindowPages()), ring * 6 + field).0
  {
    hide Parked, RingBase, Join32, WindowPages, AllZero;
    Sixths(ring, field);
    AllZeroAt(indexes, ring);
    PositionReadsZero(dev, g, ring / 2, ring % 2, field);
  }

  lemma PageUnit(dev: Device, g: History, indexes: seq<Word>, ring: nat, page: nat)
    requires Benign(dev) && Parked(dev, g) && Up(g) && ring < 16 && page < RING_PAGES
    ensures Inspect(dev, g, Rings(indexes, WindowPages()), ring * 6 + (2 + page)).0
  {
    hide Benign, Parked, State, AllHold, RingBase, Join32, WindowPages, Owned, Up, Slot;
    Sixths(ring, 2 + page);
    UpMeans(g);
    PageReadsBack(dev, g, ring / 2, ring % 2, page);
    SlotOf(ring, page);
  }

  lemma RingReadsBack(dev: Device, g: History, indexes: seq<Word>, i: nat)
    requires Benign(dev) && Parked(dev, g) && Up(g) && i < RING_TESTS
    requires |indexes| == 2 * DSP_COUNT && AllZero(indexes)
    ensures Inspect(dev, g, Rings(indexes, WindowPages()), i).0
  {
    hide Benign, Parked, Up, AllZero, Inspect, WindowPages;
    var ring, field := i / 6, i % 6;
    assert i == ring * 6 + field;
    if field < 2 {
      PositionUnit(dev, g, indexes, ring, field);
    } else {
      PageUnit(dev, g, indexes, ring, field - 2);
    }
  }

  lemma {:induction false} RingsReadBack(dev: Device, h: History, indexes: seq<Word>, n: nat)
    requires Benign(dev) && Parked(dev, h) && Up(h) && n <= RING_TESTS
    requires |indexes| == 2 * DSP_COUNT && AllZero(indexes)
    ensures Poll(dev, h, Rings(indexes, WindowPages()), n).0
  {
    hide Benign, Parked, Up, Inspect, WindowPages;
    if n > 0 {
      RingsReadBack(dev, h, indexes, n - 1);
      ParkedPoll(dev, h, Rings(indexes, WindowPages()), n - 1);
      UpPoll(dev, h, Rings(indexes, WindowPages()), n - 1);
      RingReadsBack(dev, Poll(dev, h, Rings(indexes, WindowPages()), n - 1).1, indexes, n - 1);
    }
  }

  /** Parked with the last DMA control value visible. */
  ghost predicate Showing(dev: Device, h: History, control: Word) {
    Parked(dev, h) && dev(h, DMA_CONTROL) == control
  }

  lemma ShowsWrite(dev: Device, h: History, value: Word)
    requires Benign(dev) && Parked(dev, h)
    ensures Showing(dev, Then(h, Write(DMA_CONTROL, value)), value)
  {
    assert Plain(DMA_CONTROL);
    hide Parked, Plain;
    ParkedStep(dev, h, Write(DMA_CONTROL, value));
  }

  lemma StillShowing(dev: Device, h: History, e: Event, control: Word)
    requires Benign(dev) && Showing(dev, h, control) && (e.Sleep? || e.Read?)
    ensures Showing(dev, Then(h, e), control)
  {
    assert Plain(DMA_CONTROL);
    hide Parked, Plain;
    ParkedStep(dev, h, e);
  }

  lemma {:induction false} PollShowing(dev: Device, h: History, n: nat, control: Word)
    requires Benign(dev) && Showing(dev, h, control) && n <= DSP_COUNT
    ensures Poll(dev, h, ReadyWords, n).0 && Showing(dev, Poll(dev, h, ReadyWords, n).1, control)
  {
    hide Benign, Parked;
    if n > 0 {
      PollShowing(dev, h, n - 1, control);
      ReadyWordsPass(dev, h, n);
      var g := Poll(dev, h, ReadyWords, n - 1).1;
      StillShowing(dev, g, Read(ReadyOffset(n - 1), dev(g, ReadyOffset(n - 1))), control);
    }
  }

  lemma ExercisePasses(dev: Device, h: History, dsp: nat)
    requires Benign(dev) && Parked(dev, h) && dsp < DSP_COUNT
    ensures var (ok, g) := Exercise(dev, h, dsp); ok && Showing(dev, g, DMA_ALL_DSPS)
  {
    hide Benign, Parked, Pulse, Disabled, Poll;
    ShowsWrite(dev, h, Pulse(dsp));
    var h1 := Then(h, Write(DMA_CONTROL, Pulse(dsp)));
    ShowsWrite(dev, h1, Disabled(dsp));
    var h2 := Then(h1, Write(DMA_CONTROL, Disabled(dsp)));
    StillShowing(dev, h2, Sleep, Disabled(dsp));
    var h3 := Then(h2, Sleep);
    StillShowing(dev, h3, Read(DMA_CONTROL, dev(h3, DMA_CONTROL)), Disabled(dsp));
    PollShowing(dev, Observe(dev, h3, DMA_CONTROL), DSP_COUNT, Disabled(dsp));
    var h4 := Poll(dev, Observe(dev, h3, DMA_CONTROL), ReadyWords, DSP_COUNT).1;
    ShowsWrite(dev, h4, DMA_ALL_DSPS);
    var h5 := Then(h4, Write(DMA_CONTROL, DMA_ALL_DSPS));
    StillShowing(dev, h5, Read(DMA_CONTROL, dev(h5, DMA_CONTROL)), DMA_ALL_DSPS);
    PollShowing(dev, Observe(dev, h5, DMA_CONTROL), DSP_COUNT, DMA_ALL_DSPS);
  }

  lemma {:induction false} LoopPasses(env: Environment, h: History, n: nat)
    requires Benign(env.device) && Showing(env.device, h, DMA_ALL_DSPS) && n <= DSP_COUNT
    requires forall g :: !env.pending(g)
    ensures var e := ExerciseLoop(env, h, n);
            e.going && e.allOk && e.passes == n && Showing(env.device, e.history, DMA_ALL_DSPS)
  {
    hide Benign, Parked, Exercise;
    if n > 0 {
      LoopPasses(env, h, n - 1);
      ExercisePasses(env.device, ExerciseLoop(env, h, n - 1).history, n - 1);
    }
  }

  lemma QuietInterrupts(dev: Device, h: History)
    requires Parked(dev, h)
    ensures dev(h, INTERRUPT_ENABLE) == 0
  {
    assert Plain(INTERRUPT_ENABLE);
  }

  lemma ControlShows(dev: Device, h: History)
    requires Parked(dev, h)
    ensures dev(h, DMA_CONTROL) == Shadow(State(h), DMA_CONTROL)
  {
    assert Plain(DMA_CONTROL);
  }

  /** The read-back of a fresh startup succeeds and shows all engines enabled. */
  lemma StartupReadsBack(dev: Device, h: History)
    requires Benign(dev) && Parked(dev, h) && Steady(h)
    ensures var (ok, g) := ReadBack(dev, Prologue(h), Startup(dev, h)); ok && Showing(dev, g, DMA_ALL_DSPS)
  {
    hide Benign, Parked, Steady, Up, Prologue, ProbeDsps, SeenIndexes, Poll, State, Shadow, AllZero, WindowPages;
    ParkedPrologue(dev, h);
    SeenZero(dev, Prologue(h), DSP_COUNT);
    ParkedDsps(dev, Prologue(h), DSP_COUNT);
    StartupKeeps(dev, h);
    var check, g := Rings(SeenIndexes(dev, Prologue(h), DSP_COUNT), WindowPages()), Startup(dev, h);
    RingsReadBack(dev, g, SeenIndexes(dev, Prologue(h), DSP_COUNT), RING_TESTS);
    ParkedPoll(dev, g, check, RING_TESTS);
    PollKeeps(dev, g, check, RING_TESTS);
    ControlShows(dev, Poll(dev, g, check, RING_TESTS).1);
  }

  /** On a well-behaved device with no work pending, when no signal arrives and the
      mapped pages stay as they were filled, every finding is favourable, and an
      exercise passes all eight resets. */
  lemma FindingSucceeds(env: Environment, h: History, exercise: bool)
    requires Benign(env.device) && Parked(env.device, h) && Steady(h)
    requires forall g :: !env.pending(g) && PagesUnchanged(env, g)
    ensures var f := Finding(env, h, exercise);
            && f.success && f.published && (exercise ==> f.exercises.passMask == 0x1fe)
            && Parked(env.device, f.history)
  {
    var dev, f := env.device, Finding(env, h, exercise);
    StartupReadsBack(dev, h);
    var h1 := ReadBack(dev, Prologue(h), Startup(dev, h)).1;
    LoopPasses(env, h1, DSP_COUNT);
    FullPass(env, h1);
    var e := f.exercises.history;
    hide Benign, Parked, Steady, Startup, SeenIndexes, ReadBack, ExerciseLoop, Poll, PagesUnchanged, State;
    StillShowing(dev, e, Sleep, DMA_ALL_DSPS);
    var h2 := Then(e, Sleep);
    PollShowing(dev, h2, DSP_COUNT, DMA_ALL_DSPS);
    var h3 := Poll(dev, h2, ReadyWords, DSP_COUNT).1;
    QuietInterrupts(dev, h3);
    StillShowing(dev, h3, Read(INTERRUPT_ENABLE, dev(h3, INTERRUPT_ENABLE)), DMA_ALL_DSPS);
    var h4 := Observe(dev, h3, INTERRUPT_ENABLE);
    StillShowing(dev, h4, Read(DMA_CONTROL, dev(h4, DMA_CONTROL)), DMA_ALL_DSPS);
  }

  // ---------- from opening the device on ----------

  lemma GatePassed(dev: Device, h: History)
    requires Benign(dev) && Silent(h) && Gated(dev, h).0
    ensures AtRest(dev, Boot)
  {
    hide Benign, Plain, Stable, Poll, AtRest;
    ControlIsPlain();
    var h1 := Poll(dev, h, RingWords, CHECKED_WORDS).1;
    SilentPoll(dev, h, RingWords, CHECKED_WORDS);
    var h2 := Poll(dev, h1, ReadyWords, DSP_COUNT).1;
    SilentPoll(dev, h1, ReadyWords, DSP_COUNT);
    var h3 := Observe(dev, h2, DMA_CONTROL);
    var h4 := Observe(dev, h3, INTERRUPT_ENABLE);
    var h5 := Observe(dev, h4, FPGA_REVISION);
    assert Silent(h3) && Silent(h4) && Silent(h5);
    SilentView(dev, h2);
    SilentView(dev, h3);
    SilentView(dev, h4);
    SilentView(dev, h5);
    PolledRest(dev, h, h1);
  }

  lemma RestPassesGate(dev: Device, h: History)
    requires Benign(dev) && AtRest(dev, h)
    ensures var (ok, g) := Gated(dev, h); ok && Parked(dev, g)
  {
    ControlIsPlain();
    RestShows(dev, h);
    hide Benign, Parked, EmptyRings, Poll, State, Plain, Stable;
    EmptyRingsPass(dev, h, CHECKED_WORDS);
    ParkedPoll(dev, h, RingWords, CHECKED_WORDS);
    PollKeeps(dev, h, RingWords, CHECKED_WORDS);
    var h1 := Poll(dev, h, RingWords, CHECKED_WORDS).1;
    ReadyWordsPass(dev, h1, DSP_COUNT);
    ParkedPoll(dev, h1, ReadyWords, DSP_COUNT);
    PollKeeps(dev, h1, ReadyWords, DSP_COUNT);
    var h2 := Poll(dev, h1, ReadyWords, DSP_COUNT).1;
    ControlShows(dev, h2);
    ParkedObserve(dev, h2, DMA_CONTROL);
    var h3 := Observe(dev, h2, DMA_CONTROL);
    QuietInterrupts(dev, h3);
    ParkedObserve(dev, h3, INTERRUPT_ENABLE);
    var h4 := Observe(dev, h3, INTERRUPT_ENABLE);
    RestShows(dev, h4);
    ParkedObserve(dev, h4, FPGA_REVISION);
    var h5 := Observe(dev, h4, FPGA_REVISION);
    RestShows(dev, h5);
    ParkedObserve(dev, h5, EXTENDED_CAPABILITIES);
  }

  lemma RestShows(dev: Device, h: History)
    requires Parked(dev, h)
    ensures dev(h, FPGA_REVISION) == EXPECTED_FPGA_REVISION
    ensures dev(h, EXTENDED_CAPABILITIES) == EXPECTED_CAPABILITIES
  {}

  /** The gate of the start probe passes on a well-behaved device exactly when the
      device is at rest. */
  lemma GateMeansRest(dev: Device, h: History)
    requires Benign(dev) && Silent(h)
    ensures Gated(dev, h).0 <==> AtRest(dev, Boot)
  {
    hide Benign, AtRest, Gated, Silent;
    SilentRest(dev, h);
    if AtRest(dev, Boot) {
      RestPassesGate(dev, h);
    }
    if Gated(dev, h).0 {
      GatePassed(dev, h);
    }
  }

  lemma ParkedRestores(dev: Device, h: History)
    requires Benign(dev) && Parked(dev, h) && Steady(h)
    ensures Restored(dev, h).0
  {
    hide Benign, Parked, Steady, EmptyRings, QuiesceWrites, Poll, State;
    ParkedQuiesceWrites(dev, h);
    RestoreClears(h);
    var g := QuiesceWrites(h);
    EmptyRingsPass(dev, g, CHECKED_WORDS);
    ParkedPoll(dev, g, RingWords, CHECKED_WORDS);
    PollKeeps(dev, g, RingWords, CHECKED_WORDS);
    ControlShows(dev, Poll(dev, g, RingWords, CHECKED_WORDS).1);
  }

  /** Every call before the first register access succeeds. */
  predicate Opens(env: Environment) {
    && env.succeeds(Boot, OpenContainer) && env.succeeds(Boot, OpenGroup) && env.succeeds(Boot, ConfigureIommu)
    && env.succeeds(Boot, PrepareMemory) && Opening(env, Then(Boot, Acquire(Memory))).bar
  }

  lemma OpeningIsSilent(env: Environment)
    ensures Silent(Opening(env, Then(Boot, Acquire(Memory))).history)
  {}

  /** With a well-behaved device, no signal and pages that stay as they were filled,
      a run whose device could be opened begins exactly when the device is at rest.
      It then finds everything in order and restores it, so that its success depends
      on the device reset and the unmapping alone. */
  lemma ProbeRunSucceeds(env: Environment, exercise: bool)
    requires Benign(env.device) && Opens(env)
    requires forall g :: !env.pending(g) && PagesUnchanged(env, g)
    ensures var r := ProbeRun(env, exercise);
            && (r.findings.Some? <==> AtRest(env.device, Boot))
            && (r.findings.Some? ==>
                  && r.findings.value.success && r.cleaned.restored
                  && (exercise ==> r.findings.value.exercises.passMask == 0x1fe)
                  && (r.success <==> r.cleaned.recovered && r.cleaned.unmapped))
  {
    var dev, o := env.device, Opening(env, Then(Boot, Acquire(Memory)));
    hide Benign, AtRest, Settled, Steady, Silent, Opening, Gated, Finding, PagesUnchanged, Restored, Recovering, Parked;
    OpeningIsSilent(env);
    GateMeansRest(dev, o.history);
    if AtRest(dev, Boot) {
      SilentRest(dev, o.history);
      RestPassesGate(dev, o.history);
      Acquired();
      OpeningSettles(env, Then(Boot, Acquire(Memory)));
      GatedSettles(dev, o.history);
      var h := Gated(dev, o.history).1;
      SettledIsSteady(h);
      FindingSucceeds(env, h, exercise);
      FindingIsSteady(env, h, exercise);
      ParkedRestores(dev, Finding(env, h, exercise).history);
    }
  }

  lemma FindingIsSteady(env: Environment, h: History, exercise: bool)
    requires Steady(h)
    ensures Steady(Finding(env, h, exercise).history)
  {
    hide Finding, Steady;
    FindingKeeps(env, h, exercise);
  }
}
