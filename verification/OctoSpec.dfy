/** The user-space start probe: the same protocol written a second time, with
    page addresses computed from one mapped window instead of read from a table. */
module OctoSpec {
  import opened Common
  import opened Bits
  import opened Machine
  import opened TransportSpec
  import opened UserSpec

  function ProbeRing(dev: Device, h: History, dsp: nat, ring: nat): History
    requires dsp < DSP_COUNT && ring < RING_COUNT
  {
    PublishFrom(SeedIndex(dev, h, dsp, ring), RingBase(dsp, ring), FirstIova(dsp, ring), RING_PAGES)
  }

  function ProbeDsps(dev: Device, h: History, n: nat): History
    requires n <= DSP_COUNT
  {
    if n == 0 then h
    else
      var g := ProbeDsps(dev, h, n - 1);
      Pow2Monotone(n + 1, 9);
      assert Pow2(9) == 512;
      Then(ProbeRing(dev, ProbeRing(dev, g, n - 1, 0), n - 1, 1), Write(DMA_CONTROL, Pow2(n + 1) - 1))
  }

  function Startup(dev: Device, h: History): History {
    ProbeDsps(dev, Prologue(h), DSP_COUNT)
  }

  /** The ring indexes seen while bringing up the first `n` DSPs, bounded. */
  function SeenIndexes(dev: Device, h: History, n: nat): (s: seq<Word>)
    requires n <= DSP_COUNT
    ensures |s| == 2 * n
  {
    if n == 0 then []
    else
      var g := ProbeDsps(dev, h, n - 1);
      var r := ProbeRing(dev, g, n - 1, 0);
      SeenIndexes(dev, h, n - 1)
      + [BoundedIndex(dev(g, RingBase(n - 1, 0) + 0x28)), BoundedIndex(dev(r, RingBase(n - 1, 1) + 0x28))]
  }

  /** The baseline gate of the start probe, up to the first check that fails. */
  function Gated(dev: Device, h: History): (bool, History) {
    var (zero, h1) := Poll(dev, h, RingWords, CHECKED_WORDS);
    if !zero then (false, h1) else
    var (ready, h2) := Poll(dev, h1, ReadyWords, DSP_COUNT);
    if !ready then (false, h2) else
    var (cold, h3) := Expect(dev, h2, DMA_CONTROL, DMA_COLD_RESET);
    if !cold then (false, h3) else
    var (quiet, h4) := Expect(dev, h3, INTERRUPT_ENABLE, 0);
    if !quiet then (false, h4) else
    var (revision, h5) := Expect(dev, h4, FPGA_REVISION, EXPECTED_FPGA_REVISION);
    if !revision then (false, h5) else
    Expect(dev, h5, EXTENDED_CAPABILITIES, EXPECTED_CAPABILITIES)
  }

  /** Six tests per ring: two positions and four pages. */
  const RING_TESTS: nat := 96

  /** All rings read back as the startup from `ready` on published them. */
  function ReadBack(dev: Device, ready: History, h: History): (bool, History) {
    Poll(dev, h, Rings(SeenIndexes(dev, ready, DSP_COUNT), WindowPages()), RING_TESTS)
  }

  const PAGE_WORDS: nat := 1024

  /** Each page is filled with a byte of its own, here four of them. */
  function PageFill(page: nat): Word
    requires page < PAGE_SLOTS
  {
    (0x40 + page) * 0x01010101
  }

  predicate PagesUnchanged(env: Environment, h: History) {
    forall i | 0 <= i < PAGE_SLOTS * PAGE_WORDS :: env.memory(h, i) == PageFill(i / PAGE_WORDS)
  }

  /** The result of one reset exercise: whether it passed. */
  function Exercise(dev: Device, h: History, dsp: nat): (bool, History)
    requires dsp < DSP_COUNT
  {
    var h1 := Then(Then(Then(h,
      Write(DMA_CONTROL, Pulse(dsp))), Write(DMA_CONTROL, Disabled(dsp))), Sleep);
    var (paused, h2) := Expect(dev, h1, DMA_CONTROL, Disabled(dsp));
    if !paused then (false, h2) else
    var (ready, h3) := Poll(dev, h2, ReadyWords, DSP_COUNT);
    if !ready then (false, h3) else
    var h4 := Then(h3, Write(DMA_CONTROL, DMA_ALL_DSPS));
    var (enabled, h5) := Expect(dev, h4, DMA_CONTROL, DMA_ALL_DSPS);
    if !enabled then (false, h5) else
    Poll(dev, h5, ReadyWords, DSP_COUNT)
  }

  /** `going` is false once a pass failed or a signal arrived. */
  datatype Exercises = Exercises(history: History, passMask: nat, allOk: bool, going: bool, passes: nat)

  /** The first `n` turns of the reset loop, which ends at a pending signal. */
  function ExerciseLoop(env: Environment, h: History, n: nat): Exercises
    requires n <= DSP_COUNT
  {
    if n == 0 then Exercises(h, 0, true, true, 0)
    else
      var e := ExerciseLoop(env, h, n - 1);
      if !e.going || env.pending(e.history) then e.(going := false)
      else
        var (ok, g) := Exercise(env.device, e.history, n - 1);
        if ok then Exercises(g, Or(e.passMask, EnableBit(n - 1)), e.allOk, true, e.passes + 1)
        else Exercises(g, e.passMask, false, false, e.passes)
  }

  /** What the start probe finds out between startup and cleanup. */
  datatype Findings = Findings(
    published: bool, exercises: Exercises, pages: bool, ready: bool, interrupt: bool, dma: bool,
    success: bool, history: History)

  function Finding(env: Environment, h: History, exercise: bool): Findings {
    var dev := env.device;
    var (published, h1) := ReadBack(dev, Prologue(h), Startup(dev, h));
    var e := if exercise && published then ExerciseLoop(env, h1, DSP_COUNT) else Exercises(h1, 0, true, true, 0);
    var h2 := Then(e.history, Sleep);
    var (ready, h3) := Poll(dev, h2, ReadyWords, DSP_COUNT);
    var (interrupt, h4) := Expect(dev, h3, INTERRUPT_ENABLE, 0);
    var (dma, h5) := Expect(dev, h4, DMA_CONTROL, DMA_ALL_DSPS);
    var pages := PagesUnchanged(env, h2);
    var success := !env.pending(h5) && published && pages && ready && interrupt && dma && (!exercise || e.allOk);
    Findings(published, e, pages, ready, interrupt, dma, success, h5)
  }

  /** A whole run of the start probe; `findings` is there once startup began. */
  datatype ProbeResult = ProbeResult(success: bool, findings: Option<Findings>, cleaned: Cleaned)

  function ProbeRun(env: Environment, exercise: bool): ProbeResult {
    if !env.succeeds(Boot, OpenContainer) || !env.succeeds(Boot, OpenGroup)
       || !env.succeeds(Boot, ConfigureIommu) || !env.succeeds(Boot, PrepareMemory)
    then ProbeResult(false, None, Cleaned(false, false, false, Boot)) else
    var o := Opening(env, Then(Boot, Acquire(Memory)));
    var (passed, h) := if o.bar then Gated(env.device, o.history) else (false, o.history);
    if !passed then ProbeResult(false, None, CleaningUp(env, o.(history := h), false)) else
    var f := Finding(env, h, exercise);
    var c := CleaningUp(env, o.(history := f.history), true);
    ProbeResult(f.success && c.restored && c.recovered && c.unmapped, Some(f), c)
  }
}
