/** A run of the start probe is contained step by step, and on a well-behaved
    device it succeeds. */
module OctoSafety {
  import opened Common
  import opened Bits
  import opened Machine
  import opened TransportSpec
  import opened TransportSafety
  import opened TransportRefinement
  import opened UserSpec
  import opened OctoSpec
  import opened TraceEquivalence
  import opened UserSafety

  /** Steady with every ring published: any DMA control value is contained. */
  ghost predicate Up(h: History) {
    Steady(h) && AllHold(State(h), DSP_COUNT)
  }

  lemma StartupKeeps(dev: Device, h: History)
    requires Steady(h)
    ensures Up(Startup(dev, h)) && Shadow(State(Startup(dev, h)), DMA_CONTROL) == DMA_ALL_DSPS
  {
    hide InitDsps, ProbeDsps, Pow2, State, Holds, WindowPages, Prologue, AllHold;
    PrologueKeeps(h, WindowPages());
    SameBringUp(dev, Prologue(h), DSP_COUNT);
    InitDspsKeeps(dev, Prologue(h), WindowPages(), DSP_COUNT);
    SmallPow2();
    SteadyAfter(h, Startup(dev, h));
  }

  lemma UpControl(h: History, value: Word)
    requires Up(h)
    ensures Up(Then(h, Write(DMA_CONTROL, value)))
  {
    hide Holds, WindowPages;
    AllHoldAfterControl(h, WindowPages(), value);
  }

  lemma UpRead(dev: Device, h: History, offset: nat)
    requires Up(h)
    ensures Up(Observe(dev, h, offset)) && Up(Then(h, Sleep))
  {
    SteadyRead(dev, h, offset);
  }

  lemma UpPoll(dev: Device, h: History, check: Check, n: nat)
    requires Up(h)
    ensures Up(Poll(dev, h, check, n).1)
  {
    SteadyPoll(dev, h, check, n);
    PollKeeps(dev, h, check, n);
  }

  lemma ExerciseKeeps(dev: Device, h: History, dsp: nat)
    requires Up(h) && dsp < DSP_COUNT
    ensures Up(Exercise(dev, h, dsp).1)
  {
    hide Up, Pulse, Disabled, Poll;
    UpControl(h, Pulse(dsp));
    var h1 := Then(h, Write(DMA_CONTROL, Pulse(dsp)));
    UpControl(h1, Disabled(dsp));
    var h2 := Then(h1, Write(DMA_CONTROL, Disabled(dsp)));
    UpRead(dev, h2, 0);
    UpRead(dev, Then(h2, Sleep), DMA_CONTROL);
    var h3 := Observe(dev, Then(h2, Sleep), DMA_CONTROL);
    UpPoll(dev, h3, ReadyWords, DSP_COUNT);
    var h4 := Poll(dev, h3, ReadyWords, DSP_COUNT).1;
    UpControl(h4, DMA_ALL_DSPS);
    var h5 := Then(h4, Write(DMA_CONTROL, DMA_ALL_DSPS));
    UpRead(dev, h5, DMA_CONTROL);
    UpPoll(dev, Observe(dev, h5, DMA_CONTROL), ReadyWords, DSP_COUNT);
  }

  lemma {:induction false} LoopKeeps(env: Environment, h: History, n: nat)
    requires Up(h) && n <= DSP_COUNT
    ensures Up(ExerciseLoop(env, h, n).history)
  {
    hide Up, Exercise;
    if n > 0 {
      LoopKeeps(env, h, n - 1);
      ExerciseKeeps(env.device, ExerciseLoop(env, h, n - 1).history, n - 1);
    }
  }

  /** Everything between the gate and the cleanup is contained. */
  lemma FindingKeeps(env: Environment, h: History, exercise: bool)
    requires Steady(h)
    ensures Up(Finding(env, h, exercise).history)
  {
    hide Up, Startup, SeenIndexes, Poll, ExerciseLoop, PagesUnchanged, Steady;
    var dev := env.device;
    StartupKeeps(dev, h);
    UpPoll(dev, Startup(dev, h), Rings(SeenIndexes(dev, Prologue(h), DSP_COUNT), WindowPages()), RING_TESTS);
    var h1 := ReadBack(dev, Prologue(h), Startup(dev, h)).1;
    LoopKeeps(env, h1, DSP_COUNT);
    var e := Finding(env, h, exercise).exercises;
    UpRead(dev, e.history, 0);
    UpPoll(dev, Then(e.history, Sleep), ReadyWords, DSP_COUNT);
    var h3 := Poll(dev, Then(e.history, Sleep), ReadyWords, DSP_COUNT).1;
    UpRead(dev, h3, INTERRUPT_ENABLE);
    UpRead(dev, Observe(dev, h3, INTERRUPT_ENABLE), DMA_CONTROL);
  }

  lemma GatedSettles(dev: Device, h: History)
    requires Settled(h, true, true, true)
    ensures var g := Gated(dev, h).1; Settled(g, true, true, true) && Writes(g) == Writes(h)
  {
    hide Settled, Poll, Writes;
    SettledPoll(dev, h, RingWords, CHECKED_WORDS);
    var h1 := Poll(dev, h, RingWords, CHECKED_WORDS).1;
    SettledPoll(dev, h1, ReadyWords, DSP_COUNT);
    var h2 := Poll(dev, h1, ReadyWords, DSP_COUNT).1;
    SettledRead(dev, h2, DMA_CONTROL);
    var h3 := Observe(dev, h2, DMA_CONTROL);
    SettledRead(dev, h3, INTERRUPT_ENABLE);
    var h4 := Observe(dev, h3, INTERRUPT_ENABLE);
    SettledRead(dev, h4, FPGA_REVISION);
    SettledRead(dev, Observe(dev, h4, FPGA_REVISION), EXTENDED_CAPABILITIES);
  }

  /** How many registers are written up to the cleanup. */
  lemma FindingWrites(env: Environment, h: History, exercise: bool)
    ensures var f := Finding(env, h, exercise);
            && f.exercises.passMask == Pow2(f.exercises.passes + 1) - 2
            && (f.exercises.passMask == 0x1fe ==> |Writes(f.history)| == |Writes(h)| + 174 + 24)
            && (!(exercise && f.published) ==> |Writes(f.history)| == |Writes(h)| + 174)
  {
    hide Startup, SeenIndexes, Poll, ExerciseLoop, PagesUnchanged, Restored, Pow2;
    var dev, f := env.device, Finding(env, h, exercise);
    StartupCount(dev, h);
    var check := Rings(SeenIndexes(dev, Prologue(h), DSP_COUNT), WindowPages());
    PollKeeps(dev, Startup(dev, h), check, RING_TESTS);
    var h1 := ReadBack(dev, Prologue(h), Startup(dev, h)).1;
    PassMask(env, h1, DSP_COUNT);
    FullPass(env, h1);
    SmallPow2();
    NoWrite(f.exercises.history, Sleep);
    var h2 := Then(f.exercises.history, Sleep);
    PollKeeps(dev, h2, ReadyWords, DSP_COUNT);
  }

  /** A run whose gate was passed. */
  lemma StartedEnds(env: Environment, o: Opened, exercise: bool)
    requires o.mapped && o.open && o.bar && Settled(o.history, true, true, true) && Writes(o.history) == []
    ensures var f := Finding(env, o.history, exercise);
            var c := CleaningUp(env, o.(history := f.history), true);
            && Ended(c.history) && (c.unmapped ==> Settled(c.history, false, false, false))
            && (f.exercises.passMask == 0x1fe ==> |Writes(c.history)| == 363)
            && (!(exercise && f.published) ==> |Writes(c.history)| == 339)
  {
    hide Settled, Finding, CleaningUp, Steady, Writes, Ended, QuiesceList;
    SettledIsSteady(o.history);
    FindingKeeps(env, o.history, exercise);
    FindingWrites(env, o.history, exercise);
    var f := Finding(env, o.history, exercise);
    CleaningSettles(env, o.(history := f.history), true);
    QuiesceAppends(Boot);
    SettledEnds(CleaningUp(env, o.(history := f.history), true).history,
                !CleaningUp(env, o.(history := f.history), true).unmapped);
  }

  /** Whatever its environment does, a run of the start probe stays within the rules
      at every step, unmaps its window only from a cold device with cleared rings and
      keeps nothing but possibly the window. It writes nothing unless startup began,
      and then 339 registers, 363 when all eight resets passed. Success means that
      every finding was favourable and everything was undone. */
  lemma ProbeRunIsSafe(env: Environment, exercise: bool)
    ensures var r := ProbeRun(env, exercise);
            && Ended(r.cleaned.history)
            && (r.findings.None? ==> Writes(r.cleaned.history) == [] && !r.success)
            && (r.findings.Some? ==>
                  var f := r.findings.value;
                  && (f.exercises.passMask == 0x1fe ==> |Writes(r.cleaned.history)| == 363)
                  && (!(exercise && f.published) ==> |Writes(r.cleaned.history)| == 339))
            && (r.success <==>
                  && r.findings.Some? && r.findings.value.success
                  && r.cleaned.restored && r.cleaned.recovered && r.cleaned.unmapped)
            && (r.success ==> Settled(r.cleaned.history, false, false, false))
  {
    BootEnds();
    hide Settled, Opening, Gated, Finding, CleaningUp, Writes, Ended;
    Acquired();
    OpeningSettles(env, Then(Boot, Acquire(Memory)));
    var o := Opening(env, Then(Boot, Acquire(Memory)));
    if o.bar {
      GatedSettles(env.device, o.history);
    }
    var (passed, h) := if o.bar then Gated(env.device, o.history) else (false, o.history);
    if passed {
      StartedEnds(env, o.(history := h), exercise);
    } else {
      RefusedEnds(env, o.(history := h));
    }
  }
}
