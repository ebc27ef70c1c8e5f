/** The start probe as it is written: loops of register accesses over a mapped BAR,
    between opening the device and cleaning up. */
module OctoProbe {
  import opened Common
  import opened Bits
  import opened Machine
  import opened TransportSpec
  import opened TransportSafety
  import opened UserSpec
  import opened UserBar
  import opened OctoSpec

  method BoundedIndexOf(p: MappedBar, base: nat) returns (index: Word)
    modifies p
    ensures index == BoundedIndex(p.device(old(p.history), base + 0x28))
    ensures p.history == Observe(p.device, old(p.history), base + 0x28)
  {
    var raw := p.Read32(base + 0x28);
    index := if raw < 1024 then raw else 0;
  }

  /** The baseline gate. */
  method Gate(p: MappedBar) returns (passed: bool)
    modifies p
    ensures (passed, p.history) == Gated(p.device, old(p.history))
  {
    hide Poll;
    passed := p.AllRingWordsZero();
    if !passed { return; }
    passed := p.AllDspsReady();
    if !passed { return; }
    var control := p.Read32(DMA_CONTROL);
    if control != DMA_COLD_RESET { return false; }
    var quiet := p.Read32(INTERRUPT_ENABLE);
    if quiet != 0 { return false; }
    var revision := p.Read32(FPGA_REVISION);
    if revision != EXPECTED_FPGA_REVISION { return false; }
    var capabilities := p.Read32(EXTENDED_CAPABILITIES);
    passed := capabilities == EXPECTED_CAPABILITIES;
  }

  method BringUpRing(p: MappedBar, dsp: nat, ring: nat) returns (index: Word)
    requires dsp < DSP_COUNT && ring < RING_COUNT
    modifies p
    ensures p.history == ProbeRing(p.device, old(p.history), dsp, ring)
    ensures index == BoundedIndex(p.device(old(p.history), RingBase(dsp, ring) + 0x28))
  {
    hide RingBase, PublishFrom;
    index := BoundedIndexOf(p, RingBase(dsp, ring));
    p.InitializeRing(RingBase(dsp, ring), TEST_IOVA + (dsp * 8 + ring * 4) * PAGE_BYTES, index);
  }

  /** The startup sequence of main, and the indexes it has seen. */
  method StartUp(p: MappedBar) returns (indexes: seq<Word>)
    modifies p
    ensures p.history == Startup(p.device, old(p.history))
    ensures indexes == SeenIndexes(p.device, Prologue(old(p.history)), DSP_COUNT)
  {
    hide ProbeRing, RingBase, Bit;
    p.Write32(NOTIFICATION_CONTROL, 0);
    p.Write32(INTERRUPT_ENABLE, 0);
    p.Write32(INTERRUPT_ACK, 0);
    p.Write32(DMA_CONTROL, DMA_RESET_GLOBAL);
    p.Write32(DMA_CONTROL, DMA_GLOBAL_ONLY);
    p.Write32(INTERRUPT_ACK, ALL_ONES);
    ghost var ready := p.history;
    indexes := [];
    for dsp := 0 to DSP_COUNT
      invariant p.history == ProbeDsps(p.device, ready, dsp)
      invariant indexes == SeenIndexes(p.device, ready, dsp)
    {
      var command := BringUpRing(p, dsp, 0);
      var response := BringUpRing(p, dsp, 1);
      indexes := indexes + [command, response];
      Pow2Monotone(dsp + 2, 9);
      SmallPow2();
      p.Write32(DMA_CONTROL, Pow2(dsp + 2) - 1);
    }
  }

  /** Test `field` of one ring in the read-back. */
  lemma RingTest(dev: Device, h: History, indexes: seq<Word>, dsp: nat, ring: nat, field: nat)
    requires |indexes| == 2 * DSP_COUNT && dsp < DSP_COUNT && ring < RING_COUNT && field < 6
    ensures var base, i := RingBase(dsp, ring), dsp * 12 + ring * 6 + field;
            Inspect(dev, h, Rings(indexes, WindowPages()), i) ==
            if field < 2 then
              var offset := base + 0x20 + field * 4;
              (dev(h, offset) == indexes[dsp * 2 + ring], Observe(dev, h, offset))
            else
              var offset := base + (field - 2) * 8;
              var g := Observe(dev, h, offset);
              (Join32(dev(h, offset), dev(g, offset + 4)) == FirstIova(dsp, ring) + (field - 2) * PAGE_BYTES,
               Observe(dev, g, offset + 4))
  {
    hide RingBase, Join32;
    var i := dsp * 12 + ring * 6 + field;
    assert i / 6 == dsp * 2 + ring && i % 6 == field;
    assert (dsp * 2 + ring) / 2 == dsp && (dsp * 2 + ring) % 2 == ring;
  }

  /** One ring: both positions, then its four pages. */
  method RingMatches(p: MappedBar, indexes: seq<Word>, dsp: nat, ring: nat, ghost h: History) returns (ok: bool)
    requires |indexes| == 2 * DSP_COUNT && dsp < DSP_COUNT && ring < RING_COUNT
    requires Poll(p.device, h, Rings(indexes, WindowPages()), dsp * 12 + ring * 6) == (true, p.history)
    modifies p
    ensures if ok then Poll(p.device, h, Rings(indexes, WindowPages()), dsp * 12 + ring * 6 + 6) == (true, p.history)
            else Poll(p.device, h, Rings(indexes, WindowPages()), RING_TESTS) == (false, p.history)
  {
    hide RingBase, Inspect, WindowPages, Join32;
    var base, first := RingBase(dsp, ring), TEST_IOVA + (dsp * 8 + ring * 4) * PAGE_BYTES;
    ghost var check, from := Rings(indexes, WindowPages()), dsp * 12 + ring * 6;
    for field := 0 to 2
      invariant Poll(p.device, h, check, from + field) == (true, p.history)
    {
      RingTest(p.device, p.history, indexes, dsp, ring, field);
      var position := p.Read32(base + 0x20 + field * 4);
      if position != indexes[dsp * 2 + ring] {
        PollStopsAtFailure(p.device, h, check, from + field + 1, RING_TESTS);
        return false;
      }
    }
    for page := 0 to RING_PAGES
      invariant Poll(p.device, h, check, from + 2 + page) == (true, p.history)
    {
      RingTest(p.device, p.history, indexes, dsp, ring, 2 + page);
      var low := p.Read32(base + page * 8);
      var high := p.Read32(base + page * 8 + 4);
      if Join32(low, high) != first + page * PAGE_BYTES {
        PollStopsAtFailure(p.device, h, check, from + 2 + page + 1, RING_TESTS);
        return false;
      }
    }
    ok := true;
  }

  method AllRingsMatch(p: MappedBar, indexes: seq<Word>) returns (ok: bool)
    requires |indexes| == 2 * DSP_COUNT
    modifies p
    ensures (ok, p.history) == Poll(p.device, old(p.history), Rings(indexes, WindowPages()), RING_TESTS)
  {
    hide Inspect, WindowPages;
    ghost var h := p.history;
    for dsp := 0 to DSP_COUNT
      invariant Poll(p.device, h, Rings(indexes, WindowPages()), dsp * 12) == (true, p.history)
    {
      for ring := 0 to RING_COUNT
        invariant Poll(p.device, h, Rings(indexes, WindowPages()), dsp * 12 + ring * 6) == (true, p.history)
      {
        ok := RingMatches(p, indexes, dsp, ring, h);
        if !ok { return; }
      }
    }
    ok := true;
  }

  /** The reset exercise of main: one pulse per DSP until a pass fails or a signal
      is pending. */
  method ExerciseResets(env: Environment, p: MappedBar) returns (passMask: nat, allOk: bool, ghost e: Exercises)
    requires p.device == env.device
    modifies p
    ensures e == ExerciseLoop(env, old(p.history), DSP_COUNT)
    ensures p.history == e.history && passMask == e.passMask && allOk == e.allOk
  {
    hide Pulse, Disabled, Poll, Or, Pow2, AndNot;
    ghost var h := p.history;
    e := ExerciseLoop(env, h, DSP_COUNT);
    passMask, allOk := 0, true;
    for dsp := 0 to DSP_COUNT
      invariant allOk && ExerciseLoop(env, h, dsp) == Exercises(p.history, passMask, true, true, dsp)
    {
      if env.pending(p.history) {
        LoopStays(env, h, dsp + 1, DSP_COUNT);
        return;
      }
      var ok := ExerciseOne(p, dsp);
      if !ok {
        allOk := false;
        LoopStays(env, h, dsp + 1, DSP_COUNT);
        return;
      }
      passMask := Or(passMask, EnableBit(dsp));
    }
  }

  method ExerciseOne(p: MappedBar, dsp: nat) returns (ok: bool)
    requires dsp < DSP_COUNT
    modifies p
    ensures (ok, p.history) == Exercise(p.device, old(p.history), dsp)
  {
    hide Poll, Or, AndNot, Bit, Pow2;
    PulseValues(dsp);
    DisabledSum(dsp);
    var enableBit := Pow2(dsp + 1);
    var resetBit := Pow2(dsp + 9);
    var disabled := AndNot(DMA_ALL_DSPS, enableBit);
    p.Write32(DMA_CONTROL, Or(disabled, resetBit));
    p.Write32(DMA_CONTROL, disabled);
    p.history := Then(p.history, Sleep);
    var word := p.Read32(DMA_CONTROL);
    if word != disabled { return false; }
    ok := p.AllDspsReady();
    if !ok { return; }
    Reenable(dsp);
    p.Write32(DMA_CONTROL, Or(disabled, enableBit));
    word := p.Read32(DMA_CONTROL);
    if word != DMA_ALL_DSPS { return false; }
    ok := p.AllDspsReady();
  }

  /** Setting the enable bit again restores every engine. */
  lemma Reenable(dsp: nat)
    requires dsp < DSP_COUNT
    ensures Or(Disabled(dsp), EnableBit(dsp)) == DMA_ALL_DSPS
  {
    hide Bit, Pow2;
    DisabledSum(dsp);
    BitPow2(dsp + 1, dsp + 1);
    BitAndNot(DMA_ALL_DSPS, EnableBit(dsp), dsp + 1);
    OrClearBit(Disabled(dsp), dsp + 1);
  }

  lemma {:induction false} LoopStays(env: Environment, h: History, n: nat, m: nat)
    requires n <= m <= DSP_COUNT && !ExerciseLoop(env, h, n).going
    ensures ExerciseLoop(env, h, m) == ExerciseLoop(env, h, n)
    decreases m
  {
    if n < m { LoopStays(env, h, n, m - 1); }
  }

  /** Startup, read-back, the reset exercise when asked for, and the verdict. */
  method Explore(env: Environment, p: MappedBar, exercise: bool)
    returns (success: bool, passMask: nat, ghost f: Findings)
    requires p.device == env.device
    modifies p
    ensures f == Finding(env, old(p.history), exercise)
    ensures p.history == f.history && success == f.success && passMask == f.exercises.passMask
  {
    hide Startup, SeenIndexes, Poll, ExerciseLoop, PagesUnchanged;
    f := Finding(env, p.history, exercise);
    var indexes := StartUp(p);
    var published := AllRingsMatch(p, indexes);
    var allOk;
    passMask, allOk := 0, true;
    if exercise && published {
      ghost var e;
      passMask, allOk, e := ExerciseResets(env, p);
    }
    p.history := Then(p.history, Sleep);
    var pages := PagesUnchanged(env, p.history);
    var ready := p.AllDspsReady();
    var enable := p.Read32(INTERRUPT_ENABLE);
    var control := p.Read32(DMA_CONTROL);
    success := !env.pending(p.history) && published && pages && ready && enable == 0 && control == DMA_ALL_DSPS
               && (!exercise || allOk);
  }

  /** The whole program: its verdict, pass mask and number of register writes, and
      the history it leaves. */
  method RunProbe(env: Environment, exercise: bool)
    returns (success: bool, passMask: nat, writes: nat, history: History, ghost r: ProbeResult)
    ensures r == ProbeRun(env, exercise) && success == r.success && history == r.cleaned.history
    ensures passMask == if r.findings.Some? then r.findings.value.exercises.passMask else 0
    ensures writes == |Writes(history)|
  {
    hide Opening, Gated, Finding, CleaningUp, Writes;
    r := ProbeRun(env, exercise);
    passMask, writes, history := 0, 0, Boot;
    success := false;
    NothingWritten();
    if !env.succeeds(Boot, OpenContainer) || !env.succeeds(Boot, OpenGroup)
       || !env.succeeds(Boot, ConfigureIommu) || !env.succeeds(Boot, PrepareMemory)
    {
      return;
    }
    var p := new MappedBar(env.device);
    p.history := Then(p.history, Acquire(Memory));
    var mapped, open, bar := p.Open(env);
    var startup := false;
    if bar {
      startup := Gate(p);
    }
    if startup {
      ghost var f;
      success, passMask, f := Explore(env, p, exercise);
    }
    var restored, recovered, unmapped := p.CleanUp(env, mapped, open, bar, startup);
    if (startup && !restored) || (bar && !recovered) || (mapped && !unmapped) {
      success := false;
    }
    history := p.history;
    writes := |Writes(history)|;
  }

  lemma NothingWritten()
    ensures Writes(Boot) == []
  {}
}
