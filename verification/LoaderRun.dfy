/** The runtime loader as it is written: loops of register accesses and bounded
    waits, between preparing its memory and giving everything back. */
module LoaderRun {
  import opened Common
  import opened Bits
  import opened Machine
  import opened TransportSpec
  import opened TransportSafety
  import opened UserSpec
  import opened UserBar
  import opened LoaderSpec
  import opened LoaderSoundness
  import StartupProfile

  /** Everything up to the gate in front of the first register write. */
  method SetUp(env: Environment, p: MappedBar) returns (mapped: bool, open: bool, bar: bool, compatible: bool)
    requires p.device == env.device
    modifies p
    ensures (Opened(mapped, open, bar, p.history), compatible) == SettingUp(env, old(p.history))
  {
    hide Opening, Gated;
    mapped, open, bar, compatible := false, false, false, false;
    if !env.succeeds(p.history, OpenContainer) || !env.succeeds(p.history, OpenGroup)
       || !env.succeeds(p.history, ConfigureIommu)
    {
      return;
    }
    mapped, open, bar := p.Open(env);
    if bar {
      compatible := Gate(p);
    }
  }

  /** The baseline gate, which stops at the first register that disagrees. */
  method Gate(p: MappedBar) returns (passed: bool)
    modifies p
    ensures (passed, p.history) == Gated(p.device, old(p.history))
  {
    hide Poll;
    var revision := p.Read32(FPGA_REVISION);
    if revision != EXPECTED_FPGA_REVISION { return false; }
    passed := p.AllRingWordsZero();
    if !passed { return; }
    passed := p.AllDspsReady();
    if !passed { return; }
    var control := p.Read32(DMA_CONTROL);
    if control != DMA_COLD_RESET { return false; }
    var quiet := p.Read32(INTERRUPT_ENABLE);
    passed := quiet == 0;
  }

  /** Brings every engine up and publishes position zero of every ring. */
  method StartUp(p: MappedBar)
    modifies p
    ensures p.history == LoaderStartup(old(p.history))
  {
    hide PublishFrom, RingBase, Bit;
    p.Write32(NOTIFICATION_CONTROL, 0);
    p.Write32(INTERRUPT_ENABLE, 0);
    p.Write32(INTERRUPT_ACK, 0);
    p.Write32(DMA_CONTROL, DMA_RESET_GLOBAL);
    p.Write32(DMA_CONTROL, DMA_GLOBAL_ONLY);
    p.Write32(INTERRUPT_ACK, ALL_ONES);
    ghost var ready := p.history;
    for dsp := 0 to DSP_COUNT
      invariant p.history == LoaderDsps(ready, dsp)
    {
      ghost var before := p.history;
      for ring := 0 to RING_COUNT
        invariant ring == 0 ==> p.history == before
        invariant ring == 1 ==> p.history == LoaderRing(before, dsp, 0)
        invariant ring == 2 ==> p.history == LoaderRing(LoaderRing(before, dsp, 0), dsp, 1)
      {
        p.InitializeRing(RingBase(dsp, ring), TEST_IOVA + (dsp * 8 + ring * 4) * PAGE_BYTES, 0);
      }
      Pow2Monotone(dsp + 2, 9);
      SmallPow2();
      p.Write32(DMA_CONTROL, Pow2(dsp + 2) - 1);
    }
  }

  method SetPosition(p: MappedBar, dsp: nat, ring: nat, position: Word)
    modifies p
    ensures p.history == Positioned(old(p.history), dsp, ring, position)
  {
    p.Write32(RingBase(dsp, ring) + 0x24, position);
    p.Write32(RingBase(dsp, ring) + 0x20, position);
  }

  /** Adds one line to the interrupt shadow and writes it. */
  method EnableLine(p: MappedBar, shadow: Word, line: nat) returns (r: Word)
    requires line < 32
    modifies p
    ensures r == Or(shadow, Pow2(line)) && p.history == Then(old(p.history), Write(INTERRUPT_ENABLE, r))
  {
    hide Or, Pow2;
    ShadowFits(shadow, line);
    r := Or(shadow, Pow2(line));
    p.Write32(INTERRUPT_ENABLE, r);
  }

  lemma ShadowedSteps(n: nat)
    requires n < DSP_COUNT
    ensures Shadowed(0) == StartupProfile.CALLBACK_SHADOW
    ensures Shadowed(n + 1) == Or(Shadowed(n), Pow2(n * 4))
  {
    hide Or, Pow2;
  }

  /** Sends every DSP its connect command and the first one the clock. */
  method SendConnects(p: MappedBar) returns (shadow: Word)
    modifies p
    ensures p.history == Connected(old(p.history)) && shadow == Shadowed(DSP_COUNT)
  {
    hide RingBase, Or, Pow2, Positioned, Shadowed;
    ghost var h := p.history;
    ShadowedSteps(0);
    shadow := StartupProfile.CALLBACK_SHADOW;
    for dsp := 0 to DSP_COUNT
      invariant p.history == Connecting(h, dsp) && shadow == Shadowed(dsp)
    {
      ShadowedSteps(dsp);
      SetPosition(p, dsp, 0, 1);
      shadow := EnableLine(p, shadow, dsp * 4);
    }
    SetPosition(p, 0, 0, 2);
  }

  method ConnectsConsumed(p: MappedBar) returns (consumed: bool)
    modifies p
    ensures (consumed, p.history) == Consumed(p.device, old(p.history), DSP_COUNT)
  {
    hide RingBase;
    ghost var h := p.history;
    consumed := true;
    for dsp := 0 to DSP_COUNT
      invariant (consumed, p.history) == Consumed(p.device, h, dsp)
    {
      var index := p.Read32(RingBase(dsp, 0) + 0x28);
      if index != (if dsp == 0 then 2 else 1) {
        consumed := false;
      }
    }
  }

  /** Waits a bounded time for the connects. */
  method AwaitConnects(env: Environment, p: MappedBar) returns (consumed: bool, ghost awaited: Awaited)
    requires p.device == env.device
    modifies p
    ensures awaited == Awaiting(env, old(p.history), 0)
    ensures consumed == awaited.consumed && p.history == awaited.history
  {
    hide Consumed;
    awaited := Awaiting(env, p.history, 0);
    consumed := false;
    var poll := 0;
    while poll < CONNECT_LIMIT && !env.pending(p.history)
      invariant poll <= CONNECT_LIMIT && !consumed && awaited == Awaiting(env, p.history, poll)
      decreases CONNECT_LIMIT - poll
    {
      consumed := ConnectsConsumed(p);
      if consumed {
        break;
      }
      p.history := Then(p.history, Sleep);
      poll := poll + 1;
    }
  }

  /** Hands the chain over. */
  method Submit(p: MappedBar, position: Word, connectShadow: Word)
    requires connectShadow == Shadowed(DSP_COUNT)
    modifies p
    ensures p.history == Submitted(old(p.history), position)
  {
    hide Or, Pow2, Positioned, Shadowed;
    SetPosition(p, 0, 1, 1);
    var shadow := EnableLine(p, connectShadow, 1);
    SetPosition(p, 0, 0, position);
    shadow := EnableLine(p, shadow, 0);
  }

  /** The bounded wait for the command and response positions and for a response
      that is no longer the canary. */
  method Wait(env: Environment, p: MappedBar, position: Word) returns (progress: bool, ghost waited: Waited)
    requires p.device == env.device
    modifies p
    ensures waited == Waiting(env, old(p.history), position, 0, false)
    ensures progress == waited.progress && p.history == waited.history
  {
    hide RingBase;
    waited := Waiting(env, p.history, position, 0, false);
    progress := false;
    var poll := 0;
    while poll < POLL_LIMIT && !env.pending(p.history)
      invariant poll <= POLL_LIMIT && waited == Waiting(env, p.history, position, poll, progress)
      decreases POLL_LIMIT - poll
    {
      var commandRead := p.Read32(COMMAND_INDEX);
      var responseRead := p.Read32(RESPONSE_INDEX);
      if commandRead != 2 {
        progress := true;
      }
      if commandRead == position && responseRead == 1 && env.memory(p.history, RESPONSE) != CANARY {
        break;
      }
      if !progress && poll + 1 >= NO_PROGRESS_LIMIT {
        break;
      }
      p.history := Then(p.history, Sleep);
      poll := poll + 1;
    }
  }

  /** The mapped memory holds the snapshot between two word positions. */
  predicate Same(env: Environment, h: History, snapshot: seq<Word>, from: nat, until: nat)
    requires until <= |snapshot|
  {
    forall i :: from <= i < until ==> env.memory(h, i) == snapshot[i]
  }

  /** The three comparisons that leave out the response words. */
  predicate Bounded(env: Environment, h: History, snapshot: seq<Word>)
    requires |snapshot| >= RESPONSE + 2 * 1024
  {
    && Same(env, h, snapshot, 0, RESPONSE)
    && Same(env, h, snapshot, RESPONSE + RESPONSE_WORDS, RESPONSE + 1024)
    && Same(env, h, snapshot, RESPONSE + 1024, |snapshot|)
  }

  lemma BoundedMeans(env: Environment, h: History, snapshot: seq<Word>)
    requires |snapshot| >= RESPONSE + 2 * 1024
    ensures Bounded(env, h, snapshot) <==> ConfinedToResponse(env, h, snapshot)
  {}

  /** What the run is judged by. */
  method Judge(env: Environment, p: MappedBar, snapshot: seq<Word>, position: Word, progress: bool)
    returns (j: Judgement, success: bool, ghost v: Verdict)
    requires p.device == env.device && |snapshot| >= RESPONSE + 2 * 1024
    modifies p
    ensures v == Judging(env, old(p.history), snapshot, position, progress)
    ensures j == v.judgement && success == v.success && p.history == v.checked
  {
    hide RingBase, Poll, Bounded, ConfinedToResponse;
    v := Judging(env, p.history, snapshot, position, progress);
    var finalCommandRead := p.Read32(COMMAND_INDEX);
    var finalResponseRead := p.Read32(RESPONSE_INDEX);
    var response := env.memory(p.history, RESPONSE);
    var consumed := p.Read32(COMMAND_INDEX);
    var responseIndex := p.Read32(RESPONSE_INDEX);
    var written := env.memory(p.history, RESPONSE) != CANARY;
    var ready := p.AllDspsReady();
    BoundedMeans(env, p.history, snapshot);
    var bounded := Bounded(env, p.history, snapshot);
    j := Judgement(true, progress, consumed == position, responseIndex == 1, written,
                   response / 0x10000 == LOADER_RESPONSE_CLASS / 0x10000, ready, bounded);
    success := !env.pending(p.history) && j.connectsConsumed && j.loaderConsumed && j.responseConsumed
               && j.responseWritten && j.responseClassMatches && j.readyAfter && j.memoryBounded;
  }

  /** Bring-up, connects and, once those are consumed, the transfer. */
  method Drive(env: Environment, p: MappedBar, snapshot: seq<Word>, position: Word)
    returns (j: Judgement, success: bool, ghost d: Driven)
    requires p.device == env.device && |snapshot| >= RESPONSE + 2 * 1024
    modifies p
    ensures d == Driving(env, old(p.history), snapshot, position)
    ensures j == JudgementOf(d) && success == Delivered(d) && p.history == LastMoment(d)
  {
    hide LoaderStartup, Connected, Awaiting, Submitted, Waiting, Judging, Shadowed;
    d := Driving(env, p.history, snapshot, position);
    StartUp(p);
    var shadow := SendConnects(p);
    var consumed;
    ghost var awaited;
    consumed, awaited := AwaitConnects(env, p);
    if !consumed {
      return Judgement(false, false, false, false, false, false, false, false), false, d;
    }
    Submit(p, position, shadow);
    var progress;
    ghost var waited, v;
    progress, waited := Wait(env, p, position);
    j, success, v := Judge(env, p, snapshot, position, progress);
  }

  /** The whole program: its verdict and the history it leaves. */
  method Load(env: Environment, snapshot: seq<Word>, position: Word)
    returns (success: bool, j: Judgement, history: History, ghost r: LoadResult)
    requires |snapshot| >= RESPONSE + 2 * 1024
    ensures r == LoadRun(env, snapshot, position) && Guaranteed(env, position, r)
    ensures success == r.success && history == r.cleaned.history
    ensures r.driven.Some? ==> j == JudgementOf(r.driven.value)
  {
    hide SettingUp, Driving, CleaningUp, Delivered, JudgementOf, LastMoment, Guaranteed;
    LoadIsSafe(env, snapshot, position);
    r := LoadRun(env, snapshot, position);
    success, j, history := false, Judgement(false, false, false, false, false, false, false, false), Boot;
    if !env.succeeds(Boot, PrepareMemory) {
      return;
    }
    var p := new MappedBar(env.device);
    p.history := Then(p.history, Acquire(Memory));
    SettingNested(env, p.history);
    var mapped, open, bar, startup := SetUp(env, p);
    if startup {
      ghost var d;
      j, success, d := Drive(env, p, snapshot, position);
    }
    var restored, recovered, unmapped := p.CleanUp(env, mapped, open, bar, startup);
    if (startup && !restored) || (bar && !recovered) || (mapped && !unmapped) {
      success := false;
    }
    history := p.history;
  }

  lemma SettingNested(env: Environment, h: History)
    ensures var (o, passed) := SettingUp(env, h); (passed ==> o.bar) && (o.bar ==> o.open) && (o.open ==> o.mapped)
  {
    hide Opening, Gated;
  }
}
