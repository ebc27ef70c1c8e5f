/** With a well-behaved device that serves its rings and answers, the loader succeeds
    exactly when the reset of all of DMA clears the ring indexes and the device reset
    and the unmapping succeed. */
module LoaderRefinement {
  import opened Common
  import opened Bits
  import opened Machine
  import opened TransportSpec
  import opened TransportSafety
  import opened TransportRefinement
  import opened SilentDevice
  import opened UserSpec
  import opened UserSafety
  import opened Extension
  import opened LoaderSpec
  import opened LoaderSafety
  import opened LoaderSoundness
  import StartupProfile

  // ---------- what working steps keep ----------

  /** The device shows what was written, the words software never writes are zero,
      and identity and ready words are the expected ones. */
  ghost predicate Serving(dev: Device, h: History) {
    Mirrors(dev, h) && UpperZero(State(h)) && Identified(dev, h)
  }

  lemma MirrorsStep(dev: Device, h: History, e: Event)
    requires Benign(dev) && Mirrors(dev, h) && !e.ResetDevice?
    ensures Mirrors(dev, Then(h, e))
  {
    hide Plain, Bit, Enabled;
    forall offset: nat | Plain(offset)
      ensures dev(Then(h, e), offset) == Shadow(State(Then(h, e)), offset)
    {
      assert dev(h, offset) == Shadow(State(h), offset);
    }
  }

  lemma IdentifiedStep(dev: Device, h: History, e: Event)
    requires Benign(dev) && Identified(dev, h)
    ensures Identified(dev, Then(h, e))
  {
    ControlIsPlain();
    forall dsp | 0 <= dsp < DSP_COUNT
      ensures Stable(ReadyOffset(dsp))
    {}
    hide Plain, Stable, ReadyOffset;
  }

  lemma ServingStep(dev: Device, h: History, e: Event)
    requires Benign(dev) && Serving(dev, h) && Work(e)
    ensures Serving(dev, Then(h, e))
  {
    MirrorsStep(dev, h, e);
    IdentifiedStep(dev, h, e);
    hide Benign, Mirrors, Identified, InRings;
    assert forall offset: nat | InRings(offset) && offset % 0x40 >= 0x28 ::
        Shadow(State(h), offset) == 0 && !(e.Write? && e.offset == offset);
  }

  lemma {:induction false} ServingExtends(dev: Device, h: History, g: History)
    requires Benign(dev) && Serving(dev, h) && Extends(h, g)
    ensures Serving(dev, g)
  {
    hide Benign, Serving, Work;
    if g != h {
      ServingExtends(dev, h, g.past);
      ServingStep(dev, g.past, g.event);
    }
  }

  lemma {:induction false} ReadyPasses(dev: Device, h: History, n: nat)
    requires Benign(dev) && Serving(dev, h) && n <= DSP_COUNT
    ensures Poll(dev, h, ReadyWords, n).0
  {
    hide Benign, Serving;
    if n > 0 {
      ReadyPasses(dev, h, n - 1);
      ExtendsSelf(h);
      PollExtends(dev, h, h, ReadyWords, n - 1);
      ServingExtends(dev, h, Poll(dev, h, ReadyWords, n - 1).1);
      ReadyShows(dev, Poll(dev, h, ReadyWords, n - 1).1, n - 1);
    }
  }

  lemma ReadyShows(dev: Device, h: History, dsp: nat)
    requires Serving(dev, h) && dsp < DSP_COUNT
    ensures dev(h, ReadyOffset(dsp)) % 2 == 1
  {}

  // ---------- idle indexes ----------

  ghost predicate SameIndexes(dev: Device, h: History, g: History) {
    forall dsp, ring | 0 <= dsp < DSP_COUNT && 0 <= ring < RING_COUNT ::
      dev(g, Index(dsp, ring)) == dev(h, Index(dsp, ring))
  }

  lemma ShowsControl(dev: Device, h: History)
    requires Serving(dev, h)
    ensures dev(h, DMA_CONTROL) == Shadow(State(h), DMA_CONTROL)
  {
    ControlIsPlain();
  }

  /** With every engine off no index moves, but for a reset of all of DMA. */
  lemma IdleStep(dev: Device, h: History, e: Event)
    requires Benign(dev) && Serving(dev, h) && NoneLive(State(h)) && Work(e) && !GlobalReset(e)
    ensures SameIndexes(dev, h, Then(h, e))
  {
    ShowsControl(dev, h);
    hide Serving, Enabled, State;
    forall dsp, ring | 0 <= dsp < DSP_COUNT && 0 <= ring < RING_COUNT
      ensures dev(Then(h, e), Index(dsp, ring)) == dev(h, Index(dsp, ring))
    {
      PositionAndIndex(dsp, ring);
    }
  }

  lemma {:induction false} IdlePoll(dev: Device, h: History, check: Check, n: nat)
    requires Benign(dev) && Serving(dev, h) && NoneLive(State(h)) && check.RingWords?
    ensures var g := Poll(dev, h, check, n).1; SameIndexes(dev, h, g) && State(g) == State(h) && Serving(dev, g)
  {
    hide Benign, Serving, NoneLive;
    PollKeeps(dev, h, check, n);
    ExtendsSelf(h);
    PollExtends(dev, h, h, check, n);
    ServingExtends(dev, h, Poll(dev, h, check, n).1);
    if n > 0 {
      IdlePoll(dev, h, check, n - 1);
      var (ok, g) := Poll(dev, h, check, n - 1);
      if ok {
        var offset := RingBase((n - 1) / 32, ((n - 1) / 16) % 2) + ((n - 1) % 16) * 4;
        IdleStep(dev, g, Read(offset, dev(g, offset)));
      }
    }
  }

  lemma {:induction false} ClearKeepsControl(h: History, n: nat)
    requires n <= CLEARED_WORDS
    ensures Shadow(State(Clear(h, n)), DMA_CONTROL) == Shadow(State(h), DMA_CONTROL)
  {
    hide RingBase;
    if n > 0 {
      ClearKeepsControl(h, n - 1);
      var k := n - 1;
      RingsDoNotAlias(k / 20, (k / 10) % 2, (k % 10) * 4, k / 20, (k / 10) % 2, (k % 10) * 4);
    }
  }

  lemma {:induction false} IdleClear(dev: Device, h: History, n: nat)
    requires Benign(dev) && Serving(dev, h) && NoneLive(State(h)) && n <= CLEARED_WORDS
    ensures var g := Clear(h, n); SameIndexes(dev, h, g) && Serving(dev, g) && NoneLive(State(g))
  {
    hide Benign, Serving, RingBase, Enabled, State, Work;
    ClearKeepsControl(h, n);
    ExtendsSelf(h);
    ClearExtends(h, h, n);
    ServingExtends(dev, h, Clear(h, n));
    if n > 0 {
      IdleClear(dev, h, n - 1);
      var g, k := Clear(h, n - 1), n - 1;
      ExtendsSelf(g);
      ClearIsWork(k);
      IdleStep(dev, g, Write(RingBase(k / 20, (k / 10) % 2) + (k % 10) * 4, 0));
    }
  }

  lemma ClearIsWork(k: nat)
    requires k < CLEARED_WORDS
    ensures var e := Write(RingBase(k / 20, (k / 10) % 2) + (k % 10) * 4, 0); Work(e) && !GlobalReset(e)
  {
    hide InRings;
    RingWordKind(k / 20, (k / 10) % 2, k % 10);
  }

  // ---------- restoring ----------

  /** The history right after the write that resets all of DMA. */
  function AfterReset(h: History): History {
    Then(Then(Then(h, Write(INTERRUPT_ENABLE, 0)), Write(INTERRUPT_ACK, ALL_ONES)),
         Write(DMA_CONTROL, DMA_RESET_GLOBAL))
  }

  /** Whether that write leaves every ring index at zero. */
  ghost predicate ResetClears(dev: Device, h: History) {
    IndexesZero(dev, AfterReset(h))
  }

  lemma QuiesceIdles(dev: Device, h: History)
    requires Benign(dev) && Serving(dev, h)
    ensures var g := QuiesceWrites(h);
            && SameIndexes(dev, AfterReset(h), g) && Serving(dev, g) && EmptyRings(State(g))
            && Shadow(State(g), DMA_CONTROL) == DMA_COLD_RESET
  {
    hide Benign, Serving, Enabled, Clear, EmptyRings, UpperZero;
    ExtendsSelf(h);
    QuiesceExtends(h, h);
    ServingExtends(dev, h, QuiesceWrites(h));
    var r := AfterReset(h);
    ServesReset(dev, h);
    ColdMeansNoneLive(State(r));
    IdleStep(dev, r, Write(DMA_CONTROL, DMA_GLOBAL_ONLY));
    var g := Then(r, Write(DMA_CONTROL, DMA_GLOBAL_ONLY));
    ServingStep(dev, r, Write(DMA_CONTROL, DMA_GLOBAL_ONLY));
    ColdMeansNoneLive(State(g));
    IdleClear(dev, g, CLEARED_WORDS);
    ServingMeans(dev, g);
    ClearEmpties(g);
    var c := Clear(g, CLEARED_WORDS);
    IdleStep(dev, c, Write(DMA_CONTROL, DMA_COLD_RESET));
    ControlKeepsRings(State(c), DMA_COLD_RESET);
  }

  lemma ServesReset(dev: Device, h: History)
    requires Benign(dev) && Serving(dev, h)
    ensures Serving(dev, AfterReset(h))
  {
    hide Benign, Serving;
    ServingStep(dev, h, Write(INTERRUPT_ENABLE, 0));
    var h1 := Then(h, Write(INTERRUPT_ENABLE, 0));
    ServingStep(dev, h1, Write(INTERRUPT_ACK, ALL_ONES));
    ServingStep(dev, Then(h1, Write(INTERRUPT_ACK, ALL_ONES)), Write(DMA_CONTROL, DMA_RESET_GLOBAL));
  }

  lemma ServingMeans(dev: Device, h: History)
    requires Serving(dev, h)
    ensures UpperZero(State(h)) && Mirrors(dev, h)
  {}

  /** A word of an emptied ring reads as zero, but for an index that does not. */
  lemma EmptiedWord(dev: Device, g: History, dsp: nat, ring: nat, w: nat)
    requires Mirrors(dev, g) && EmptyRings(State(g)) && dsp < DSP_COUNT && ring < RING_COUNT && w < 16
    ensures w != 10 ==> dev(g, RingBase(dsp, ring) + w * 4) == 0
    ensures w == 10 ==> RingBase(dsp, ring) + w * 4 == Index(dsp, ring)
  {
    hide State, Shadow, RingBase, InRings, Plain;
    RingWordKind(dsp, ring, w);
  }

  lemma {:induction false} ZeroIndexesPass(dev: Device, h: History, n: nat)
    requires Benign(dev) && Serving(dev, h) && EmptyRings(State(h)) && NoneLive(State(h)) && IndexesZero(dev, h)
    requires n <= CHECKED_WORDS
    ensures Poll(dev, h, RingWords, n).0
  {
    hide Benign, Serving, EmptyRings, NoneLive, State, RingBase, Index;
    if n > 0 {
      ZeroIndexesPass(dev, h, n - 1);
      IdlePoll(dev, h, RingWords, n - 1);
      var g, i := Poll(dev, h, RingWords, n - 1).1, n - 1;
      ServingMeans(dev, g);
      EmptiedWord(dev, g, i / 32, (i / 16) % 2, i % 16);
    }
  }

  lemma PassedIndexesZero(dev: Device, h: History)
    requires Benign(dev) && Serving(dev, h) && NoneLive(State(h)) && Poll(dev, h, RingWords, CHECKED_WORDS).0
    ensures IndexesZero(dev, h)
  {
    hide Benign, Serving, NoneLive, State, RingBase, Poll, Inspect;
    forall dsp, ring | 0 <= dsp < DSP_COUNT && 0 <= ring < RING_COUNT
      ensures dev(h, Index(dsp, ring)) == 0
    {
      var i := dsp * 32 + ring * 16 + 10;
      PollPassed(dev, h, RingWords, CHECKED_WORDS, i);
      IdlePoll(dev, h, RingWords, i);
      RingWordTest(dev, Poll(dev, h, RingWords, i).1, dsp, ring, 10);
    }
  }

  /** The rings are found restored exactly when the reset of all of DMA cleared every
      index: software does not write the indexes. */
  lemma RestoredMeans(dev: Device, h: History)
    requires Benign(dev) && Serving(dev, h)
    ensures Restored(dev, h).0 <==> ResetClears(dev, h)
  {
    hide Benign, Serving, EmptyRings, Poll, Index, QuiesceWrites, State, Shadow, Enabled;
    QuiesceIdles(dev, h);
    var g := QuiesceWrites(h);
    ColdMeansNoneLive(State(g));
    IdlePoll(dev, g, RingWords, CHECKED_WORDS);
    ShowsControl(dev, Poll(dev, g, RingWords, CHECKED_WORDS).1);
    if IndexesZero(dev, g) {
      ZeroIndexesPass(dev, g, CHECKED_WORDS);
    }
    if Poll(dev, g, RingWords, CHECKED_WORDS).0 {
      PassedIndexesZero(dev, g);
    }
  }

  // ---------- the transfer ----------

  /** Both rings of the first DSP stand at their published positions. */
  ghost predicate Settling(dev: Device, h: History, position: Word) {
    && dev(h, COMMAND_INDEX) == position && dev(h, RESPONSE_INDEX) == 1
    && Shadow(State(h), COMMAND_INDEX - 4) == position && Shadow(State(h), RESPONSE_INDEX - 4) == 1
  }

  lemma FirstRings()
    ensures COMMAND_INDEX == Index(0, 0) && COMMAND_INDEX - 4 == Position(0, 0) && Plain(COMMAND_INDEX - 4)
    ensures RESPONSE_INDEX == Index(0, 1) && RESPONSE_INDEX - 4 == Position(0, 1) && Plain(RESPONSE_INDEX - 4)
  {
    PositionAndIndex(0, 0);
    PositionAndIndex(0, 1);
  }

  /** An index that has reached its position stays there while nothing is written. */
  lemma IndexStays(dev: Device, h: History, e: Event, ring: nat)
    requires Benign(dev) && Serving(dev, h) && (e.Read? || e.Sleep?) && ring < RING_COUNT
    requires dev(h, Index(0, ring)) == Shadow(State(h), Position(0, ring))
    ensures dev(Then(h, e), Index(0, ring)) == dev(h, Index(0, ring)) && State(Then(h, e)) == State(h)
  {
    hide Enabled, Bit;
    PositionAndIndex(0, ring);
  }

  lemma SettlingStep(dev: Device, h: History, e: Event, position: Word)
    requires Benign(dev) && Serving(dev, h) && (e.Read? || e.Sleep?) && Settling(dev, h, position)
    ensures Settling(dev, Then(h, e), position) && Serving(dev, Then(h, e))
  {
    FirstRings();
    hide Benign, Serving, Index, Position, Plain;
    IndexStays(dev, h, e, 0);
    IndexStays(dev, h, e, 1);
    ServingStep(dev, h, e);
  }

  lemma SettlingIndexed(dev: Device, h: History, position: Word)
    requires Benign(dev) && Serving(dev, h) && Settling(dev, h, position)
    ensures CommandIndex(dev, h) == position && ResponseIndex(dev, h) == 1
    ensures Settling(dev, Indexed(dev, h), position) && Serving(dev, Indexed(dev, h))
  {
    hide Benign, Serving, RingBase;
    SettlingStep(dev, h, Read(COMMAND_INDEX, dev(h, COMMAND_INDEX)), position);
    var h1 := Observe(dev, h, COMMAND_INDEX);
    SettlingStep(dev, h1, Read(RESPONSE_INDEX, dev(h1, RESPONSE_INDEX)), position);
  }

  lemma IndexedState(dev: Device, h: History)
    ensures State(Indexed(dev, h)) == State(h) && State(Then(Indexed(dev, h), Sleep)) == State(h)
  {
    hide RingBase;
    assert State(Observe(dev, h, COMMAND_INDEX)) == State(h);
    assert State(Indexed(dev, h)) == State(h);
  }

  lemma PositionedShadow(h: History, dsp: nat, ring: nat, position: Word)
    requires dsp < DSP_COUNT && ring < RING_COUNT
    ensures Shadow(State(Positioned(h, dsp, ring, position)), RingBase(dsp, ring) + 0x24) == position
    ensures forall offset: nat | offset != RingBase(dsp, ring) + 0x24 && offset != RingBase(dsp, ring) + 0x20 ::
              Shadow(State(Positioned(h, dsp, ring, position)), offset) == Shadow(State(h), offset)
  {
    hide RingBase;
    var h1 := Then(h, Write(RingBase(dsp, ring) + 0x24, position));
    assert State(h1).regs == State(h).regs[RingBase(dsp, ring) + 0x24 := position];
  }

  lemma SubmittedShadow(h: History, position: Word)
    ensures Shadow(State(Submitted(h, position)), RingBase(0, 0) + 0x24) == position
    ensures Shadow(State(Submitted(h, position)), RingBase(0, 1) + 0x24) == 1
  {
    hide Positioned, Or, Pow2, Shadowed, StartupProfile.ConnectShadow;
    RingsDoNotAlias(0, 0, 0x24, 0, 1, 0x24);
    RingsDoNotAlias(0, 0, 0x20, 0, 1, 0x24);
    hide RingBase;
    ShadowFits(Shadowed(DSP_COUNT), 1);
    ShadowFits(Or(Shadowed(DSP_COUNT), Pow2(1)), 0);
    var response: Word := Or(Shadowed(DSP_COUNT), Pow2(1));
    var h1 := Positioned(h, 0, 1, 1);
    PositionedShadow(h, 0, 1, 1);
    var h2 := Then(h1, Write(INTERRUPT_ENABLE, response));
    InterruptShadow(h1, response);
    PositionedShadow(h2, 0, 0, position);
    InterruptShadow(Positioned(h2, 0, 0, position), Or(response, Pow2(0)));
  }

  lemma InterruptShadow(h: History, value: Word)
    ensures forall ring | 0 <= ring < RING_COUNT ::
              Shadow(State(Then(h, Write(INTERRUPT_ENABLE, value))), RingBase(0, ring) + 0x24)
              == Shadow(State(h), RingBase(0, ring) + 0x24)
  {}

  /** Reading both indexes at their positions leaves them there. */
  lemma ReachedSettles(dev: Device, h: History, position: Word)
    requires Benign(dev) && Serving(dev, h)
    requires CommandIndex(dev, h) == position && ResponseIndex(dev, h) == 1
    requires Shadow(State(h), COMMAND_INDEX - 4) == position && Shadow(State(h), RESPONSE_INDEX - 4) == 1
    ensures Settling(dev, Indexed(dev, h), position)
  {
    hide Benign, Serving, Index, Position, Plain, RingBase;
    FirstRings();
    var read := Read(COMMAND_INDEX, dev(h, COMMAND_INDEX));
    IndexStays(dev, h, read, 0);
    ServingStep(dev, h, read);
    var h1 := Observe(dev, h, COMMAND_INDEX);
    IndexStays(dev, h1, Read(RESPONSE_INDEX, dev(h1, RESPONSE_INDEX)), 0);
    IndexStays(dev, h1, Read(RESPONSE_INDEX, dev(h1, RESPONSE_INDEX)), 1);
    IndexedState(dev, h);
  }

  lemma ServingIndexed(dev: Device, h: History)
    requires Benign(dev) && Serving(dev, h)
    ensures Serving(dev, Indexed(dev, h)) && Serving(dev, Then(Indexed(dev, h), Sleep))
  {
    hide Benign, Serving, RingBase;
    ServingStep(dev, h, Read(COMMAND_INDEX, dev(h, COMMAND_INDEX)));
    var h1 := Observe(dev, h, COMMAND_INDEX);
    ServingStep(dev, h1, Read(RESPONSE_INDEX, dev(h1, RESPONSE_INDEX)));
    ServingStep(dev, Indexed(dev, h), Sleep);
  }

  /** Once the wait has found both positions reached, they stay reached. */
  lemma {:induction false} CompleteSettles(
    env: Environment, h: History, position: Word, poll: nat, progress: bool)
    requires Benign(env.device) && Serving(env.device, h)
    requires Shadow(State(h), COMMAND_INDEX - 4) == position && Shadow(State(h), RESPONSE_INDEX - 4) == 1
    ensures var w := Waiting(env, h, position, poll, progress);
            Serving(env.device, w.history) && (w.complete ==> Settling(env.device, w.history, position))
    decreases POLL_LIMIT - poll
  {
    hide Benign, Serving, Settling, RingBase, Indexed, CommandIndex, ResponseIndex;
    if !(poll >= POLL_LIMIT || env.pending(h)) {
      var dev := env.device;
      var g := Indexed(dev, h);
      ServingIndexed(dev, h);
      IndexedState(dev, h);
      if CommandIndex(dev, h) == position && ResponseIndex(dev, h) == 1 {
        ReachedSettles(dev, h, position);
      }
      CompleteSettles(env, Then(g, Sleep), position, poll + 1, progress || CommandIndex(dev, h) != 2);
    }
  }

  // ---------- the run ----------

  /** From some moment on the response is of the loader's class and every other word
      of the memory is as it was. */
  ghost predicate Answers(env: Environment, snapshot: seq<Word>, h: History) {
    forall g | Extends(h, g) ::
      env.memory(g, RESPONSE) / 0x10000 == LOADER_RESPONSE_CLASS / 0x10000 && ConfinedToResponse(env, g, snapshot)
  }

  lemma ClassIsNoCanary(w: Word)
    requires w / 0x10000 == LOADER_RESPONSE_CLASS / 0x10000
    ensures w != CANARY
  {}

  /** A settled transfer with an answer is judged a success. */
  lemma JudgedFavourably(env: Environment, h: History, snapshot: seq<Word>, position: Word, progress: bool)
    requires Benign(env.device) && Serving(env.device, h) && Settling(env.device, h, position)
    requires Answers(env, snapshot, h) && forall g :: !env.pending(g)
    ensures Judging(env, h, snapshot, position, progress).success
  {
    var dev := env.device;
    hide Benign, Serving, Settling, Indexed, CommandIndex, ResponseIndex, Poll, ConfinedToResponse, Work;
    var answered := Indexed(dev, h);
    SettlingIndexed(dev, h, position);
    IndexedExtends(dev, h, h);
    SettlingIndexed(dev, answered, position);
    IndexedExtends(dev, h, answered);
    var read := Indexed(dev, answered);
    ReadyPasses(dev, read, DSP_COUNT);
    PollExtends(dev, h, read, ReadyWords, DSP_COUNT);
    ClassIsNoCanary(env.memory(read, RESPONSE));
  }

  lemma IndexedExtends(dev: Device, a: History, h: History)
    requires Extends(a, h)
    ensures Extends(a, Indexed(dev, h))
  {
    hide Extends, RingBase;
    ReadExtends(dev, a, h, COMMAND_INDEX);
    ReadExtends(dev, a, Observe(dev, h, COMMAND_INDEX), RESPONSE_INDEX);
  }

  lemma ServingFromRest(dev: Device, h: History)
    requires Parked(dev, h)
    ensures Serving(dev, h)
  {}

  /** The gate passes on a device at rest. */
  lemma RestPassesGate(dev: Device, h: History)
    requires Benign(dev) && AtRest(dev, h)
    ensures var (ok, g) := Gated(dev, h); ok && Parked(dev, g)
  {
    ControlIsPlain();
    hide Benign, EmptyRings, Poll, State, Plain, Stable, Inspect, InRings;
    ParkedObserve(dev, h, FPGA_REVISION);
    var h1 := Observe(dev, h, FPGA_REVISION);
    assert State(h1) == State(h);
    EmptyRingsPass(dev, h1, CHECKED_WORDS);
    ParkedPoll(dev, h1, RingWords, CHECKED_WORDS);
    PollKeeps(dev, h1, RingWords, CHECKED_WORDS);
    var h2 := Poll(dev, h1, RingWords, CHECKED_WORDS).1;
    ReadyWordsPass(dev, h2, DSP_COUNT);
    ParkedPoll(dev, h2, ReadyWords, DSP_COUNT);
    PollKeeps(dev, h2, ReadyWords, DSP_COUNT);
    var h3 := Poll(dev, h2, ReadyWords, DSP_COUNT).1;
    ParkedObserve(dev, h3, DMA_CONTROL);
    ParkedObserve(dev, Observe(dev, h3, DMA_CONTROL), INTERRUPT_ENABLE);
  }

  /** Up to the submitted chain the device keeps serving. */
  lemma TransferServes(env: Environment, h: History, snapshot: seq<Word>, position: Word)
    requires Benign(env.device) && Parked(env.device, h) && Steady(h) && Writes(h) == []
    requires Driving(env, h, snapshot, position).awaited.consumed
    ensures var d := Driving(env, h, snapshot, position);
            && Serving(env.device, d.transfer.value.submitted)
            && Shadow(State(d.transfer.value.submitted), COMMAND_INDEX - 4) == position
            && Shadow(State(d.transfer.value.submitted), RESPONSE_INDEX - 4) == 1
            && Extends(d.transfer.value.waited.history, LastMoment(d))
  {
    hide Benign, Parked, Steady, Extends, Writes, Serving, AwaitedInTime, WaitedInTime, ConnectedWrites;
    hide LoaderStartup, Connected, Awaiting, Transferring, TransferWrites, RingBase, State, Shadow, Submitted;
    hide Waiting, Judging;
    var d := Driving(env, h, snapshot, position);
    ConnectKeepsRun(h);
    AwaitKeeps(env, d.connected);
    ExtendsTransitive(h, d.connected, d.awaited.history);
    TransferKeeps(env, d.awaited.history, snapshot, position);
    var t := d.transfer.value;
    ExtendsTransitive(h, d.awaited.history, t.submitted);
    ServingFromRest(env.device, h);
    ServingExtends(env.device, h, t.submitted);
    SubmittedIs(env, d.awaited.history, snapshot, position);
    PositionsSubmitted(d.awaited.history, position);
    ExtendsTransitive(t.waited.history, t.verdict.answered, t.verdict.checked);
  }

  lemma PositionsSubmitted(h: History, position: Word)
    ensures Shadow(State(Submitted(h, position)), COMMAND_INDEX - 4) == position
    ensures Shadow(State(Submitted(h, position)), RESPONSE_INDEX - 4) == 1
  {
    hide Submitted, State, Shadow;
    SubmittedShadow(h, position);
  }

  lemma SubmittedIs(env: Environment, h: History, snapshot: seq<Word>, position: Word)
    ensures var t := Transferring(env, h, snapshot, position);
            && t.submitted == Submitted(h, position) && t.waited == Waiting(env, t.submitted, position, 0, false)
            && t.verdict == Judging(env, t.waited.history, snapshot, position, t.waited.progress)
  {
    hide Submitted, Waiting, Judging;
  }

  /** A transfer that the wait found complete, with an answer, is delivered, and the
      device still serves when it is. */
  lemma TransferDelivers(env: Environment, h: History, snapshot: seq<Word>, position: Word)
    requires Benign(env.device) && Parked(env.device, h) && Steady(h) && Writes(h) == []
    requires forall g :: !env.pending(g)
    requires var d := Driving(env, h, snapshot, position);
             d.awaited.consumed && d.transfer.value.waited.complete
             && Answers(env, snapshot, d.transfer.value.waited.history)
    ensures var d := Driving(env, h, snapshot, position);
            Delivered(d) && Serving(env.device, LastMoment(d))
  {
    hide Benign, Parked, Steady, Extends, Writes, Serving, Answers, Settling, RingBase;
    hide LoaderStartup, Connected, Awaiting, Transferring, Waiting, Submitted, Judging;
    var d := Driving(env, h, snapshot, position);
    var t := d.transfer.value;
    TransferServes(env, h, snapshot, position);
    SubmittedIs(env, d.awaited.history, snapshot, position);
    CompleteSettles(env, t.submitted, position, 0, false);
    JudgedFavourably(env, t.waited.history, snapshot, position, t.waited.progress);
    ServingExtends(env.device, t.waited.history, LastMoment(d));
  }

  /** Every call before the first register access succeeds. */
  predicate Opens(env: Environment) {
    var h := Then(Boot, Acquire(Memory));
    && env.succeeds(Boot, PrepareMemory)
    && env.succeeds(h, OpenContainer) && env.succeeds(h, OpenGroup) && env.succeeds(h, ConfigureIommu)
    && Opening(env, h).bar
  }

  /** The state behind a passed gate. */
  lemma SetUpRests(env: Environment)
    requires Benign(env.device) && Opens(env) && AtRest(env.device, Boot)
    ensures var (o, passed) := SettingUp(env, Then(Boot, Acquire(Memory)));
            && passed && o.bar && o.open && o.mapped
            && Parked(env.device, o.history) && Steady(o.history) && Writes(o.history) == []
  {
    hide Benign, AtRest, Parked, Settled, Steady, Opening, Gated, Writes, Silent;
    var h0 := Then(Boot, Acquire(Memory));
    Acquired();
    SettingUpSettles(env, h0);
    OpeningIsSilent(env);
    SilentRest(env.device, Opening(env, h0).history);
    RestPassesGate(env.device, Opening(env, h0).history);
    SettledIsSteady(SettingUp(env, h0).0.history);
    NothingWritten();
  }

  lemma OpeningIsSilent(env: Environment)
    ensures Silent(Opening(env, Then(Boot, Acquire(Memory))).history)
  {}

  lemma NothingWritten()
    ensures Writes(Then(Boot, Acquire(Memory))) == []
  {}

  /** With a well-behaved device at rest, no signal, and a device that can be opened,
      a run starts. When the device then consumes the connects and brings both
      indexes to their positions within the bounds of the waits, answers with the
      class of the loader and leaves the rest of the memory alone, the chain is
      delivered. The rings are then found restored exactly when the reset of all of
      DMA clears the indexes, which software does not write; success depends on that,
      the device reset and the unmapping, and on nothing else. */
  lemma LoadSucceeds(env: Environment, snapshot: seq<Word>, position: Word)
    requires Benign(env.device) && Opens(env) && AtRest(env.device, Boot)
    requires forall g :: !env.pending(g)
    ensures var r := LoadRun(env, snapshot, position);
            && r.driven.Some?
            && var d := r.driven.value;
               d.awaited.consumed && d.transfer.value.waited.complete
               && Answers(env, snapshot, d.transfer.value.waited.history) ==>
                 && Delivered(d)
                 && (r.cleaned.restored <==> ResetClears(env.device, LastMoment(d)))
                 && (r.success <==>
                       ResetClears(env.device, LastMoment(d)) && r.cleaned.recovered && r.cleaned.unmapped)
  {
    hide Benign, AtRest, Parked, Steady, Writes, SettingUp, Driving, Delivered, LastMoment, Restored, Recovering;
    hide Serving, Answers, ResetClears;
    SetUpRests(env);
    var o := SettingUp(env, Then(Boot, Acquire(Memory))).0;
    var d := Driving(env, o.history, snapshot, position);
    ConsumedTransfers(env, o.history, snapshot, position);
    if d.awaited.consumed && d.transfer.value.waited.complete
       && Answers(env, snapshot, d.transfer.value.waited.history)
    {
      TransferDelivers(env, o.history, snapshot, position);
      RestoredMeans(env.device, LastMoment(d));
    }
  }

  lemma ConsumedTransfers(env: Environment, h: History, snapshot: seq<Word>, position: Word)
    ensures var d := Driving(env, h, snapshot, position); d.transfer.Some? <==> d.awaited.consumed
  {
    hide LoaderStartup, Connected, Awaiting, Transferring;
  }
}
