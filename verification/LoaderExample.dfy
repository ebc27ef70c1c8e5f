/** Two devices that serve their rings at once: one meets the hypotheses under which
    the loader succeeds, the other keeps its indexes through a reset of all of DMA, and
    the loader fails on it after delivering its chain. */
module LoaderExample {
  import opened Common
  import opened Bits
  import opened Machine
  import opened TransportSpec
  import opened TransportSafety
  import opened TransportRefinement
  import opened UserSpec
  import opened UserSafety
  import opened Extension
  import opened LoaderSpec
  import opened LoaderSafety
  import opened LoaderSoundness
  import opened LoaderRefinement
  import StartupProfile

  /** The engine behind an index register is enabled by a control value. */
  ghost predicate EngineOn(control: Word, offset: nat) {
    exists dsp, ring | 0 <= dsp < DSP_COUNT && 0 <= ring < RING_COUNT ::
      offset == Index(dsp, ring) && Enabled(control, dsp)
  }

  /** Registers hold what is written, an index jumps to its position as soon as its
      engine is enabled, and a reset of all of DMA clears it or does not. */
  ghost function Serve(clears: bool, h: History, offset: nat): Word {
    match h
    case Boot => Store(Boot, offset)
    case Then(past, e) =>
      if Stable(offset) then Serve(clears, past, offset)
      else if HardwareIndex(offset) then
        if clears && GlobalReset(e) then 0
        else if EngineOn(Serve(clears, past, DMA_CONTROL), offset) then Serve(clears, past, offset - 4)
        else Serve(clears, past, offset)
      else if e.Write? && e.offset == offset then e.value
      else Serve(clears, past, offset)
  }

  ghost function Server(clears: bool): Device {
    (h, offset) => Serve(clears, h, offset)
  }

  lemma EngineIs(control: Word, dsp: nat, ring: nat)
    requires dsp < DSP_COUNT && ring < RING_COUNT
    ensures EngineOn(control, Index(dsp, ring)) <==> Enabled(control, dsp)
  {
    hide RingBase, Enabled;
    forall d, r | 0 <= d < DSP_COUNT && 0 <= r < RING_COUNT && Index(d, r) == Index(dsp, ring)
      ensures d == dsp
    {
      RingsDoNotAlias(d, r, 0x28, dsp, ring, 0x28);
    }
  }

  lemma Kinds(offset: nat)
    ensures Plain(offset) ==> !Stable(offset) && !HardwareIndex(offset)
    ensures HardwareIndex(offset) ==> !Stable(offset)
  {}

  lemma IndexIs(dsp: nat, ring: nat)
    requires dsp < DSP_COUNT && ring < RING_COUNT
    ensures HardwareIndex(Index(dsp, ring)) && Index(dsp, ring) - 4 == Position(dsp, ring)
  {
    PositionAndIndex(dsp, ring);
  }

  lemma ServerHolds(clears: bool)
    ensures HoldsWrites(Server(clears)) && KeepsIdentity(Server(clears))
  {
    hide Plain, Stable, HardwareIndex, EngineOn;
    forall h: History, e: Event, offset: nat | Plain(offset) && !e.ResetDevice?
      ensures Serve(clears, Then(h, e), offset) ==
              if e.Write? && e.offset == offset then e.value else Serve(clears, h, offset)
    {
      Kinds(offset);
    }
  }

  /** One step of an index. */
  lemma IndexStep(clears: bool, h: History, e: Event, dsp: nat, ring: nat)
    requires dsp < DSP_COUNT && ring < RING_COUNT
    ensures Serve(clears, Then(h, e), Index(dsp, ring)) ==
            if clears && GlobalReset(e) then 0
            else if Enabled(Serve(clears, h, DMA_CONTROL), dsp) then Serve(clears, h, Position(dsp, ring))
            else Serve(clears, h, Index(dsp, ring))
  {
    IndexIs(dsp, ring);
    Kinds(Index(dsp, ring));
    EngineIs(Serve(clears, h, DMA_CONTROL), dsp, ring);
    hide Index, Position, HardwareIndex, Stable, EngineOn, Enabled;
  }

  lemma ServerIsBenign(clears: bool)
    ensures Benign(Server(clears)) && AtRest(Server(clears), Boot)
  {
    StoreIsBenign();
    ServerHolds(clears);
    hide HoldsWrites, KeepsIdentity, Index, Position, Enabled;
    forall h: History, e: Event, dsp, ring | 0 <= dsp < DSP_COUNT && 0 <= ring < RING_COUNT
      ensures Server(clears)(Then(h, e), Index(dsp, ring)) ==
              if clears && GlobalReset(e) then 0
              else if Enabled(Server(clears)(h, DMA_CONTROL), dsp) then Server(clears)(h, Position(dsp, ring))
              else Server(clears)(h, Index(dsp, ring))
    {
      IndexStep(clears, h, e, dsp, ring);
    }
    SameAtBoot(clears);
  }

  lemma SameAtBoot(clears: bool)
    requires AtRest((h, offset) => Store(h, offset), Boot)
    ensures AtRest(Server(clears), Boot)
  {
    hide Plain, Index, ReadyOffset, InRings;
    var dev: Device := (h, offset) => Store(h, offset);
    assert forall offset: nat :: Server(clears)(Boot, offset) == dev(Boot, offset);
  }

  lemma ServerClears(h: History)
    ensures ResetClears(Server(true), h)
  {
    var h2 := Then(Then(h, Write(INTERRUPT_ENABLE, 0)), Write(INTERRUPT_ACK, ALL_ONES));
    forall dsp, ring | 0 <= dsp < DSP_COUNT && 0 <= ring < RING_COUNT
      ensures Server(true)(AfterReset(h), Index(dsp, ring)) == 0
    {
      IndexStep(true, h2, Write(DMA_CONTROL, DMA_RESET_GLOBAL), dsp, ring);
    }
  }

  // ---------- reaching the positions ----------

  /** All engines run on the server. */
  ghost predicate Moving(clears: bool, h: History) {
    Serving(Server(clears), h) && Shadow(State(h), DMA_CONTROL) == DMA_ALL_DSPS
  }

  /** A position is published. */
  ghost predicate At(clears: bool, h: History, dsp: nat, ring: nat, position: Word) {
    Moving(clears, h) && Shadow(State(h), Position(dsp, ring)) == position
  }

  /** The index has come to the published position. */
  ghost predicate Reached(clears: bool, h: History, dsp: nat, ring: nat, position: Word) {
    At(clears, h, dsp, ring, position) && Server(clears)(h, Index(dsp, ring)) == position
  }

  lemma MovingStep(clears: bool, h: History, e: Event)
    requires Moving(clears, h) && Work(e) && !(e.Write? && e.offset == DMA_CONTROL)
    ensures Moving(clears, Then(h, e))
  {
    ServerIsBenign(clears);
    hide Serving, Benign, Server;
    ServingStep(Server(clears), h, e);
  }

  /** An engine catches up in one step, unless the position changes again. */
  lemma Reaches(clears: bool, h: History, e: Event, dsp: nat, ring: nat, position: Word)
    requires dsp < DSP_COUNT && ring < RING_COUNT && At(clears, h, dsp, ring, position)
    requires Work(e) && !(e.Write? && (e.offset == DMA_CONTROL || e.offset == Position(dsp, ring)))
    ensures Reached(clears, Then(h, e), dsp, ring, position)
  {
    MovingStep(clears, h, e);
    PositionAndIndex(dsp, ring);
    ShownPosition(clears, h, dsp, ring);
    EngineBits(dsp);
    IndexStep(clears, h, e, dsp, ring);
    hide Serving, Serve, Index, Position, Plain, Bit, InRings;
  }

  lemma ShownPosition(clears: bool, h: History, dsp: nat, ring: nat)
    requires Serving(Server(clears), h) && dsp < DSP_COUNT && ring < RING_COUNT
    ensures Serve(clears, h, Position(dsp, ring)) == Shadow(State(h), Position(dsp, ring))
    ensures Serve(clears, h, DMA_CONTROL) == Shadow(State(h), DMA_CONTROL)
  {
    PositionAndIndex(dsp, ring);
    ShowsControl(Server(clears), h);
    hide Position, Plain, UpperZero, Identified, Serve;
    assert Server(clears)(h, Position(dsp, ring)) == Shadow(State(h), Position(dsp, ring));
  }

  lemma ReachedRead(clears: bool, h: History, e: Event, dsp: nat, ring: nat, position: Word)
    requires dsp < DSP_COUNT && ring < RING_COUNT && At(clears, h, dsp, ring, position) && (e.Read? || e.Sleep?)
    ensures Reached(clears, Then(h, e), dsp, ring, position)
  {
    hide At, Reached;
    Reaches(clears, h, e, dsp, ring, position);
  }

  lemma ReachedInterrupt(clears: bool, h: History, value: Word, dsp: nat, ring: nat, position: Word)
    requires dsp < DSP_COUNT && ring < RING_COUNT && At(clears, h, dsp, ring, position)
    ensures Reached(clears, Then(h, Write(INTERRUPT_ENABLE, value)), dsp, ring, position)
  {
    RingsDoNotAlias(dsp, ring, 0x24, dsp, ring, 0x24);
    hide At, Reached, RingBase;
    Reaches(clears, h, Write(INTERRUPT_ENABLE, value), dsp, ring, position);
  }

  lemma PublishesAt(clears: bool, h: History, dsp: nat, ring: nat, position: Word)
    requires Moving(clears, h) && dsp < DSP_COUNT && ring < RING_COUNT
    ensures At(clears, Then(h, Write(RingBase(dsp, ring) + 0x24, position)), dsp, ring, position)
  {
    RingWordKind(dsp, ring, 9);
    RingsDoNotAlias(dsp, ring, 0x24, dsp, ring, 0x24);
    hide Moving, RingBase, InRings;
    MovingStep(clears, h, Write(RingBase(dsp, ring) + 0x24, position));
  }

  lemma PositionedMoves(clears: bool, h: History, dsp: nat, ring: nat, position: Word)
    requires Moving(clears, h) && dsp < DSP_COUNT && ring < RING_COUNT
    ensures Reached(clears, Positioned(h, dsp, ring, position), dsp, ring, position)
  {
    RingWordKind(dsp, ring, 8);
    RingsDoNotAlias(dsp, ring, 0x24, dsp, ring, 0x20);
    hide Moving, At, Reached, RingBase, InRings;
    PublishesAt(clears, h, dsp, ring, position);
    var h1 := Then(h, Write(RingBase(dsp, ring) + 0x24, position));
    Reaches(clears, h1, Write(RingBase(dsp, ring) + 0x20, position), dsp, ring, position);
  }

  lemma PositionedElsewhere(clears: bool, h: History, d: nat, r: nat, p: Word, dsp: nat, ring: nat, position: Word)
    requires d < DSP_COUNT && r < RING_COUNT && dsp < DSP_COUNT && ring < RING_COUNT && (d != dsp || r != ring)
    requires At(clears, h, dsp, ring, position)
    ensures Reached(clears, Positioned(h, d, r, p), dsp, ring, position)
  {
    RingWordKind(d, r, 9);
    RingWordKind(d, r, 8);
    RingsDoNotAlias(d, r, 0x24, dsp, ring, 0x24);
    RingsDoNotAlias(d, r, 0x20, dsp, ring, 0x24);
    ReachedIsAt(clears, Then(h, Write(RingBase(d, r) + 0x24, p)), dsp, ring, position);
    hide At, Reached, RingBase, InRings;
    Reaches(clears, h, Write(RingBase(d, r) + 0x24, p), dsp, ring, position);
    Reaches(clears, Then(h, Write(RingBase(d, r) + 0x24, p)), Write(RingBase(d, r) + 0x20, p), dsp, ring, position);
  }

  lemma ReachedIsAt(clears: bool, h: History, dsp: nat, ring: nat, position: Word)
    ensures Reached(clears, h, dsp, ring, position) ==> At(clears, h, dsp, ring, position) && Moving(clears, h)
    ensures Reached(clears, h, dsp, ring, position) ==> Server(clears)(h, RingBase(dsp, ring) + 0x28) == position
  {}

  // ---------- the connects ----------

  lemma ConnectReaches(clears: bool, h: History, n: nat, dsp: nat)
    requires Moving(clears, h) && n < DSP_COUNT && dsp <= n && (dsp < n ==> At(clears, h, dsp, 0, 1))
    ensures var g := Then(Positioned(h, n, 0, 1), Write(INTERRUPT_ENABLE, Shadowed(n + 1)));
            Moving(clears, g) && At(clears, g, dsp, 0, 1)
  {
    hide Moving, At, Reached, Positioned, Shadowed, RingBase, Server, StartupProfile.ConnectShadow;
    var p := Positioned(h, n, 0, 1);
    if dsp < n {
      PositionedElsewhere(clears, h, n, 0, 1, dsp, 0, 1);
    } else {
      PositionedMoves(clears, h, n, 0, 1);
    }
    ReachedIsAt(clears, p, dsp, 0, 1);
    ReachedInterrupt(clears, p, Shadowed(n + 1), dsp, 0, 1);
    ReachedIsAt(clears, Then(p, Write(INTERRUPT_ENABLE, Shadowed(n + 1))), dsp, 0, 1);
  }

  lemma {:induction false} ConnectingMoves(clears: bool, h: History, n: nat)
    requires Moving(clears, h) && n <= DSP_COUNT
    ensures Moving(clears, Connecting(h, n))
  {
    hide Moving, At, Positioned, Shadowed, StartupProfile.ConnectShadow;
    if n > 0 {
      ConnectingMoves(clears, h, n - 1);
      ConnectReaches(clears, Connecting(h, n - 1), n - 1, n - 1);
    }
  }

  lemma {:induction false} ConnectingReaches(clears: bool, h: History, n: nat, dsp: nat)
    requires Moving(clears, h) && dsp < n <= DSP_COUNT
    ensures At(clears, Connecting(h, n), dsp, 0, 1)
  {
    hide Moving, At, Positioned, Shadowed, StartupProfile.ConnectShadow;
    ConnectingMoves(clears, h, n - 1);
    if dsp < n - 1 {
      ConnectingReaches(clears, h, n - 1, dsp);
    }
    ConnectReaches(clears, Connecting(h, n - 1), n - 1, dsp);
  }

  /** The position of the first connects, with the clock of the first DSP. */
  function Connect(dsp: nat): Word {
    if dsp == 0 then 2 else 1
  }

  /** Every command index has come to the position of its connect. */
  ghost predicate AllReached(clears: bool, h: History) {
    forall dsp | 0 <= dsp < DSP_COUNT :: Reached(clears, h, dsp, 0, Connect(dsp))
  }

  lemma ConnectedReaches(clears: bool, h: History)
    requires Moving(clears, h)
    ensures AllReached(clears, Connected(h))
  {
    hide Moving, At, Reached, Positioned, Connecting;
    var g := Connecting(h, DSP_COUNT);
    ConnectingMoves(clears, h, DSP_COUNT);
    PositionedMoves(clears, g, 0, 0, 2);
    forall dsp | 0 < dsp < DSP_COUNT
      ensures Reached(clears, Connected(h), dsp, 0, 1)
    {
      ConnectingReaches(clears, h, DSP_COUNT, dsp);
      PositionedElsewhere(clears, g, 0, 0, 2, dsp, 0, 1);
    }
  }

  lemma AllReachedStep(clears: bool, h: History, e: Event)
    requires AllReached(clears, h) && (e.Read? || e.Sleep?)
    ensures AllReached(clears, Then(h, e))
  {
    hide At, Reached, Server;
    forall dsp | 0 <= dsp < DSP_COUNT
      ensures Reached(clears, Then(h, e), dsp, 0, Connect(dsp))
    {
      ReachedIsAt(clears, h, dsp, 0, Connect(dsp));
      ReachedRead(clears, h, e, dsp, 0, Connect(dsp));
    }
  }

  lemma ReachedShows(clears: bool, h: History, dsp: nat)
    requires AllReached(clears, h) && dsp < DSP_COUNT
    ensures Server(clears)(h, RingBase(dsp, 0) + 0x28) == Connect(dsp) && Moving(clears, h)
  {
    hide At, Reached, Server, RingBase;
    ReachedIsAt(clears, h, dsp, 0, Connect(dsp));
  }

  lemma {:induction false} ReachedConsumed(clears: bool, h: History, n: nat)
    requires AllReached(clears, h) && n <= DSP_COUNT
    ensures Consumed(Server(clears), h, n).0 && AllReached(clears, Consumed(Server(clears), h, n).1)
  {
    hide AllReached, Server, RingBase;
    if n > 0 {
      ReachedConsumed(clears, h, n - 1);
      var g := Consumed(Server(clears), h, n - 1).1;
      ReachedShows(clears, g, n - 1);
      AllReachedStep(clears, g, Read(RingBase(n - 1, 0) + 0x28, Server(clears)(g, RingBase(n - 1, 0) + 0x28)));
    }
  }

  /** The first turn finds the connects consumed. */
  lemma AwaitsOnce(clears: bool, env: Environment, h: History)
    requires env.device == Server(clears) && Moving(clears, h) && forall g :: !env.pending(g)
    ensures var a := Awaiting(env, Connected(h), 0); a.consumed && a.turns == 1 && Moving(clears, a.history)
  {
    hide Moving, AllReached, Server, Connected, Consumed, RingBase;
    ConnectedReaches(clears, h);
    ReachedConsumed(clears, Connected(h), DSP_COUNT);
    ReachedShows(clears, Consumed(Server(clears), Connected(h), DSP_COUNT).1, 0);
  }

  // ---------- the transfer ----------

  lemma SubmittedReaches(clears: bool, h: History, position: Word)
    requires Moving(clears, h)
    ensures Reached(clears, Submitted(h, position), 0, 0, position) && Reached(clears, Submitted(h, position), 0, 1, 1)
  {
    hide Moving, At, Reached, Positioned, Shadowed, Or, Pow2, RingBase, Server;
    ShadowFits(Shadowed(DSP_COUNT), 1);
    ShadowFits(Or(Shadowed(DSP_COUNT), Pow2(1)), 0);
    var response: Word := Or(Shadowed(DSP_COUNT), Pow2(1));
    PositionedMoves(clears, h, 0, 1, 1);
    var h1 := Positioned(h, 0, 1, 1);
    ReachedIsAt(clears, h1, 0, 1, 1);
    ReachedInterrupt(clears, h1, response, 0, 1, 1);
    var h2 := Then(h1, Write(INTERRUPT_ENABLE, response));
    ReachedIsAt(clears, h2, 0, 1, 1);
    PositionedMoves(clears, h2, 0, 0, position);
    PositionedElsewhere(clears, h2, 0, 0, position, 0, 1, 1);
    var h3 := Positioned(h2, 0, 0, position);
    ReachedIsAt(clears, h3, 0, 0, position);
    ReachedIsAt(clears, h3, 0, 1, 1);
    ReachedInterrupt(clears, h3, Or(response, Pow2(0)), 0, 0, position);
    ReachedInterrupt(clears, h3, Or(response, Pow2(0)), 0, 1, 1);
  }

  /** The first turn finds the transfer complete. */
  lemma WaitsOnce(clears: bool, env: Environment, h: History, position: Word)
    requires env.device == Server(clears) && Moving(clears, h)
    requires forall g :: !env.pending(g) && env.memory(g, RESPONSE) != CANARY
    ensures var w := Waiting(env, Submitted(h, position), position, 0, false);
            w.complete && w.turns == 1 && w.history == Indexed(env.device, Submitted(h, position))
  {
    hide Moving, At, Reached, Server, Submitted, RingBase;
    SubmittedReaches(clears, h, position);
    var s := Submitted(h, position);
    ReachedIsAt(clears, s, 0, 0, position);
    ReachedIsAt(clears, s, 0, 1, 1);
    var read := Read(COMMAND_INDEX, Server(clears)(s, COMMAND_INDEX));
    ReachedRead(clears, s, read, 0, 1, 1);
    ReachedIsAt(clears, Then(s, read), 0, 1, 1);
  }

  // ---------- keeping the indexes ----------

  lemma AtIndexed(clears: bool, h: History)
    requires At(clears, h, 0, 1, 1)
    ensures At(clears, Indexed(Server(clears), h), 0, 1, 1)
  {
    hide At, Reached, Server, RingBase;
    var dev := Server(clears);
    ReachedRead(clears, h, Read(COMMAND_INDEX, dev(h, COMMAND_INDEX)), 0, 1, 1);
    var h1 := Observe(dev, h, COMMAND_INDEX);
    ReachedIsAt(clears, h1, 0, 1, 1);
    ReachedRead(clears, h1, Read(RESPONSE_INDEX, dev(h1, RESPONSE_INDEX)), 0, 1, 1);
    ReachedIsAt(clears, Indexed(dev, h), 0, 1, 1);
  }

  lemma AtPoll(clears: bool, h: History, check: Check, n: nat)
    requires At(clears, h, 0, 1, 1)
    ensures At(clears, Poll(Server(clears), h, check, n).1, 0, 1, 1)
  {
    hide Serving, Benign, Server, Extends, State, Position;
    ServerIsBenign(clears);
    PollKeeps(Server(clears), h, check, n);
    ExtendsSelf(h);
    PollExtends(Server(clears), h, h, check, n);
    ServingExtends(Server(clears), h, Poll(Server(clears), h, check, n).1);
  }

  /** When the memory is compared the response position is still published. */
  lemma CheckedAt(clears: bool, env: Environment, h: History, snapshot: seq<Word>, position: Word, progress: bool)
    requires env.device == Server(clears) && Moving(clears, h)
    ensures var g := Indexed(env.device, Submitted(h, position));
            At(clears, Judging(env, g, snapshot, position, progress).checked, 0, 1, 1)
  {
    hide Moving, At, Reached, Server, Submitted, Indexed, CommandIndex, ResponseIndex, Poll, ConfinedToResponse;
    var dev, s := env.device, Submitted(h, position);
    SubmittedReaches(clears, h, position);
    ReachedIsAt(clears, s, 0, 1, 1);
    AtIndexed(clears, s);
    var g := Indexed(dev, s);
    AtIndexed(clears, g);
    AtIndexed(clears, Indexed(dev, g));
    AtPoll(clears, Indexed(dev, Indexed(dev, g)), ReadyWords, DSP_COUNT);
  }

  /** A device that keeps its indexes still has a response index at the reset. */
  lemma ServerKeeps(h: History)
    requires At(false, h, 0, 1, 1)
    ensures !ResetClears(Server(false), h)
  {
    hide At, Reached, Server, Serving, Index, Position, RingBase;
    var h1 := Then(h, Write(INTERRUPT_ENABLE, 0));
    ReachedInterrupt(false, h, 0, 0, 1, 1);
    ReachedIsAt(false, h1, 0, 1, 1);
    ReachedAcknowledge(false, h1, ALL_ONES);
    var h2 := Then(h1, Write(INTERRUPT_ACK, ALL_ONES));
    ReachedIsAt(false, h2, 0, 1, 1);
    KeptAtReset(h2);
    assert Server(false)(AfterReset(h), Index(0, 1)) != 0;
  }

  lemma ReachedAcknowledge(clears: bool, h: History, value: Word)
    requires At(clears, h, 0, 1, 1)
    ensures Reached(clears, Then(h, Write(INTERRUPT_ACK, value)), 0, 1, 1)
  {
    RingsDoNotAlias(0, 1, 0x24, 0, 1, 0x24);
    hide At, Reached, RingBase;
    Reaches(clears, h, Write(INTERRUPT_ACK, value), 0, 1, 1);
  }

  lemma KeptAtReset(h: History)
    requires At(false, h, 0, 1, 1)
    ensures Server(false)(Then(h, Write(DMA_CONTROL, DMA_RESET_GLOBAL)), Index(0, 1)) == 1
  {
    ShownPosition(false, h, 0, 1);
    EngineBits(0);
    IndexStep(false, h, Write(DMA_CONTROL, DMA_RESET_GLOBAL), 0, 1);
    hide Serving, Serve, Index, Position, Bit;
  }

  // ---------- the run ----------

  /** The response is of the loader's class and nothing else in memory changes. */
  ghost predicate Answering(env: Environment, snapshot: seq<Word>) {
    forall g ::
      env.memory(g, RESPONSE) / 0x10000 == LOADER_RESPONSE_CLASS / 0x10000 && ConfinedToResponse(env, g, snapshot)
  }

  lemma AnsweringMeans(env: Environment, snapshot: seq<Word>, h: History)
    requires Answering(env, snapshot)
    ensures Answers(env, snapshot, h) && forall g :: env.memory(g, RESPONSE) != CANARY
  {
    forall g
      ensures env.memory(g, RESPONSE) != CANARY
    {
      ClassIsNoCanary(env.memory(g, RESPONSE));
    }
  }

  lemma StartupMoves(clears: bool, h: History)
    requires Parked(Server(clears), h) && Steady(h)
    ensures Moving(clears, LoaderStartup(h))
  {
    hide Serving, Benign, Server, Steady, Parked, LoaderStartup, Extends;
    ServerIsBenign(clears);
    ServingFromRest(Server(clears), h);
    StartupExtends(h);
    ServingExtends(Server(clears), h, LoaderStartup(h));
    LoaderStartupKeeps(h);
  }

  lemma ServerDrives(clears: bool, env: Environment, h: History, snapshot: seq<Word>, position: Word)
    requires env.device == Server(clears) && Parked(Server(clears), h) && Steady(h)
    requires Answering(env, snapshot) && forall g :: !env.pending(g)
    ensures var d := Driving(env, h, snapshot, position);
            && d.awaited.consumed && d.transfer.value.waited.complete
            && Answers(env, snapshot, d.transfer.value.waited.history)
            && At(clears, LastMoment(d), 0, 1, 1)
  {
    hide Moving, Server, Parked, Steady, LoaderStartup, Connected, Awaiting, Transferring, Submitted, Waiting, Judging;
    hide Answering, Answers, At, Indexed;
    StartupMoves(clears, h);
    AwaitsOnce(clears, env, LoaderStartup(h));
    var d := Driving(env, h, snapshot, position);
    SubmittedIs(env, d.awaited.history, snapshot, position);
    AnsweringMeans(env, snapshot, d.transfer.value.waited.history);
    WaitsOnce(clears, env, d.awaited.history, position);
    CheckedAt(clears, env, d.awaited.history, snapshot, position, d.transfer.value.waited.progress);
  }

  /** On both devices a run delivers the chain. It restores the rings, and can succeed,
      on the one whose indexes a reset clears and on no other. */
  lemma ServerLoads(clears: bool, env: Environment, snapshot: seq<Word>, position: Word)
    requires env.device == Server(clears) && Opens(env) && forall g :: !env.pending(g)
    requires Answering(env, snapshot)
    ensures var r := LoadRun(env, snapshot, position);
            && r.driven.Some? && Delivered(r.driven.value)
            && (r.cleaned.restored <==> clears)
            && (r.success <==> clears && r.cleaned.recovered && r.cleaned.unmapped)
  {
    hide Benign, AtRest, Parked, Steady, Writes, SettingUp, Opens, Driving, Delivered, LastMoment, CleaningUp;
    hide Answers, Answering, ResetClears, Server, At;
    ServerIsBenign(clears);
    LoadSucceeds(env, snapshot, position);
    SetUpRests(env);
    ServerDrives(clears, env, SettingUp(env, Then(Boot, Acquire(Memory))).0.history, snapshot, position);
    DrivenIs(env, snapshot, position);
    var last := LastMoment(LoadRun(env, snapshot, position).driven.value);
    if clears {
      ServerClears(last);
    } else {
      ServerKeeps(last);
    }
  }

  lemma DrivenIs(env: Environment, snapshot: seq<Word>, position: Word)
    requires Opens(env) && SettingUp(env, Then(Boot, Acquire(Memory))).1
    ensures var r := LoadRun(env, snapshot, position);
            && r.driven.Some?
            && r.driven.value ==
               Driving(env, SettingUp(env, Then(Boot, Acquire(Memory))).0.history, snapshot, position)
  {
    hide SettingUp, Driving, Delivered, LastMoment, CleaningUp;
  }
}
