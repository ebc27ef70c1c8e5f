/** What the loader writes while it runs, and that every write leaves DMA contained. */
module LoaderSafety {
  import opened Common
  import opened Bits
  import opened Machine
  import opened TransportSpec
  import opened TransportSafety
  import opened UserSpec
  import opened UserSafety
  import opened TraceEquivalence
  import opened Extension
  import opened LoaderSpec
  import StartupProfile

  lemma LoaderRingKeeps(h: History, dsp: nat, ring: nat)
    requires Steady(h) && dsp < DSP_COUNT && ring < RING_COUNT && !Live(State(h), dsp)
    ensures var g := LoaderRing(h, dsp, ring);
            && Steady(g) && OnlyRing(State(h), State(g), dsp, ring) && RingHolds(State(g), dsp, ring, RING_PAGES)
  {
    hide Contained, Safe, Legal, Bit, State, RingBase, WindowPages;
    var base := RingBase(dsp, ring);
    DeadRingWrite(h, dsp, ring, 0x24, 0);
    var h1 := Then(h, Write(base + 0x24, 0));
    DeadRingWrite(h1, dsp, ring, 0x20, 0);
    var h2 := Then(h1, Write(base + 0x20, 0));
    SamePages(h2, dsp, ring, RING_PAGES);
    PublishKeeps(h2, WindowPages(), dsp, ring, RING_PAGES);
    OnlyRingTwice(State(h), State(h2), State(LoaderRing(h, dsp, ring)), dsp, ring);
    SteadyAfter(h, LoaderRing(h, dsp, ring));
  }

  lemma LoaderDspKeeps(h: History, dsp: nat)
    requires Steady(h) && dsp < DSP_COUNT
    requires Shadow(State(h), DMA_CONTROL) == Pow2(dsp + 1) - 1 && AllHold(State(h), dsp)
    ensures Pow2(dsp + 2) - 1 < WORD_LIMIT
    ensures var g := Then(LoaderRing(LoaderRing(h, dsp, 0), dsp, 1), Write(DMA_CONTROL, Pow2(dsp + 2) - 1));
            && Steady(g) && AllHold(State(g), dsp + 1) && Shadow(State(g), DMA_CONTROL) == Pow2(dsp + 2) - 1
  {
    hide Contained, Safe, Legal, Holds, AllHold, LoaderRing, Bit, Pow2, State, WindowPages;
    BitOnes(dsp + 1, dsp + 1);
    LoaderRingKeeps(h, dsp, 0);
    var g0 := LoaderRing(h, dsp, 0);
    LoaderRingKeeps(g0, dsp, 1);
    var g1 := LoaderRing(g0, dsp, 1);
    OneMoreDsp(State(h), State(g0), State(g1), dsp);
    Pow2Monotone(dsp + 2, 9);
    SmallPow2();
    EnableFirst(g1, dsp + 1);
    SteadyAfter(g1, Then(g1, Write(DMA_CONTROL, Pow2(dsp + 2) - 1)));
  }

  lemma {:induction false} LoaderDspsKeep(h: History, n: nat)
    requires Steady(h) && Shadow(State(h), DMA_CONTROL) == DMA_GLOBAL_ONLY && n <= DSP_COUNT
    ensures var g := LoaderDsps(h, n);
            Steady(g) && AllHold(State(g), n) && Shadow(State(g), DMA_CONTROL) == Pow2(n + 1) - 1
  {
    hide Steady, LoaderRing, Pow2, State, Holds;
    SmallPow2();
    if n > 0 {
      LoaderDspsKeep(h, n - 1);
      LoaderDspKeeps(LoaderDsps(h, n - 1), n - 1);
    }
  }

  /** Bring-up ends with every engine enabled on its own pages. */
  lemma LoaderStartupKeeps(h: History)
    requires Steady(h)
    ensures var g := LoaderStartup(h);
            Steady(g) && AllHold(State(g), DSP_COUNT) && Shadow(State(g), DMA_CONTROL) == DMA_ALL_DSPS
  {
    hide LoaderDsps, Pow2, State, Holds, WindowPages, Prologue;
    PrologueKeeps(h, WindowPages());
    SteadyAfter(h, Prologue(h));
    LoaderDspsKeep(Prologue(h), DSP_COUNT);
    SmallPow2();
  }

  /** Positions may be written whether or not the engine is live. */
  lemma PositionWrite(h: History, dsp: nat, ring: nat, at: nat, value: Word)
    requires Steady(h) && dsp < DSP_COUNT && ring < RING_COUNT && 0x20 <= at < 0x28
    ensures Steady(Then(h, Write(RingBase(dsp, ring) + at, value)))
  {
    forall dsp', ring', page |
      0 <= dsp' < DSP_COUNT && Live(State(h), dsp') && 0 <= ring' < RING_COUNT && 0 <= page < RING_PAGES
      ensures RingBase(dsp, ring) + at != PageRegister(dsp', ring', page)
      ensures RingBase(dsp, ring) + at != PageRegister(dsp', ring', page) + 4
    {
      RingsDoNotAlias(dsp, ring, at, dsp', ring', page * 8);
      RingsDoNotAlias(dsp, ring, at, dsp', ring', page * 8 + 4);
    }
    RingsDoNotAlias(dsp, ring, at, dsp, ring, at);
    hide Contained, Safe, Legal, State, RingBase, WindowPages, Live;
    HarmlessWrite(h, RingBase(dsp, ring) + at, value);
    SteadyAfter(h, Then(h, Write(RingBase(dsp, ring) + at, value)));
  }

  lemma InterruptWrite(h: History, value: Word)
    requires Steady(h)
    ensures Steady(Then(h, Write(INTERRUPT_ENABLE, value)))
  {
    hide Contained, Safe, Legal, State, WindowPages;
    ControlWrite(h, INTERRUPT_ENABLE, value);
    SteadyAfter(h, Then(h, Write(INTERRUPT_ENABLE, value)));
  }

  // ---------- the same trace ----------

  lemma LoaderRingAppends(h: History, dsp: nat, ring: nat)
    requires dsp < DSP_COUNT && ring < RING_COUNT
    ensures Writes(LoaderRing(h, dsp, ring)) ==
            Writes(h) + Writes(InitRing(Fixed(_ => 0), Boot, WindowPages(), dsp, ring))
  {
    hide RingBase, Publish, PublishFrom, WindowPages;
    var base, zero := RingBase(dsp, ring), (_ => 0);
    var seeded := Then(Then(h, Write(base + 0x24, 0)), Write(base + 0x20, 0));
    var fixed := SeedIndex(Fixed(zero), Boot, dsp, ring);
    TwoWrites(h, (base + 0x24, 0), (base + 0x20, 0));
    SeedWrites(Fixed(zero), Boot, dsp, ring, 0);
    SamePages(seeded, dsp, ring, RING_PAGES);
    PublishAppends(seeded, WindowPages(), dsp, ring, RING_PAGES);
    PublishAppends(fixed, WindowPages(), dsp, ring, RING_PAGES);
  }

  lemma LoaderDspAppends(h: History, dsp: nat, value: Word)
    requires dsp < DSP_COUNT
    ensures Writes(Then(LoaderRing(LoaderRing(h, dsp, 0), dsp, 1), Write(DMA_CONTROL, value))) ==
            Writes(h) + (Writes(InitRing(Fixed(_ => 0), Boot, WindowPages(), dsp, 0))
                         + Writes(InitRing(Fixed(_ => 0), Boot, WindowPages(), dsp, 1)) + [(DMA_CONTROL, value)])
  {
    hide InitRing, LoaderRing, RingBase, WindowPages;
    LoaderRingAppends(h, dsp, 0);
    LoaderRingAppends(LoaderRing(h, dsp, 0), dsp, 1);
  }

  lemma {:induction false} LoaderDspsAppend(h: History, n: nat)
    requires n <= DSP_COUNT
    ensures Writes(LoaderDsps(h, n)) == Writes(h) + BringUpWrites(WindowPages(), _ => 0, n)
  {
    hide InitRing, LoaderRing, Pow2, RingBase, WindowPages, Writes;
    if n > 0 {
      LoaderDspsAppend(h, n - 1);
      Pow2Monotone(n + 1, 9);
      SmallPow2();
      LoaderDspAppends(LoaderDsps(h, n - 1), n - 1, Pow2(n + 1) - 1);
    }
  }

  /** The loader brings the device up with the very writes the driver and the start
      probe emit for rings whose indexes read zero. */
  lemma LoaderStartupWrites(h: History)
    ensures Writes(LoaderStartup(h)) == Writes(h) + StartWrites(WindowPages(), _ => 0)
  {
    hide Prologue, LoaderDsps, BringUpWrites, WindowPages;
    PrologueAppends(h);
    LoaderDspsAppend(Prologue(h), DSP_COUNT);
  }

  // ---------- the fixed lists of writes ----------

  function PositionWrites(dsp: nat, ring: nat, position: Word): seq<(nat, Word)> {
    [(RingBase(dsp, ring) + 0x24, position), (RingBase(dsp, ring) + 0x20, position)]
  }

  /** One connect command for each of the first n DSPs. */
  function ConnectWrites(n: nat): seq<(nat, Word)>
    requires n <= DSP_COUNT
  {
    if n == 0 then []
    else ConnectWrites(n - 1) + (PositionWrites(n - 1, 0, 1) + [(INTERRUPT_ENABLE, Shadowed(n))])
  }

  /** The response buffer is handed over before the command that fills it. */
  function TransferWrites(position: Word): seq<(nat, Word)> {
    ShadowFits(Shadowed(DSP_COUNT), 1);
    ShadowFits(Or(Shadowed(DSP_COUNT), Pow2(1)), 0);
    var response: Word := Or(Shadowed(DSP_COUNT), Pow2(1));
    var command: Word := Or(response, Pow2(0));
    PositionWrites(0, 1, 1) + [(INTERRUPT_ENABLE, response)] + PositionWrites(0, 0, position)
    + [(INTERRUPT_ENABLE, command)]
  }

  /** The writes of bring-up and connects. */
  function ConnectedWrites(): seq<(nat, Word)> {
    hide StartWrites, ConnectWrites, PositionWrites, WindowPages, RingBase;
    StartWrites(WindowPages(), _ => 0) + (ConnectWrites(DSP_COUNT) + PositionWrites(0, 0, 2))
  }

  /** All register writes of a run that started, or did not, and whose connects
      were consumed, or were not. */
  function RunWrites(started: bool, connected: bool, position: Word): seq<(nat, Word)> {
    if !started then []
    else ConnectedWrites() + (if connected then TransferWrites(position) else []) + QuiesceList()
  }

  // ---------- every stage keeps the run steady and continues it ----------

  /** A steady run that continues `a` by work. */
  ghost predicate On(a: History, h: History) {
    Steady(h) && Extends(a, h)
  }

  lemma OnRead(dev: Device, a: History, h: History, offset: nat)
    requires On(a, h)
    ensures On(a, Observe(dev, h, offset)) && Writes(Observe(dev, h, offset)) == Writes(h)
    ensures On(a, Then(h, Sleep)) && Writes(Then(h, Sleep)) == Writes(h)
  {
    hide Steady;
    SteadyRead(dev, h, offset);
  }

  lemma OnInterrupt(a: History, h: History, value: Word)
    requires On(a, h)
    ensures On(a, Then(h, Write(INTERRUPT_ENABLE, value)))
    ensures Writes(Then(h, Write(INTERRUPT_ENABLE, value))) == Writes(h) + [(INTERRUPT_ENABLE, value)]
  {
    hide Steady, Extends;
    InterruptWrite(h, value);
    ControlExtends(a, h, INTERRUPT_ENABLE, value);
  }

  lemma OnPosition(a: History, h: History, dsp: nat, ring: nat, position: Word)
    requires On(a, h) && dsp < DSP_COUNT && ring < RING_COUNT
    ensures var g := Positioned(h, dsp, ring, position);
            On(a, g) && Writes(g) == Writes(h) + PositionWrites(dsp, ring, position)
  {
    hide Steady, Extends, RingBase;
    TwoWrites(h, (RingBase(dsp, ring) + 0x24, position), (RingBase(dsp, ring) + 0x20, position));
    PositionWrite(h, dsp, ring, 0x24, position);
    RingWriteExtends(a, h, dsp, ring, 9, position);
    var h1 := Then(h, Write(RingBase(dsp, ring) + 0x24, position));
    PositionWrite(h1, dsp, ring, 0x20, position);
    RingWriteExtends(a, h1, dsp, ring, 8, position);
  }

  lemma ConnectKeeps(a: History, h: History, dsp: nat, shadow: Word)
    requires On(a, h) && dsp < DSP_COUNT
    ensures var g := Then(Positioned(h, dsp, 0, 1), Write(INTERRUPT_ENABLE, shadow));
            On(a, g) && Writes(g) == Writes(h) + (PositionWrites(dsp, 0, 1) + [(INTERRUPT_ENABLE, shadow)])
  {
    hide On, Writes, Positioned, PositionWrites;
    OnPosition(a, h, dsp, 0, 1);
    OnInterrupt(a, Positioned(h, dsp, 0, 1), shadow);
  }

  lemma {:induction false} ConnectingKeeps(a: History, h: History, n: nat)
    requires On(a, h) && n <= DSP_COUNT
    ensures On(a, Connecting(h, n)) && Writes(Connecting(h, n)) == Writes(h) + ConnectWrites(n)
  {
    hide On, Writes, Positioned, PositionWrites, Shadowed, StartupProfile.ConnectShadow;
    if n > 0 {
      ConnectingKeeps(a, h, n - 1);
      ConnectKeeps(a, Connecting(h, n - 1), n - 1, Shadowed(n));
    }
  }

  lemma ConnectedKeeps(a: History, h: History)
    requires On(a, h)
    ensures On(a, Connected(h))
    ensures Writes(Connected(h)) == Writes(h) + (ConnectWrites(DSP_COUNT) + PositionWrites(0, 0, 2))
  {
    hide On, Writes, Positioned, PositionWrites, Connecting, ConnectWrites;
    ConnectingKeeps(a, h, DSP_COUNT);
    OnPosition(a, Connecting(h, DSP_COUNT), 0, 0, 2);
  }

  lemma {:induction false} ConsumedKeeps(dev: Device, a: History, h: History, n: nat)
    requires On(a, h)
    ensures On(a, Consumed(dev, h, n).1) && Writes(Consumed(dev, h, n).1) == Writes(h)
  {
    hide On, Writes, RingBase;
    if n > 0 {
      ConsumedKeeps(dev, a, h, n - 1);
      OnRead(dev, a, Consumed(dev, h, n - 1).1, RingBase(n - 1, 0) + 0x28);
    }
  }

  lemma {:induction false} AwaitingKeeps(env: Environment, a: History, h: History, poll: nat)
    requires On(a, h)
    ensures On(a, Awaiting(env, h, poll).history) && Writes(Awaiting(env, h, poll).history) == Writes(h)
    decreases CONNECT_LIMIT - poll
  {
    hide On, Writes, Consumed;
    if !(poll >= CONNECT_LIMIT || env.pending(h)) {
      ConsumedKeeps(env.device, a, h, DSP_COUNT);
      var g := Consumed(env.device, h, DSP_COUNT).1;
      OnRead(env.device, a, g, 0);
      if !Consumed(env.device, h, DSP_COUNT).0 {
        AwaitingKeeps(env, a, Then(g, Sleep), poll + 1);
      }
    }
  }

  lemma SubmittedKeeps(a: History, h: History, position: Word)
    requires On(a, h)
    ensures On(a, Submitted(h, position)) && Writes(Submitted(h, position)) == Writes(h) + TransferWrites(position)
  {
    hide On, Writes, Or, Pow2, Positioned, PositionWrites, Shadowed;
    ShadowFits(Shadowed(DSP_COUNT), 1);
    ShadowFits(Or(Shadowed(DSP_COUNT), Pow2(1)), 0);
    var response: Word := Or(Shadowed(DSP_COUNT), Pow2(1));
    var command: Word := Or(response, Pow2(0));
    OnPosition(a, h, 0, 1, 1);
    OnInterrupt(a, Positioned(h, 0, 1, 1), response);
    var h1 := Then(Positioned(h, 0, 1, 1), Write(INTERRUPT_ENABLE, response));
    OnPosition(a, h1, 0, 0, position);
    OnInterrupt(a, Positioned(h1, 0, 0, position), command);
  }

  lemma IndexedKeeps(dev: Device, a: History, h: History)
    requires On(a, h)
    ensures On(a, Indexed(dev, h)) && Writes(Indexed(dev, h)) == Writes(h)
    ensures On(a, Then(Indexed(dev, h), Sleep)) && Writes(Then(Indexed(dev, h), Sleep)) == Writes(h)
  {
    hide On, Writes, RingBase;
    OnRead(dev, a, h, COMMAND_INDEX);
    OnRead(dev, a, Observe(dev, h, COMMAND_INDEX), RESPONSE_INDEX);
    OnRead(dev, a, Indexed(dev, h), 0);
  }

  lemma {:induction false} WaitingKeeps(
    env: Environment, a: History, h: History, position: Word, poll: nat, progress: bool)
    requires On(a, h)
    ensures var w := Waiting(env, h, position, poll, progress); On(a, w.history) && Writes(w.history) == Writes(h)
    decreases POLL_LIMIT - poll
  {
    hide On, Writes, Indexed, CommandIndex, ResponseIndex;
    if !(poll >= POLL_LIMIT || env.pending(h)) {
      var g := Indexed(env.device, h);
      IndexedKeeps(env.device, a, h);
      WaitingKeeps(env, a, Then(g, Sleep), position, poll + 1, progress || CommandIndex(env.device, h) != 2);
    }
  }

  lemma JudgingKeeps(env: Environment, a: History, h: History, snapshot: seq<Word>, position: Word, progress: bool)
    requires On(a, h)
    ensures var v := Judging(env, h, snapshot, position, progress);
            && On(a, v.answered) && On(a, v.checked) && Writes(v.checked) == Writes(h)
            && Extends(h, v.answered) && Extends(v.answered, v.checked)
  {
    hide On, Writes, Indexed, CommandIndex, ResponseIndex, Poll, ConfinedToResponse, Steady, Extends;
    var dev, answered := env.device, Indexed(env.device, h);
    OnItself(a, h);
    IndexedKeeps(dev, a, h);
    IndexedKeeps(dev, h, h);
    OnItself(a, answered);
    IndexedKeeps(dev, a, answered);
    IndexedKeeps(dev, answered, answered);
    var read := Indexed(dev, answered);
    OnPoll(dev, a, read, ReadyWords, DSP_COUNT);
    OnPoll(dev, answered, read, ReadyWords, DSP_COUNT);
    OnMeans(h, answered);
    OnMeans(answered, Poll(dev, read, ReadyWords, DSP_COUNT).1);
  }

  lemma OnItself(a: History, h: History)
    requires On(a, h)
    ensures On(h, h)
  {}

  lemma OnMeans(a: History, h: History)
    requires On(a, h)
    ensures Steady(h) && Extends(a, h)
  {}

  lemma OnPoll(dev: Device, a: History, h: History, check: Check, n: nat)
    requires On(a, h)
    ensures On(a, Poll(dev, h, check, n).1) && Writes(Poll(dev, h, check, n).1) == Writes(h)
  {
    hide Steady, Extends, Poll;
    SteadyPoll(dev, h, check, n);
    PollExtends(dev, a, h, check, n);
    PollKeeps(dev, h, check, n);
  }

  lemma StartupExtends(h: History)
    ensures Extends(h, LoaderStartup(h))
  {
    hide Extends, LoaderDsps;
    ExtendsSelf(h);
    PrologueExtends(h, h);
    DspsExtend(h, Prologue(h), DSP_COUNT);
  }

  lemma PrologueExtends(a: History, h: History)
    requires Extends(a, h)
    ensures Extends(a, Prologue(h))
  {
    hide Extends, Work;
    ControlExtends(a, h, NOTIFICATION_CONTROL, 0);
    var h1 := Then(h, Write(NOTIFICATION_CONTROL, 0));
    ControlExtends(a, h1, INTERRUPT_ENABLE, 0);
    var h2 := Then(h1, Write(INTERRUPT_ENABLE, 0));
    ControlExtends(a, h2, INTERRUPT_ACK, 0);
    var h3 := Then(h2, Write(INTERRUPT_ACK, 0));
    ControlExtends(a, h3, DMA_CONTROL, DMA_RESET_GLOBAL);
    var h4 := Then(h3, Write(DMA_CONTROL, DMA_RESET_GLOBAL));
    ControlExtends(a, h4, DMA_CONTROL, DMA_GLOBAL_ONLY);
    ControlExtends(a, Then(h4, Write(DMA_CONTROL, DMA_GLOBAL_ONLY)), INTERRUPT_ACK, ALL_ONES);
  }

  lemma RingExtends(a: History, h: History, dsp: nat, ring: nat)
    requires Extends(a, h) && dsp < DSP_COUNT && ring < RING_COUNT
    ensures Extends(a, LoaderRing(h, dsp, ring))
  {
    hide Extends, RingBase, PublishFrom;
    RingWriteExtends(a, h, dsp, ring, 9, 0);
    var h1 := Then(h, Write(RingBase(dsp, ring) + 0x24, 0));
    RingWriteExtends(a, h1, dsp, ring, 8, 0);
    PublishExtends(a, Then(h1, Write(RingBase(dsp, ring) + 0x20, 0)), dsp, ring, FirstIova(dsp, ring), RING_PAGES);
  }

  lemma {:induction false} DspsExtend(a: History, h: History, n: nat)
    requires Extends(a, h) && n <= DSP_COUNT
    ensures Extends(a, LoaderDsps(h, n))
  {
    hide Extends, LoaderRing, Pow2;
    if n > 0 {
      DspsExtend(a, h, n - 1);
      RingExtends(a, LoaderDsps(h, n - 1), n - 1, 0);
      RingExtends(a, LoaderRing(LoaderDsps(h, n - 1), n - 1, 0), n - 1, 1);
      Pow2Monotone(n + 1, 9);
      SmallPow2();
      ControlExtends(a, LoaderRing(LoaderRing(LoaderDsps(h, n - 1), n - 1, 0), n - 1, 1), DMA_CONTROL,
                     Pow2(n + 1) - 1);
    }
  }
}
