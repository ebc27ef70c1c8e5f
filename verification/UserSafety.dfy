/** Containment and bookkeeping of a user-space run, whatever its environment does. */
module UserSafety {
  import opened Common
  import opened Bits
  import opened Machine
  import opened TransportSpec
  import opened TransportSafety
  import TransportRefinement
  import opened UserSpec
  import opened TraceEquivalence

  /** The state of a run once its BAR is mapped: every page window in place, no
      step so far outside the rules. */
  ghost predicate Steady(h: History) {
    var s := State(h);
    && Safe(h) && Contained(s) && Owned(s, WindowPages()) && !s.master
    && s.held == {Memory, PciEnabled, Region, Bar}
  }

  /** Steps that change registers only. */
  lemma SteadyAfter(h: History, g: History)
    requires Steady(h) && Safe(g) && Contained(State(g)) && State(g) == State(h).(regs := State(g).regs)
    ensures Steady(g)
  {}

  lemma SteadyRead(dev: Device, h: History, offset: nat)
    requires Steady(h)
    ensures Steady(Observe(dev, h, offset)) && Steady(Then(h, Sleep))
  {
    ObserveKeeps(dev, h, offset);
  }

  lemma SteadyPoll(dev: Device, h: History, check: Check, n: nat)
    requires Steady(h)
    ensures Steady(Poll(dev, h, check, n).1)
  {
    PollKeeps(dev, h, check, n);
  }

  /** Restoring leaves a cold device whose ring words are all cleared. */
  lemma RestoreClears(h: History)
    requires Steady(h)
    ensures var g := QuiesceWrites(h); Steady(g) && Cold(State(g)) && RingsClear(State(g))
  {
    hide Clear, Contained, Safe, Legal, WindowPages;
    QuiesceWritesKeeps(h);
    var c := Clear(QuiesceHead(h), CLEARED_WORDS);
    forall dsp, ring, word | 0 <= dsp < DSP_COUNT && 0 <= ring < RING_COUNT && 0 <= word < 10
      ensures RingWord(State(QuiesceWrites(h)), dsp, ring, word) == 0
    {
      ClearedWord(dsp, ring, word);
      TransportRefinement.ClearZeroes(QuiesceHead(h), CLEARED_WORDS, dsp * 20 + ring * 10 + word);
      RingsDoNotAlias(dsp, ring, word * 4, dsp, ring, word * 4);
    }
    SteadyAfter(h, QuiesceWrites(h));
  }

  // ---------- what is held ----------

  ghost function Window(): map<nat, Address> {
    map slot: nat | slot < |WindowPages()| :: WindowPages()[slot]
  }

  /** Nothing has left the rules, no engine can run, and exactly this much is held. */
  ghost predicate Settled(h: History, mapped: bool, open: bool, bar: bool) {
    var s := State(h);
    && Safe(h) && !s.master && Cold(s) && RingsClear(s)
    && s.held == {Memory} + (if open then {PciEnabled, Region} else {}) + (if bar then {Bar} else {})
    && s.pages == (if mapped then Window() else map[])
  }

  lemma SettledStep(h: History, e: Event)
    requires Safe(h) && Legal(State(h), e) && Cold(State(h)) && RingsClear(State(h)) && !e.Write?
    ensures var g := Then(h, e); Safe(g) && Cold(State(g)) && RingsClear(State(g))
  {
    var s, t := State(h), State(Then(h, e));
    ColdIsContained(t);
    forall dsp, ring, word | 0 <= dsp < DSP_COUNT && 0 <= ring < RING_COUNT && 0 <= word < 10
      ensures RingWord(t, dsp, ring, word) == 0
    {
      assert RingWord(s, dsp, ring, word) == 0;
      RingsDoNotAlias(dsp, ring, word * 4, dsp, ring, word * 4);
    }
  }

  lemma Acquired()
    ensures Settled(Then(Boot, Acquire(Memory)), false, false, false)
  {
    NeverWritten(State(Boot));
    SettledStep(Boot, Acquire(Memory));
  }

  lemma NeverWritten(s: Hardware)
    requires s.regs == map[]
    ensures Cold(s) && RingsClear(s)
  {
    forall dsp, ring, word | 0 <= dsp < DSP_COUNT && 0 <= ring < RING_COUNT && 0 <= word < 10
      ensures RingWord(s, dsp, ring, word) == 0
    {
      RingsDoNotAlias(dsp, ring, word * 4, dsp, ring, word * 4);
    }
  }

  lemma WindowMapped(h: History)
    requires Settled(h, false, false, false)
    ensures Settled(Then(h, MapWindow(WindowPages())), true, false, false)
  {
    SettledStep(h, MapWindow(WindowPages()));
  }

  lemma DeviceOpened(h: History)
    requires Settled(h, true, false, false)
    ensures Settled(Then(Then(h, Acquire(PciEnabled)), Acquire(Region)), true, true, false)
  {
    SettledStep(h, Acquire(PciEnabled));
    SettledStep(Then(h, Acquire(PciEnabled)), Acquire(Region));
  }

  lemma BarMapped(h: History)
    requires Settled(h, true, true, false)
    ensures Settled(Then(h, Acquire(Bar)), true, true, true)
  {
    SettledStep(h, Acquire(Bar));
  }

  lemma SettledIsSteady(h: History)
    requires Settled(h, true, true, true)
    ensures Steady(h)
  {
    ColdIsContained(State(h));
  }

  lemma SteadyIsSettled(h: History)
    requires Steady(h) && Cold(State(h)) && RingsClear(State(h))
    ensures Settled(h, true, true, true)
  {
    assert State(h).pages == Window();
  }

  lemma SettledSame(h: History, g: History)
    requires Settled(h, true, true, true) && Safe(g) && State(g) == State(h)
    ensures Settled(g, true, true, true)
  {}

  lemma DeviceReset(h: History)
    requires Settled(h, true, true, true)
    ensures Settled(Then(h, ResetDevice), true, true, true)
  {
    SettledStep(h, ResetDevice);
  }

  lemma BarReleased(h: History)
    requires Settled(h, true, true, true)
    ensures Settled(Then(h, Release(Bar)), true, true, false)
  {
    SettledStep(h, Release(Bar));
  }

  lemma DeviceClosed(h: History)
    requires Settled(h, true, true, false)
    ensures Settled(Then(Then(h, Release(Region)), Release(PciEnabled)), true, false, false)
  {
    SettledStep(h, Release(Region));
    SettledStep(Then(h, Release(Region)), Release(PciEnabled));
  }

  lemma WindowUnmapped(h: History)
    requires Settled(h, true, false, false)
    ensures Settled(Then(h, UnmapWindow), false, false, false)
  {
    SettledStep(h, UnmapWindow);
  }

  lemma SettledRead(dev: Device, h: History, offset: nat)
    requires Settled(h, true, true, true)
    ensures Settled(Observe(dev, h, offset), true, true, true) && Writes(Observe(dev, h, offset)) == Writes(h)
  {
    SettledIsSteady(h);
    ObserveKeeps(dev, h, offset);
    SettledSame(h, Observe(dev, h, offset));
  }

  lemma SettledPoll(dev: Device, h: History, check: Check, n: nat)
    requires Settled(h, true, true, true)
    ensures Settled(Poll(dev, h, check, n).1, true, true, true) && Writes(Poll(dev, h, check, n).1) == Writes(h)
  {
    SettledIsSteady(h);
    PollKeeps(dev, h, check, n);
    SettledSame(h, Poll(dev, h, check, n).1);
  }

  lemma RestoreSettles(dev: Device, h: History)
    requires Steady(h)
    ensures Settled(Restored(dev, h).1, true, true, true)
  {
    hide Settled, Steady, Poll, QuiesceWrites;
    RestoreClears(h);
    var g := QuiesceWrites(h);
    SteadyIsSettled(g);
    SettledPoll(dev, g, RingWords, CHECKED_WORDS);
    SettledRead(dev, Poll(dev, g, RingWords, CHECKED_WORDS).1, DMA_CONTROL);
  }

  // ---------- opening and cleaning up ----------

  lemma NoWrite(h: History, e: Event)
    requires !e.Write?
    ensures Writes(Then(h, e)) == Writes(h)
  {}

  /** Opening writes no register and holds exactly what its flags say. */
  lemma OpeningSettles(env: Environment, h: History)
    requires Settled(h, false, false, false)
    ensures var o := Opening(env, h);
            && Settled(o.history, o.mapped, o.open, o.bar) && Writes(o.history) == Writes(h)
            && (o.bar ==> o.open) && (o.open ==> o.mapped)
  {
    hide Settled, Writes, WindowPages;
    var h1 := Then(h, MapWindow(WindowPages()));
    WindowMapped(h);
    NoWrite(h, MapWindow(WindowPages()));
    var h2 := Then(Then(h1, Acquire(PciEnabled)), Acquire(Region));
    DeviceOpened(h1);
    NoWrite(h1, Acquire(PciEnabled));
    NoWrite(Then(h1, Acquire(PciEnabled)), Acquire(Region));
    BarMapped(h2);
    NoWrite(h2, Acquire(Bar));
  }

  lemma RecoveringSettles(dev: Device, h: History)
    requires Settled(h, true, true, true)
    ensures var g := Recovering(dev, h).1; Settled(g, true, true, true) && Writes(g) == Writes(h)
  {
    hide Settled, Poll, Writes;
    SettledPoll(dev, h, RingWords, CHECKED_WORDS);
    var h1 := Poll(dev, h, RingWords, CHECKED_WORDS).1;
    SettledRead(dev, h1, DMA_CONTROL);
    SettledPoll(dev, Observe(dev, h1, DMA_CONTROL), ReadyWords, DSP_COUNT);
  }

  /** Cleaning up is legal and contained step by step: the window goes last, from a
      cold device with cleared rings and no BAR. A run that started writes the
      quiescing list, any other nothing. */
  lemma CleaningSettles(env: Environment, o: Opened, startup: bool)
    requires (startup ==> o.bar) && (o.bar ==> o.open) && (o.open ==> o.mapped)
    requires if startup then Steady(o.history) else Settled(o.history, o.mapped, o.open, o.bar)
    ensures var c := CleaningUp(env, o, startup);
            && Settled(c.history, o.mapped && !c.unmapped, false, false)
            && Writes(c.history) == Writes(o.history) + (if startup then QuiesceList() else [])
            && (c.restored ==> startup) && (c.recovered ==> o.bar) && (c.unmapped ==> o.mapped)
  {
    hide Settled, Steady, Restored, Recovering, QuiesceList, Writes;
    var h1 := if startup then Restored(env.device, o.history).1 else o.history;
    if startup {
      RestoreSettles(env.device, o.history);
      ProbeCleanupWrites(env.device, o.history);
    }
    assert Settled(h1, o.mapped, o.open, o.bar);
    var reset := o.open && o.bar && env.succeeds(h1, VfioReset);
    var h2 := if reset then Recovering(env.device, Then(h1, ResetDevice)).1 else h1;
    if reset {
      DeviceReset(h1);
      NoWrite(h1, ResetDevice);
      RecoveringSettles(env.device, Then(h1, ResetDevice));
    }
    var h3 := if o.bar then Then(h2, Release(Bar)) else h2;
    if o.bar {
      BarReleased(h2);
      NoWrite(h2, Release(Bar));
    }
    var h4 := if o.open then Then(Then(h3, Release(Region)), Release(PciEnabled)) else h3;
    if o.open {
      DeviceClosed(h3);
      NoWrite(h3, Release(Region));
      NoWrite(Then(h3, Release(Region)), Release(PciEnabled));
    }
    if o.mapped {
      WindowUnmapped(h4);
      NoWrite(h4, UnmapWindow);
    }
    assert Writes(o.history) + [] == Writes(o.history);
  }

  /** How a run ends: nothing happened, or every step kept the rules and nothing is
      held but possibly the window, with the device cold and its rings cleared. */
  ghost predicate Ended(h: History) {
    Safe(h) && (h == Boot || exists mapped :: Settled(h, mapped, false, false))
  }

  lemma SettledEnds(h: History, mapped: bool)
    requires Settled(h, mapped, false, false)
    ensures Ended(h)
  {}

  /** A run that never passed its gate. */
  lemma RefusedEnds(env: Environment, o: Opened)
    requires (o.bar ==> o.open) && (o.open ==> o.mapped)
    requires Settled(o.history, o.mapped, o.open, o.bar) && Writes(o.history) == []
    ensures var c := CleaningUp(env, o, false); Ended(c.history) && Writes(c.history) == []
  {
    hide Settled, CleaningUp, Steady, Writes, Ended;
    CleaningSettles(env, o, false);
    SettledEnds(CleaningUp(env, o, false).history, o.mapped && !CleaningUp(env, o, false).unmapped);
  }

  lemma BootEnds()
    ensures Ended(Boot) && Writes(Boot) == [] && Writes(Then(Boot, Acquire(Memory))) == []
  {}
}
