/** What happens beside register accesses, and when: clearing the pages, bus mastering
    and sleeping, in the driver, the start probe and the loader. */
module Steps {
  import opened Common
  import opened Bits
  import opened Machine
  import opened TransportSpec
  import opened TransportSafety
  import opened UserSpec
  import opened OctoSpec
  import opened Conversation
  import LoaderSpec

  /** Everything that happened beside reads and writes, in order. */
  function Marks(h: History): seq<Event> {
    match h
    case Boot => []
    case Then(past, e) => if e.Read? || e.Write? then Marks(past) else Marks(past) + [e]
  }

  function Sleeps(n: nat): (s: seq<Event>)
    ensures |s| == n
  {
    seq(n, _ => Sleep)
  }

  /** From one moment to another nothing but registers was accessed. */
  predicate Accesses(h: History, g: History) {
    g == h || (g.Then? && (g.event.Read? || g.event.Write?) && Accesses(h, g.past))
  }

  lemma {:induction false} AccessesJoin(h: History, g: History, k: History)
    requires Accesses(h, g) && Accesses(g, k)
    ensures Accesses(h, k)
  {
    if k != g {
      AccessesJoin(h, g, k.past);
    }
  }

  lemma {:induction false} AccessesMean(h: History, g: History, e: Event)
    requires Accesses(h, g) && !e.Read? && !e.Write?
    ensures Marks(g) == Marks(h) && Until(g, e) == Until(h, e)
  {
    if g != h {
      AccessesMean(h, g.past, e);
    }
  }

  lemma {:induction false} PollAccesses(dev: Device, h: History, check: Check, n: nat)
    ensures Accesses(h, Poll(dev, h, check, n).1)
  {
    hide RingBase, ReadyOffset, PageRegister, Join32;
    if n > 0 {
      PollAccesses(dev, h, check, n - 1);
      InspectAccesses(dev, h, Poll(dev, h, check, n - 1).1, check, n - 1);
    }
  }

  lemma InspectAccesses(dev: Device, h: History, g: History, check: Check, i: nat)
    requires Accesses(h, g)
    ensures Accesses(h, Inspect(dev, g, check, i).1)
  {
    hide RingBase, ReadyOffset, PageRegister, Join32;
  }

  lemma ColdAccesses(dev: Device, h: History)
    ensures Accesses(h, ColdCheck(dev, h).1)
  {
    hide Poll;
    var h1 := Observe(dev, h, DMA_CONTROL);
    var h2 := Observe(dev, h1, INTERRUPT_ENABLE);
    var h3 := Observe(dev, h2, FPGA_REVISION);
    assert Accesses(h, h2) by { assert Accesses(h, h1); }
    assert Accesses(h, h3);
    var h4 := Observe(dev, h3, EXTENDED_CAPABILITIES);
    PollAccesses(dev, h4, RingWords, CHECKED_WORDS);
    var h5 := Poll(dev, h4, RingWords, CHECKED_WORDS).1;
    AccessesJoin(h, h4, h5);
    PollAccesses(dev, h5, ReadyWords, DSP_COUNT);
    AccessesJoin(h, h5, Poll(dev, h5, ReadyWords, DSP_COUNT).1);
  }

  lemma {:induction false} ClearAccesses(h: History, n: nat)
    ensures Accesses(h, Clear(h, n))
  {
    hide RingBase;
    if n > 0 {
      ClearAccesses(h, n - 1);
    }
  }

  lemma QuiesceAccesses(h: History)
    ensures Accesses(h, QuiesceWrites(h))
  {
    hide Clear;
    var h2 := Then(Then(h, Write(INTERRUPT_ENABLE, 0)), Write(INTERRUPT_ACK, ALL_ONES));
    assert Accesses(h, h2) by { assert Accesses(h, h2.past); }
    assert Accesses(h2, QuiesceHead(h)) by { assert Accesses(h2, QuiesceHead(h).past); }
    AccessesJoin(h, h2, QuiesceHead(h));
    ClearAccesses(QuiesceHead(h), CLEARED_WORDS);
    AccessesJoin(h, QuiesceHead(h), Clear(QuiesceHead(h), CLEARED_WORDS));
  }

  lemma PrologueAccesses(h: History)
    ensures Accesses(h, Prologue(h))
  {
    var h2 := Then(Then(h, Write(NOTIFICATION_CONTROL, 0)), Write(INTERRUPT_ENABLE, 0));
    assert Accesses(h, h2) by { assert Accesses(h, h2.past); }
    var h4 := Then(Then(h2, Write(INTERRUPT_ACK, 0)), Write(DMA_CONTROL, DMA_RESET_GLOBAL));
    assert Accesses(h2, h4) by { assert Accesses(h2, h4.past); }
    assert Accesses(h4, Prologue(h)) by { assert Accesses(h4, Prologue(h).past); }
    AccessesJoin(h, h2, h4);
    AccessesJoin(h, h4, Prologue(h));
  }

  lemma {:induction false} PublishAccesses(h: History, dma: seq<Address>, dsp: nat, ring: nat, n: nat)
    requires PageTable(dma) && dsp < DSP_COUNT && ring < RING_COUNT && n <= RING_PAGES
    ensures Accesses(h, Publish(h, dma, dsp, ring, n))
  {
    hide PageRegister, Low32, High32, Slot;
    if n > 0 {
      PublishAccesses(h, dma, dsp, ring, n - 1);
    }
  }

  lemma SeedAccesses(dev: Device, h: History, dsp: nat, ring: nat)
    ensures Accesses(h, SeedIndex(dev, h, dsp, ring))
  {
    hide RingBase, BoundedIndex;
    var g := SeedIndex(dev, h, dsp, ring);
    assert Accesses(h, g.past.past);
    assert Accesses(h, g.past);
  }

  lemma {:induction false} InitDspsAccess(dev: Device, h: History, dma: seq<Address>, n: nat)
    requires PageTable(dma) && n <= DSP_COUNT
    ensures Accesses(h, InitDsps(dev, h, dma, n))
  {
    hide SeedIndex, Publish, Pow2;
    if n > 0 {
      InitDspsAccess(dev, h, dma, n - 1);
      var g := InitDsps(dev, h, dma, n - 1);
      RingAccesses(dev, h, g, dma, n - 1, 0);
      RingAccesses(dev, h, InitRing(dev, g, dma, n - 1, 0), dma, n - 1, 1);
    }
  }

  lemma RingAccesses(dev: Device, h: History, g: History, dma: seq<Address>, dsp: nat, ring: nat)
    requires PageTable(dma) && dsp < DSP_COUNT && ring < RING_COUNT && Accesses(h, g)
    ensures Accesses(h, InitRing(dev, g, dma, dsp, ring))
  {
    hide SeedIndex, Publish, Accesses;
    SeedAccesses(dev, g, dsp, ring);
    var s := SeedIndex(dev, g, dsp, ring);
    PublishAccesses(s, dma, dsp, ring, RING_PAGES);
    AccessesJoin(h, g, s);
    AccessesJoin(h, s, InitRing(dev, g, dma, dsp, ring));
  }

  lemma LaunchAccesses(dev: Device, h: History, dma: seq<Address>)
    requires PageTable(dma)
    ensures Accesses(Then(Then(h, ZeroPages), SetMaster), Launch(dev, h, dma))
  {
    hide InitDsps, Prologue;
    var m := Then(Then(h, ZeroPages), SetMaster);
    PrologueAccesses(m);
    InitDspsAccess(dev, Prologue(m), dma, DSP_COUNT);
    AccessesJoin(m, Prologue(m), InitDsps(dev, Prologue(m), dma, DSP_COUNT));
  }

  lemma VerdictAccesses(dev: Device, h: History, dma: seq<Address>)
    requires PageTable(dma)
    ensures Accesses(h, Verdict(dev, h, dma).1)
  {
    hide Poll;
    var h1 := Observe(dev, h, DMA_CONTROL);
    assert Accesses(h, h1);
    PollAccesses(dev, h1, Descriptors(dma), PAGE_SLOTS);
    var h2 := Poll(dev, h1, Descriptors(dma), PAGE_SLOTS).1;
    AccessesJoin(h, h1, h2);
    PollAccesses(dev, h2, ReadyWords, DSP_COUNT);
    AccessesJoin(h, h2, Poll(dev, h2, ReadyWords, DSP_COUNT).1);
  }

  /** A start that found the device cold clears the pages, then turns bus mastering on,
      and only then writes a register; one that is rolled back turns it off at the very
      end. A refused start does nothing of the kind. */
  lemma StartSteps(dev: Device, h: History, dma: seq<Address>)
    requires PageTable(dma)
    ensures var r := Start(dev, h, dma, false);
            && Marks(r.history) ==
               Marks(h) + (if r.code == Busy then []
                           else if r.code == Done then [ZeroPages, SetMaster]
                           else [ZeroPages, SetMaster, ClearMaster])
            && (r.code == Busy ==> Writes(r.history) == Writes(h))
            && (r.code != Busy ==>
                  Until(r.history, SetMaster).Then? && Writes(Until(r.history, SetMaster)) == Writes(h))
            && (r.code == IoError ==> r.history.Then? && r.history.event == ClearMaster)
  {
    hide ColdCheck, Launch, Verdict, QuiesceWrites, Accesses, Writes;
    ColdAccesses(dev, h);
    ColdCheckKeeps(dev, h);
    var (cold, h1) := ColdCheck(dev, h);
    AccessesMean(h, h1, SetMaster);
    if cold {
      var up := Launch(dev, h1, dma);
      LaunchAccesses(dev, h1, dma);
      VerdictAccesses(dev, up, dma);
      var (good, h2) := Verdict(dev, up, dma);
      var m := Then(Then(h1, ZeroPages), SetMaster);
      AccessesJoin(m, up, h2);
      AccessesMean(m, h2, SetMaster);
      MasterOn(h1);
      if !good {
        QuiesceAccesses(h2);
        MasterOff(dev, h2);
      }
    }
  }

  lemma MasterOn(h: History)
    ensures var m := Then(Then(h, ZeroPages), SetMaster);
            Marks(m) == Marks(h) + [ZeroPages, SetMaster] && Until(m, SetMaster) == m && Writes(m) == Writes(h)
  {
    assert Marks(Then(h, ZeroPages)) == Marks(h) + [ZeroPages];
  }

  lemma MasterOff(dev: Device, h: History)
    requires Accesses(h, QuiesceWrites(h))
    ensures var g := Quiesce(dev, h);
            && Marks(g) == Marks(h) + [ClearMaster] && Until(g, SetMaster) == Until(h, SetMaster)
            && Until(g, ClearMaster) == g && g.event == ClearMaster
  {
    hide QuiesceWrites, Accesses;
    AccessesMean(h, QuiesceWrites(h), SetMaster);
    var w := Observe(dev, QuiesceWrites(h), DMA_CONTROL);
    assert Marks(w) == Marks(h) && Until(w, SetMaster) == Until(h, SetMaster);
  }

  /** A stop turns bus mastering off behind its last write, once. */
  lemma StopSteps(dev: Device, h: History)
    ensures var g := Stop(dev, h, true).history;
            Marks(g) == Marks(h) + [ClearMaster] && Writes(Until(g, ClearMaster)) == Writes(g)
  {
    hide ColdCheck, Quiesce, Accesses, Writes;
    QuiesceAccesses(h);
    MasterOff(dev, h);
    var q := Quiesce(dev, h);
    ColdAccesses(dev, q);
    ColdCheckKeeps(dev, q);
    AccessesMean(q, ColdCheck(dev, q).1, ClearMaster);
  }

  /** A reset sleeps once, between its two writes that disable the engine and the one
      that enables it again. */
  lemma ResetSteps(dev: Device, h: History, dsp: nat)
    requires dsp < DSP_COUNT && dev(h, DMA_CONTROL) == 0x1ff
    ensures var g := Reset(dev, h, true, dsp, 0).history;
            && Marks(g) == Marks(h) + [Sleep]
            && |Writes(Until(g, Sleep))| == |Writes(h)| + 2 && |Writes(g)| == |Writes(h)| + 3
  {
    hide Pulse, Disabled, ReadyOffset;
    var h1 := Observe(dev, h, DMA_CONTROL);
    assert Marks(h1) == Marks(h) && Writes(h1) == Writes(h);
    var h2 := Then(Then(h1, Write(DMA_CONTROL, Pulse(dsp))), Write(DMA_CONTROL, Disabled(dsp)));
    assert Marks(h2.past) == Marks(h) && |Writes(h2.past)| == |Writes(h)| + 1;
    assert Marks(h2) == Marks(h) && |Writes(h2)| == |Writes(h)| + 2;
    var s := Then(h2, Sleep);
    var h3 := Then(Observe(dev, s, ReadyOffset(dsp)), Write(DMA_CONTROL, DMA_ALL_DSPS));
    assert Accesses(s, h3) by { assert Accesses(s, h3.past); }
    assert Writes(h3.past) == Writes(s) == Writes(h2);
    var h5 := Observe(dev, Observe(dev, h3, DMA_CONTROL), DMA_CONTROL);
    assert Accesses(s, h5.past);
    assert Accesses(s, h5) && Writes(h5) == Writes(h3);
    var g := Observe(dev, h5, ReadyOffset(dsp));
    assert Accesses(s, g) && Writes(g) == Writes(h3);
    AccessesMean(s, g, Sleep);
  }

  // ---------- the start probe ----------

  lemma ExerciseSteps(dev: Device, h: History, dsp: nat)
    requires dsp < DSP_COUNT
    ensures Marks(Exercise(dev, h, dsp).1) == Marks(h) + [Sleep]
  {
    hide Poll, Pulse, Disabled;
    var h0 := Then(Then(h, Write(DMA_CONTROL, Pulse(dsp))), Write(DMA_CONTROL, Disabled(dsp)));
    assert Marks(h0.past) == Marks(h);
    assert Marks(h0) == Marks(h);
    var h1 := Then(h0, Sleep);
    var h2 := Observe(dev, h1, DMA_CONTROL);
    assert Accesses(h1, h2);
    PollAccesses(dev, h2, ReadyWords, DSP_COUNT);
    var h3 := Poll(dev, h2, ReadyWords, DSP_COUNT).1;
    AccessesJoin(h1, h2, h3);
    var h5 := Observe(dev, Then(h3, Write(DMA_CONTROL, DMA_ALL_DSPS)), DMA_CONTROL);
    assert Accesses(h1, h5.past);
    PollAccesses(dev, h5, ReadyWords, DSP_COUNT);
    AccessesJoin(h1, h5, Poll(dev, h5, ReadyWords, DSP_COUNT).1);
    hide Accesses;
    AccessesMean(h1, Exercise(dev, h, dsp).1, Sleep);
  }

  lemma SleepsMore(n: nat)
    ensures Sleeps(n) + [Sleep] == Sleeps(n + 1)
  {}

  /** Every exercise sleeps once, passed or failed. */
  lemma {:induction false} LoopSteps(env: Environment, h: History, n: nat)
    requires n <= DSP_COUNT
    ensures var e := ExerciseLoop(env, h, n);
            Marks(e.history) == Marks(h) + Sleeps(e.passes + if e.allOk then 0 else 1)
    ensures ExerciseLoop(env, h, n).going ==> ExerciseLoop(env, h, n).allOk
  {
    hide Exercise, Marks, Sleeps, Or, EnableBit;
    NoSleep();
    if n > 0 {
      LoopSteps(env, h, n - 1);
      var e := ExerciseLoop(env, h, n - 1);
      if e.going && !env.pending(e.history) {
        ExerciseSteps(env.device, e.history, n - 1);
        SleepsMore(e.passes);
      }
    }
  }

  lemma NoSleep()
    ensures Sleeps(0) == []
  {}

  // ---------- the loader ----------

  lemma {:induction false} ConsumedAccesses(dev: Device, h: History, n: nat)
    ensures Accesses(h, LoaderSpec.Consumed(dev, h, n).1)
  {
    hide RingBase;
    if n > 0 {
      ConsumedAccesses(dev, h, n - 1);
    }
  }

  /** The wait for the connects sleeps once a turn, but not after the turn that found
      them consumed. */
  lemma {:induction false} AwaitingSteps(env: Environment, h: History, poll: nat)
    requires poll <= LoaderSpec.CONNECT_LIMIT
    ensures var a := LoaderSpec.Awaiting(env, h, poll);
            && a.turns >= poll + (if a.consumed then 1 else 0)
            && Marks(a.history) == Marks(h) + Sleeps(a.turns - poll - if a.consumed then 1 else 0)
    decreases LoaderSpec.CONNECT_LIMIT - poll
  {
    hide Marks, Accesses, Sleeps, LoaderSpec.Consumed;
    NoSleep();
    if poll < LoaderSpec.CONNECT_LIMIT && !env.pending(h) {
      var (consumed, g) := LoaderSpec.Consumed(env.device, h, DSP_COUNT);
      ConsumedAccesses(env.device, h, DSP_COUNT);
      AccessesMean(h, g, Sleep);
      if !consumed {
        SleepMarks(g);
        AwaitingSteps(env, Then(g, Sleep), poll + 1);
        var a := LoaderSpec.Awaiting(env, h, poll);
        SleepFirst(a.turns - poll - 1 - if a.consumed then 1 else 0);
      }
    }
  }

  lemma SleepMarks(h: History)
    ensures Marks(Then(h, Sleep)) == Marks(h) + [Sleep]
  {}

  lemma SleepFirst(n: nat)
    ensures [Sleep] + Sleeps(n) == Sleeps(n + 1)
  {}

  lemma IndexedAccesses(dev: Device, h: History)
    ensures Accesses(h, LoaderSpec.Indexed(dev, h))
  {
    hide RingBase;
    assert Accesses(h, LoaderSpec.Indexed(dev, h).past);
  }

  /** The wait for the transfer sleeps once a turn, but not after the turn that found it
      complete or gave up for want of progress. */
  lemma {:induction false} WaitingSteps(env: Environment, h: History, position: Word, poll: nat, progress: bool)
    requires poll <= LoaderSpec.POLL_LIMIT && (!progress ==> poll < LoaderSpec.NO_PROGRESS_LIMIT)
    ensures var w := LoaderSpec.Waiting(env, h, position, poll, progress);
            var last := if w.complete || (!w.progress && w.turns == LoaderSpec.NO_PROGRESS_LIMIT) then 1 else 0;
            w.turns >= poll + last && Marks(w.history) == Marks(h) + Sleeps(w.turns - poll - last)
    decreases LoaderSpec.POLL_LIMIT - poll
  {
    hide Marks, Accesses, Sleeps, LoaderSpec.Indexed, LoaderSpec.CommandIndex, LoaderSpec.ResponseIndex;
    NoSleep();
    if poll < LoaderSpec.POLL_LIMIT && !env.pending(h) {
      var dev := env.device;
      var g, c := LoaderSpec.Indexed(dev, h), LoaderSpec.CommandIndex(dev, h);
      IndexedAccesses(dev, h);
      AccessesMean(h, g, Sleep);
      var seen := progress || c != 2;
      if !(c == position && LoaderSpec.ResponseIndex(dev, h) == 1
           && env.memory(g, LoaderSpec.RESPONSE) != LoaderSpec.CANARY)
         && !(!seen && poll + 1 >= LoaderSpec.NO_PROGRESS_LIMIT)
      {
        SleepMarks(g);
        WaitingSteps(env, Then(g, Sleep), position, poll + 1, seen);
        var w := LoaderSpec.Waiting(env, h, position, poll, progress);
        var last := if w.complete || (!w.progress && w.turns == LoaderSpec.NO_PROGRESS_LIMIT) then 1 else 0;
        SleepFirst(w.turns - poll - 1 - last);
      }
    }
  }
}
