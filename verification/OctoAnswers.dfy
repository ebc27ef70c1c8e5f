/** When a run of the start probe succeeds, in any environment: by the reads it made,
    the words of its pages, the calls that succeeded and the absence of a signal. */
module OctoAnswers {
  import opened Common
  import opened Bits
  import Bytes
  import opened Machine
  import opened TransportSpec
  import opened TransportSafety
  import opened UserSpec
  import opened UserSafety
  import opened Extension
  import opened TraceEquivalence
  import opened OctoSpec
  import opened OctoSafety
  import opened Conversation
  import opened TransportAnswers
  import opened UserAnswers

  // ---------- the script of a run ----------

  function GateTests(): (t: seq<Test>)
    ensures |t| == 268
  {
    ZeroTests(256) + ReadyTests(8)
    + [Equal(0x2200, 0x0001fe00), Equal(0x2204, 0), Equal(0x2218, 0xa012dc0d), Equal(0x2234, 0x00300811)]
  }

  /** Reading the rings back, in units: two positions and four pages of each ring. */
  function UnitTests(indexes: seq<Word>, i: nat): (t: seq<Test>)
    requires |indexes| == 16 && i < 96
  {
    var ring, field := i / 6, i % 6;
    var base, page := RingBase(ring / 2, ring % 2), 0x10000000 + (ring * 4 + field - 2) * 4096;
    if field < 2 then [Equal(base + 0x20 + field * 4, indexes[ring])]
    else [Equal(base + (field - 2) * 8, Low32(page)), Equal(base + (field - 2) * 8 + 4, High32(page))]
  }

  function ReadBackTests(indexes: seq<Word>, n: nat): seq<Test>
    requires |indexes| == 16 && n <= 96
  {
    if n == 0 then [] else ReadBackTests(indexes, n - 1) + UnitTests(indexes, n - 1)
  }

  /** The first n reset exercises: each engine is seen disabled and enabled again, and
      all DSPs are ready both times. */
  function ExerciseTests(n: nat): seq<Test>
    requires n <= DSP_COUNT
  {
    if n == 0 then []
    else
      ExerciseTests(n - 1) + ExerciseTest(n - 1)
  }

  function ExerciseTest(dsp: nat): seq<Test>
    requires dsp < DSP_COUNT
  {
    Pow2Monotone(dsp + 1, 8);
    SmallPow2();
    [Equal(0x2200, 0x1ff - Pow2(dsp + 1))] + ReadyTests(8) + [Equal(0x2200, 0x1ff)] + ReadyTests(8)
  }

  const INDEXES_AT: nat := 268

  /** What a program takes from an index it read. */
  function Taken(read: (nat, Word)): Word {
    if read.1 < 1024 then read.1 else 0
  }

  /** The positions a run has published: the hardware indexes it read during bring-up,
      with zero for one that is out of range. */
  function Seen(answers: seq<(nat, Word)>): (indexes: seq<Word>)
    ensures |indexes| == 16
  {
    seq(16, k requires 0 <= k < 16 => SeenAt(answers, k))
  }

  function SeenAt(answers: seq<(nat, Word)>, k: nat): Word {
    if INDEXES_AT + k < |answers| then Taken(answers[INDEXES_AT + k]) else 0
  }

  /** All reads of a run up to its verdict. */
  function Script(indexes: seq<Word>, exercise: bool): seq<Test>
    requires |indexes| == 16
  {
    GateTests() + IndexTests(8) + ReadBackTests(indexes, 96) + (if exercise then ExerciseTests(8) else [])
    + ReadyTests(8) + [Equal(0x2204, 0)] + [Equal(0x2200, 0x1ff)]
  }

  /** Word w of page p. */
  function PageWord(env: Environment, h: History, p: nat, w: nat): Word {
    env.memory(h, p * 1024 + w)
  }

  /** Every word of page p is four bytes of 0x40 + p. */
  ghost predicate PagesIntact(env: Environment, h: History) {
    forall p: nat, w: nat | p < 64 && w < 1024 ::
      PageWord(env, h, p, w) == Bytes.FromDigits(0x40 + p, 0x40 + p, 0x40 + p, 0x40 + p)
  }

  /** What was found out when a run is judged. */
  ghost predicate Explored(env: Environment, exercise: bool, last: History) {
    && Passed(Reads(last), Script(Seen(Reads(last)), exercise))
    && PagesIntact(env, Until(last, Sleep))
    && !env.pending(last)
  }

  /** A signal, once pending, stays pending. */
  ghost predicate Lasting(env: Environment) {
    forall h: History, e: Event :: env.pending(h) ==> env.pending(Then(h, e))
  }

  // ---------- the stages ----------

  lemma GatedAsks(dev: Device, h: History)
    ensures var (ok, g) := Gated(dev, h); Asks(h, g, ok, GateTests())
  {
    hide Asks, Poll, ZeroTests, ReadyTests;
    var (zero, h1) := Poll(dev, h, RingWords, CHECKED_WORDS);
    var (ready, h2) := Poll(dev, h1, ReadyWords, DSP_COUNT);
    var (cold, h3) := Expect(dev, h2, DMA_CONTROL, DMA_COLD_RESET);
    var (quiet, h4) := Expect(dev, h3, INTERRUPT_ENABLE, 0);
    var (revision, h5) := Expect(dev, h4, FPGA_REVISION, EXPECTED_FPGA_REVISION);
    var (capable, h6) := Expect(dev, h5, EXTENDED_CAPABILITIES, EXPECTED_CAPABILITIES);
    ExpectAsks(dev, h4, FPGA_REVISION, EXPECTED_FPGA_REVISION);
    ExpectAsks(dev, h5, EXTENDED_CAPABILITIES, EXPECTED_CAPABILITIES);
    var t0, t1 := [Equal(0x2200, 0x0001fe00)], [Equal(0x2204, 0)];
    var t2, t3 := [Equal(0x2218, 0xa012dc0d)], [Equal(0x2234, 0x00300811)];
    AsksThen(h4, h5, h6, revision, capable, t2, t3);
    var e4 := if revision then h6 else h5;
    ExpectAsks(dev, h3, INTERRUPT_ENABLE, 0);
    AsksThen(h3, h4, e4, quiet, revision && capable, t1, t2 + t3);
    var e3 := if quiet then e4 else h4;
    ExpectAsks(dev, h2, DMA_CONTROL, DMA_COLD_RESET);
    AsksThen(h2, h3, e3, cold, quiet && revision && capable, t0, t1 + (t2 + t3));
    var e2 := if cold then e3 else h3;
    ReadyAsks(dev, h1, DSP_COUNT);
    AsksThen(h1, h2, e2, ready, cold && quiet && revision && capable, ReadyTests(8), t0 + (t1 + (t2 + t3)));
    var e1 := if ready then e2 else h2;
    ZeroAsks(dev, h, CHECKED_WORDS);
    AsksThen(h, h1, e1, zero, ready && cold && quiet && revision && capable,
             ZeroTests(256), ReadyTests(8) + (t0 + (t1 + (t2 + t3))));
    assert ZeroTests(256) + (ReadyTests(8) + (t0 + (t1 + (t2 + t3)))) == GateTests();
  }

  lemma {:induction false} PublishFromSilent(h: History, base: nat, first: Address, n: nat)
    requires first + n * PAGE_BYTES <= ADDRESS_LIMIT
    ensures Reads(PublishFrom(h, base, first, n)) == Reads(h)
  {
    if n > 0 {
      PublishFromSilent(h, base, first, n - 1);
    }
  }

  lemma ProbeRingReads(dev: Device, h: History, dsp: nat, ring: nat)
    requires dsp < DSP_COUNT && ring < RING_COUNT
    ensures var offset := RingBase(dsp, ring) + 0x28;
            Reads(ProbeRing(dev, h, dsp, ring)) == Reads(h) + [(offset, dev(h, offset))]
  {
    hide RingBase, PublishFrom;
    PublishFromSilent(SeedIndex(dev, h, dsp, ring), RingBase(dsp, ring), FirstIova(dsp, ring), RING_PAGES);
    assert Reads(Observe(dev, h, RingBase(dsp, ring) + 0x28)) ==
           Reads(h) + [(RingBase(dsp, ring) + 0x28, dev(h, RingBase(dsp, ring) + 0x28))];
  }

  lemma ProbeDspReads(dev: Device, before: History, dsp: nat, value: Word)
    requires dsp < DSP_COUNT
    ensures var middle := ProbeRing(dev, before, dsp, 0);
            var after := Then(ProbeRing(dev, middle, dsp, 1), Write(DMA_CONTROL, value));
            var c, r := RingBase(dsp, 0) + 0x28, RingBase(dsp, 1) + 0x28;
            && Since(before, after) == [(c, dev(before, c)), (r, dev(middle, r))]
            && Asks(before, after, true, [Any(c), Any(r)])
  {
    hide ProbeRing, RingBase;
    var middle := ProbeRing(dev, before, dsp, 0);
    var last := ProbeRing(dev, middle, dsp, 1);
    var c, r := RingBase(dsp, 0) + 0x28, RingBase(dsp, 1) + 0x28;
    ProbeRingReads(dev, before, dsp, 0);
    ProbeRingReads(dev, middle, dsp, 1);
    var two := [(c, dev(before, c)), (r, dev(middle, r))];
    assert Reads(Then(last, Write(DMA_CONTROL, value))) == Reads(last) == Reads(before) + two;
    assert Since(before, Then(last, Write(DMA_CONTROL, value))) == two;
    TwoFollow(two, [Any(c), Any(r)]);
  }

  lemma SeenStep(dev: Device, h: History, n: nat)
    requires 0 < n <= DSP_COUNT
    ensures var g := ProbeDsps(dev, h, n - 1);
            var c, r := RingBase(n - 1, 0) + 0x28, RingBase(n - 1, 1) + 0x28;
            SeenIndexes(dev, h, n) == SeenIndexes(dev, h, n - 1)
              + [Taken((c, dev(g, c))), Taken((r, dev(ProbeRing(dev, g, n - 1, 0), r)))]
  {
    hide ProbeDsps, ProbeRing, RingBase;
  }

  /** Bring-up reads the indexes, and the positions it publishes are those. */
  lemma {:induction false} ProbeDspsAsk(dev: Device, h: History, n: nat)
    requires n <= DSP_COUNT
    ensures var g := ProbeDsps(dev, h, n);
            && Asks(h, g, true, IndexTests(n)) && |Since(h, g)| == 2 * n
            && forall k | 0 <= k < 2 * n :: SeenIndexes(dev, h, n)[k] == Taken(Since(h, g)[k])
  {
    hide ProbeRing, RingBase, Pow2, Asks, Reads, Since, SeenIndexes, Taken;
    if n == 0 {
      AsksNothing(h, h);
      AsksMeans(h, h, true, []);
    } else {
      ProbeDspsAsk(dev, h, n - 1);
      var before, after := ProbeDsps(dev, h, n - 1), ProbeDsps(dev, h, n);
      Pow2Monotone(n + 1, 9);
      SmallPow2();
      SeenStep(dev, h, n);
      ProbeDspReads(dev, before, n - 1, Pow2(n + 1) - 1);
      var pair := [Any(RingBase(n - 1, 0) + 0x28), Any(RingBase(n - 1, 1) + 0x28)];
      AsksMeans(h, before, true, IndexTests(n - 1));
      AsksMeans(before, after, true, pair);
      AsksBoth(h, before, after, true, true, IndexTests(n - 1), pair);
      SinceJoins(h, before, after);
    }
  }

  lemma TwoFollow(answers: seq<(nat, Word)>, tests: seq<Test>)
    requires |answers| == |tests| == 2 && Meets(answers[0], tests[0]) && Meets(answers[1], tests[1])
    ensures Passed(answers, tests)
  {}

  lemma UnitAsks(dev: Device, h: History, indexes: seq<Word>, i: nat)
    requires |indexes| == 16 && i < 96
    ensures var (ok, g) := Inspect(dev, h, Rings(indexes, WindowPages()), i); Asks(h, g, ok, UnitTests(indexes, i))
  {
    hide Asks, RingBase, Low32, High32, Join32;
    var ring, field := i / 6, i % 6;
    var base := RingBase(ring / 2, ring % 2);
    if field < 2 {
      AsksOne(dev, h, Equal(base + 0x20 + field * 4, indexes[ring]));
    } else {
      var slot := ring * 4 + (field - 2);
      assert WindowPages()[slot] == 0x10000000 + slot * 4096;
      PairAsks(dev, h, base + (field - 2) * 8, WindowPages()[slot]);
    }
  }

  lemma {:induction false} ReadBackAsks(dev: Device, h: History, indexes: seq<Word>, n: nat)
    requires |indexes| == 16 && n <= 96
    ensures var (ok, g) := Poll(dev, h, Rings(indexes, WindowPages()), n); Asks(h, g, ok, ReadBackTests(indexes, n))
  {
    hide Asks, Inspect, UnitTests, WindowPages;
    if n == 0 {
      AsksNothing(h, h);
    } else {
      ReadBackAsks(dev, h, indexes, n - 1);
      var (ok, g) := Poll(dev, h, Rings(indexes, WindowPages()), n - 1);
      UnitAsks(dev, g, indexes, n - 1);
      var (same, k) := Inspect(dev, g, Rings(indexes, WindowPages()), n - 1);
      AsksThen(h, g, k, ok, same, ReadBackTests(indexes, n - 1), UnitTests(indexes, n - 1));
    }
  }

  lemma ExerciseAsks(dev: Device, h: History, dsp: nat)
    requires dsp < DSP_COUNT
    ensures var (ok, g) := Exercise(dev, h, dsp); Asks(h, g, ok, ExerciseTest(dsp))
  {
    hide Asks, Poll, ReadyTests, Pulse, Disabled, Pow2;
    PulseValues(dsp);
    Pow2Monotone(dsp + 1, 8);
    SmallPow2();
    var h0 := Then(Then(h, Write(DMA_CONTROL, Pulse(dsp))), Write(DMA_CONTROL, Disabled(dsp)));
    var h1 := Then(h0, Sleep);
    var (paused, h2) := Expect(dev, h1, DMA_CONTROL, Disabled(dsp));
    var (ready, h3) := Poll(dev, h2, ReadyWords, DSP_COUNT);
    var h4 := Then(h3, Write(DMA_CONTROL, DMA_ALL_DSPS));
    var (enabled, h5) := Expect(dev, h4, DMA_CONTROL, DMA_ALL_DSPS);
    var (again, h6) := Poll(dev, h5, ReadyWords, DSP_COUNT);
    var t0, t1, r := [Equal(0x2200, 0x1ff - Pow2(dsp + 1))], [Equal(0x2200, 0x1ff)], ReadyTests(8);
    ExpectAsks(dev, h4, DMA_CONTROL, DMA_ALL_DSPS);
    ReadyAsks(dev, h5, DSP_COUNT);
    AsksThen(h4, h5, h6, enabled, again, t1, r);
    var e4 := if enabled then h6 else h5;
    ReadyAsks(dev, h2, DSP_COUNT);
    assert Reads(h4) == Reads(h3);
    Silently(h2, h3, h4, ready, r);
    AsksThen(h2, h4, e4, ready, enabled && again, r, t1 + r);
    var e2 := if ready then e4 else h4;
    Silently(h2, if ready then e4 else h4, if ready then e4 else h3, ready && enabled && again, r + (t1 + r));
    ExpectAsks(dev, h1, DMA_CONTROL, Disabled(dsp));
    AsksThen(h1, h2, if ready then e4 else h3, paused, ready && enabled && again, t0, r + (t1 + r));
    assert Reads(h0) == Reads(h);
    assert Reads(h1) == Reads(h0);
    AsksNothing(h, h1);
    var (ok, g) := Exercise(dev, h, dsp);
    AsksBoth(h, h1, g, true, ok, [], t0 + (r + (t1 + r)));
    assert [] + (t0 + (r + (t1 + r))) == ExerciseTest(dsp);
  }

  /** The loop ends by a failed pass, by a signal, or after its last turn. */
  lemma {:induction false} LoopAsks(env: Environment, h: History, n: nat)
    requires n <= DSP_COUNT
    ensures var e := ExerciseLoop(env, h, n);
            && Reads(h) <= Reads(e.history) && (e.going ==> e.allOk)
            && (!e.going && e.allOk ==> env.pending(e.history))
            && (e.going || !e.allOk ==> Asks(h, e.history, e.allOk, ExerciseTests(n)))
  {
    hide Asks, Exercise, ExerciseTest, EnableBit, Or, Reads;
    if n == 0 {
      AsksNothing(h, h);
    } else {
      LoopAsks(env, h, n - 1);
      var e := ExerciseLoop(env, h, n - 1);
      if !e.going {
        if !e.allOk {
          AsksStops(h, e.history, ExerciseTests(n - 1), ExerciseTest(n - 1));
        }
      } else if !env.pending(e.history) {
        ExerciseAsks(env.device, e.history, n - 1);
        var (ok, g) := Exercise(env.device, e.history, n - 1);
        AsksMeans(e.history, g, ok, ExerciseTest(n - 1));
        AsksBoth(h, e.history, g, true, ok, ExerciseTests(n - 1), ExerciseTest(n - 1));
      }
    }
  }

  // ---------- the verdict ----------

  lemma PagesAgree(env: Environment, h: History)
    ensures PagesUnchanged(env, h) <==> PagesIntact(env, h)
  {
    if PagesUnchanged(env, h) {
      forall p: nat, w: nat | p < 64 && w < 1024
        ensures PageWord(env, h, p, w) == Bytes.FromDigits(0x40 + p, 0x40 + p, 0x40 + p, 0x40 + p)
      {
        var i := p * 1024 + w;
        assert 0 <= i < PAGE_SLOTS * PAGE_WORDS && i / 1024 == p;
      }
    }
    if PagesIntact(env, h) {
      forall i | 0 <= i < PAGE_SLOTS * PAGE_WORDS
        ensures env.memory(h, i) == PageFill(i / PAGE_WORDS)
      {
        var p: nat, w: nat := i / 1024, i % 1024;
        assert i == p * 1024 + w && PageWord(env, h, p, w) == env.memory(h, i);
      }
    }
  }

  lemma {:induction false} PollPending(env: Environment, h: History, check: Check, n: nat)
    requires Lasting(env) && env.pending(h)
    ensures env.pending(Poll(env.device, h, check, n).1)
  {
    hide RingBase, ReadyOffset, PageRegister, Join32;
    if n > 0 {
      PollPending(env, h, check, n - 1);
    }
  }

  /** The reads between the last sleep and the verdict, all of them made whatever they
      say. */
  lemma LateAsks(dev: Device, h: History)
    ensures var (ready, h3) := Poll(dev, h, ReadyWords, DSP_COUNT);
            var (interrupt, h4) := Expect(dev, h3, INTERRUPT_ENABLE, 0);
            var (dma, h5) := Expect(dev, h4, DMA_CONTROL, DMA_ALL_DSPS);
            && Asks(h, h5, ready && interrupt && dma, ReadyTests(8) + [Equal(0x2204, 0)] + [Equal(0x2200, 0x1ff)])
            && Until(h5, Sleep) == Until(h, Sleep)
  {
    hide Asks, Poll, ReadyTests;
    var (ready, h3) := Poll(dev, h, ReadyWords, DSP_COUNT);
    ReadyAsks(dev, h, DSP_COUNT);
    PollUntil(dev, h, ReadyWords, DSP_COUNT, Sleep);
    var (interrupt, h4) := Expect(dev, h3, INTERRUPT_ENABLE, 0);
    ExpectAsks(dev, h3, INTERRUPT_ENABLE, 0);
    AsksBoth(h, h3, h4, ready, interrupt, ReadyTests(8), [Equal(0x2204, 0)]);
    var (dma, h5) := Expect(dev, h4, DMA_CONTROL, DMA_ALL_DSPS);
    ExpectAsks(dev, h4, DMA_CONTROL, DMA_ALL_DSPS);
    AsksBoth(h, h4, h5, ready && interrupt, dma, ReadyTests(8) + [Equal(0x2204, 0)], [Equal(0x2200, 0x1ff)]);
  }

  /** A signal during the exercises is still there at the verdict. */
  lemma LatePending(env: Environment, h: History)
    requires Lasting(env) && env.pending(h)
    ensures var h3 := Poll(env.device, Then(h, Sleep), ReadyWords, DSP_COUNT).1;
            env.pending(Observe(env.device, Observe(env.device, h3, INTERRUPT_ENABLE), DMA_CONTROL))
  {
    hide Poll;
    PollPending(env, Then(h, Sleep), ReadyWords, DSP_COUNT);
  }

  lemma StartupAsks(dev: Device, h: History)
    ensures var g := Startup(dev, h);
            && Asks(h, g, true, IndexTests(8)) && |Since(h, g)| == 16
            && forall k | 0 <= k < 16 :: SeenIndexes(dev, Prologue(h), DSP_COUNT)[k] == Taken(Since(h, g)[k])
  {
    hide ProbeDsps, SeenIndexes, Follows, IndexTests, Reads;
    PrologueReads(h);
    ProbeDspsAsk(dev, Prologue(h), DSP_COUNT);
  }

  lemma PrologueReads(h: History)
    ensures Reads(Prologue(h)) == Reads(h)
  {
    var h2 := Then(Then(h, Write(NOTIFICATION_CONTROL, 0)), Write(INTERRUPT_ENABLE, 0));
    assert Reads(h2) == Reads(h);
    var h4 := Then(Then(h2, Write(INTERRUPT_ACK, 0)), Write(DMA_CONTROL, DMA_RESET_GLOBAL));
    assert Reads(h4) == Reads(h2);
  }

  lemma SeenIs(g: History, up: History, last: History, indexes: seq<Word>)
    requires |Reads(g)| == INDEXES_AT && Reads(g) <= Reads(up) <= Reads(last)
    requires |indexes| == |Since(g, up)| == 16
    requires forall k | 0 <= k < 16 :: indexes[k] == Taken(Since(g, up)[k])
    ensures Seen(Reads(last)) == indexes
  {
    hide Reads, Taken;
    forall k | 0 <= k < 16
      ensures Seen(Reads(last))[k] == indexes[k]
    {
      assert Reads(last)[INDEXES_AT + k] == Reads(up)[INDEXES_AT + k] == Since(g, up)[k];
    }
  }

  /** Up to the end of the reset exercises, unless a signal ended them. */
  lemma ExploringAsks(env: Environment, g: History, exercise: bool, indexes: seq<Word>)
    requires indexes == SeenIndexes(env.device, Prologue(g), DSP_COUNT)
    ensures var f := Finding(env, g, exercise);
            var extra := if exercise then ExerciseTests(8) else [];
            var ok := f.published && (!exercise || f.exercises.allOk);
            && Reads(Startup(env.device, g)) <= Reads(f.exercises.history)
            && ((exercise && env.pending(f.exercises.history))
                || Asks(Startup(env.device, g), f.exercises.history, ok, ReadBackTests(indexes, 96) + extra))
  {
    hide Startup, SeenIndexes, ReadBackTests, ExerciseTests, ExerciseLoop, Asks, Poll, PagesUnchanged, WindowPages;
    hide Reads;
    var dev := env.device;
    var up, check := Startup(dev, g), Rings(indexes, WindowPages());
    ReadBackAsks(dev, up, indexes, 96);
    var (published, h1) := Poll(dev, up, check, RING_TESTS);
    var t := ReadBackTests(indexes, 96);
    AsksMeans(up, h1, published, t);
    if exercise && published {
      LoopAsks(env, h1, DSP_COUNT);
      var e := ExerciseLoop(env, h1, DSP_COUNT);
      if e.going || !e.allOk {
        AsksBoth(up, h1, e.history, true, e.allOk, t, ExerciseTests(8));
      }
    } else if exercise {
      AsksStops(up, h1, t, ExerciseTests(8));
    } else {
      assert t + [] == t;
    }
  }

  /** What is found out is favourable exactly as stated. */
  lemma FindingAnswers(env: Environment, g: History, exercise: bool)
    requires exercise ==> Lasting(env)
    requires Asks(Boot, g, true, GateTests())
    ensures var f := Finding(env, g, exercise);
            Reads(g) <= Reads(f.history) && (f.success <==> Explored(env, exercise, f.history))
  {
    hide Startup, SeenIndexes, ReadBackTests, ExerciseTests, ReadyTests, IndexTests, GateTests, ExerciseLoop, Asks;
    hide Poll, PagesUnchanged, PagesIntact, Lasting, Reads, Since, Seen, Taken, ReadBack;
    var dev, f := env.device, Finding(env, g, exercise);
    var indexes, up := SeenIndexes(dev, Prologue(g), DSP_COUNT), Startup(dev, g);
    var extra := if exercise then ExerciseTests(8) else [];
    StartupAsks(dev, g);
    AsksMeans(g, up, true, IndexTests(8));
    ExploringAsks(env, g, exercise, indexes);
    var h := f.exercises.history;
    var h2 := Then(h, Sleep);
    var late := ReadyTests(8) + [Equal(0x2204, 0)] + [Equal(0x2200, 0x1ff)];
    SleepReads(h);
    LateAsks(dev, h2);
    PagesAgree(env, h2);
    Sleeps(h);
    AsksMeans(h2, f.history, f.ready && f.interrupt && f.dma, late);
    if exercise && env.pending(h) {
      LatePending(env, h);
      assert env.pending(f.history);
    } else {
      var ok := f.published && (!exercise || f.exercises.allOk);
      var t := ReadBackTests(indexes, 96) + extra;
      Silently(up, h, h2, ok, t);
      AsksBoth(up, h2, f.history, ok, f.ready && f.interrupt && f.dma, t, late);
      AsksBoth(g, up, f.history, true, ok && f.ready && f.interrupt && f.dma, IndexTests(8), t + late);
      AsksBoth(Boot, g, f.history, true, ok && f.ready && f.interrupt && f.dma,
               GateTests(), IndexTests(8) + (t + late));
      assert GateTests() + (IndexTests(8) + (t + late)) == Script(indexes, exercise);
      AsksMeans(Boot, f.history, ok && f.ready && f.interrupt && f.dma, Script(indexes, exercise));
      FromBoot(g);
      FromBoot(f.history);
      AsksMeans(Boot, g, true, GateTests());
      AsksMeans(up, f.history, ok && f.ready && f.interrupt && f.dma, t + late);
      SeenIs(g, up, f.history, indexes);
    }
  }

  lemma SleepReads(h: History)
    ensures Reads(Then(h, Sleep)) == Reads(h)
  {}

  lemma Sleeps(h: History)
    ensures Until(Then(h, Sleep), Sleep) == Then(h, Sleep)
  {}

  // ---------- the run ----------

  /** Every call before the first register access succeeded, and the baseline was what
      it had to be. */
  ghost predicate Begun(env: Environment, run: History) {
    && env.succeeds(Boot, OpenContainer) && env.succeeds(Boot, OpenGroup) && env.succeeds(Boot, ConfigureIommu)
    && env.succeeds(Boot, PrepareMemory) && OpeningCalls(env, Then(Boot, Acquire(Memory)))
    && Begins(Reads(run), GateTests())
  }

  /** A run that got as far as the gate. */
  lemma GatedRun(env: Environment, o: Opened)
    requires Reads(o.history) == []
    ensures var (passed, g) := Gated(env.device, o.history);
            && Asks(Boot, g, passed, GateTests())
            && (!passed ==>
                  !Begins(Reads(CleaningUp(env, o.(history := g), false).history), GateTests()))
  {
    hide Gated, GateTests, CleaningUp, Asks, Reads, Begins, Prefix;
    FromBoot(o.history);
    GatedAsks(env.device, o.history);
    var (passed, g) := Gated(env.device, o.history);
    BootReads();
    AsksNothing(Boot, o.history);
    AsksBoth(Boot, o.history, g, true, passed, [], GateTests());
    assert [] + GateTests() == GateTests();
    if !passed {
      var run := CleaningUp(env, o.(history := g), false).history;
      CleaningPrefix(env, o.(history := g), false);
      PrefixReads(g, run);
      GateShows(g, run, false, GateTests());
    }
  }

  /** A run of the start probe in any environment whose signals last. It begins exactly
      when all its calls succeed and the baseline reads are met. It succeeds exactly
      when it began, everything it found was as scripted, read by read, with its pages
      intact behind the last sleep and no signal at the verdict, and everything was
      undone. The verdict falls at a moment of this run, behind which only the cleanup
      writes. */
  lemma ProbeRunAnswers(env: Environment, exercise: bool)
    requires exercise ==> Lasting(env)
    ensures var r := ProbeRun(env, exercise);
            && (r.findings.Some? <==> Begun(env, r.cleaned.history))
            && (r.findings.Some? ==>
                  var last := r.findings.value.history;
                  Prefix(last, r.cleaned.history) && Writes(r.cleaned.history) == Writes(last) + QuiesceList())
            && (r.success <==>
                  && r.findings.Some?
                  && Explored(env, exercise, r.findings.value.history)
                  && Undone(env, r.findings.value.history, r.cleaned.history))
  {
    hide Opening, Gated, Finding, CleaningUp, OpeningCalls, GateTests, Explored, Undone, Lasting, Prefix, Asks, Begins;
    hide Reads, Writes, QuiesceList;
    var h0 := Then(Boot, Acquire(Memory));
    MemoryReads();
    OpeningAnswers(env, h0);
    var o := Opening(env, h0);
    if o.bar {
      GatedRun(env, o);
      var (passed, g) := Gated(env.device, o.history);
      if passed {
        FindingAnswers(env, g, exercise);
        var f := Finding(env, g, exercise);
        CleaningAnswers(env, o.(history := f.history));
        CleaningWrites(env, o.(history := f.history));
        CleaningPrefix(env, o.(history := f.history), true);
        var run := CleaningUp(env, o.(history := f.history), true).history;
        PrefixReads(f.history, run);
        GateShows(g, run, true, GateTests());
      }
    }
  }

  lemma MemoryReads()
    ensures Reads(Then(Boot, Acquire(Memory))) == []
  {
    BootReads();
  }
}
