/** What the driver answers, on any device: the code of every request and every field
    of its reply, by the reads the request made and nothing else. */
module TransportAnswers {
  import opened Common
  import opened Bits
  import opened Machine
  import opened TransportSpec
  import opened TransportSafety
  import opened LifecycleSpec
  import opened Conversation

  // ---------- registers ----------

  /** Where the register banks and the ready words of the eight DSPs are. */
  lemma RegisterTables()
    ensures seq(8, dsp requires 0 <= dsp => Bank(dsp)) ==
            [0x2000, 0x2080, 0x2100, 0x2180, 0x6000, 0x6080, 0x6100, 0x6180]
    ensures seq(8, dsp requires 0 <= dsp => ReadyOffset(dsp)) ==
            [0x01a4, 0x09a4, 0x11a4, 0x19a4, 0x41a4, 0x49a4, 0x51a4, 0x59a4]
  {}

  // ---------- start ----------

  /** The verdict of a start: all engines enabled, every page published, every DSP ready. */
  function VerdictTests(dma: seq<Address>): (t: seq<Test>)
    requires PageTable(dma)
  {
    [Equal(0x2200, 0x1ff)] + PageTests(dma, 64) + ReadyTests(8)
  }

  /** All reads of a start that succeeds. */
  function StartTests(dma: seq<Address>): (t: seq<Test>)
    requires PageTable(dma)
  {
    ColdTests() + IndexTests(8) + [Any(0x2200)] + VerdictTests(dma)
  }

  /** A test of the verdict, by DSP, ring and page. */
  lemma VerdictSpelled(dma: seq<Address>, dsp: nat, ring: nat, page: nat)
    requires PageTable(dma) && dsp < DSP_COUNT && ring < RING_COUNT && page < RING_PAGES
    ensures var t, register := VerdictTests(dma), RingBase(dsp, ring) + page * 8;
            && |t| == 137
            && t[0] == Equal(0x2200, 0x1ff)
            && t[1 + 2 * Slot(dsp, ring, page)] == Equal(register, Low32(dma[Slot(dsp, ring, page)]))
            && t[2 + 2 * Slot(dsp, ring, page)] == Equal(register + 4, High32(dma[Slot(dsp, ring, page)]))
            && t[129 + dsp] == Odd(ReadyOffset(dsp))
  {
    hide RingBase, Low32, High32, ReadyOffset, PageTests, ReadyTests, Slot;
    SlotParts(dsp, ring, page);
    PageTestAt(dma, 64, Slot(dsp, ring, page));
    ReadyTestAt(8, dsp);
  }

  lemma SlotParts(dsp: nat, ring: nat, page: nat)
    requires dsp < DSP_COUNT && ring < RING_COUNT && page < RING_PAGES
    ensures var i := Slot(dsp, ring, page);
            i < PAGE_SLOTS && i / 8 == dsp && i / 4 % 2 == ring && i % 4 == page
  {
    assert Slot(dsp, ring, page) / 4 == dsp * 2 + ring;
  }

  lemma {:induction false} PageTestAt(dma: seq<Address>, n: nat, i: nat)
    requires i < n <= |dma|
    ensures var register := PageRegister(i / 8, i / 4 % 2, i % 4);
            && PageTests(dma, n)[2 * i] == Equal(register, Low32(dma[i]))
            && PageTests(dma, n)[2 * i + 1] == Equal(register + 4, High32(dma[i]))
  {
    hide PageRegister, Low32, High32;
    if i < n - 1 {
      PageTestAt(dma, n - 1, i);
    }
  }

  lemma {:induction false} ReadyTestAt(n: nat, i: nat)
    requires i < n
    ensures ReadyTests(n)[i] == Odd(ReadyOffset(i))
  {
    hide ReadyOffset;
    if i < n - 1 {
      ReadyTestAt(n - 1, i);
    }
  }

  lemma {:induction false} PublishAsks(h: History, dma: seq<Address>, dsp: nat, ring: nat, n: nat)
    requires PageTable(dma) && dsp < DSP_COUNT && ring < RING_COUNT && n <= RING_PAGES
    ensures Reads(Publish(h, dma, dsp, ring, n)) == Reads(h)
  {
    if n > 0 {
      PublishAsks(h, dma, dsp, ring, n - 1);
    }
  }

  lemma InitRingAsks(dev: Device, h: History, dma: seq<Address>, dsp: nat, ring: nat)
    requires PageTable(dma) && dsp < DSP_COUNT && ring < RING_COUNT
    ensures Asks(h, InitRing(dev, h, dma, dsp, ring), true, [Any(RingBase(dsp, ring) + 0x28)])
  {
    hide Publish, RingBase;
    AsksOne(dev, h, Any(RingBase(dsp, ring) + 0x28));
    PublishAsks(SeedIndex(dev, h, dsp, ring), dma, dsp, ring, RING_PAGES);
    Silently(h, Observe(dev, h, RingBase(dsp, ring) + 0x28), InitRing(dev, h, dma, dsp, ring),
             true, [Any(RingBase(dsp, ring) + 0x28)]);
  }

  lemma {:induction false} InitDspsAsk(dev: Device, h: History, dma: seq<Address>, n: nat)
    requires PageTable(dma) && n <= DSP_COUNT
    ensures Asks(h, InitDsps(dev, h, dma, n), true, IndexTests(n))
  {
    hide Asks, InitRing, RingBase, Pow2;
    if n == 0 {
      AsksNothing(h, h);
    } else {
      InitDspsAsk(dev, h, dma, n - 1);
      var g := InitDsps(dev, h, dma, n - 1);
      var g0 := InitRing(dev, g, dma, n - 1, 0);
      var g1 := InitRing(dev, g0, dma, n - 1, 1);
      InitRingAsks(dev, g, dma, n - 1, 0);
      InitRingAsks(dev, g0, dma, n - 1, 1);
      var t0, t1 := [Any(RingBase(n - 1, 0) + 0x28)], [Any(RingBase(n - 1, 1) + 0x28)];
      AsksBoth(h, g, g0, true, true, IndexTests(n - 1), t0);
      AsksBoth(h, g0, g1, true, true, IndexTests(n - 1) + t0, t1);
      assert IndexTests(n - 1) + t0 + t1 == IndexTests(n);
      Silently(h, g1, InitDsps(dev, h, dma, n), true, IndexTests(n));
    }
  }

  lemma PrologueSilent(h: History)
    ensures Reads(Prologue(Then(Then(h, ZeroPages), SetMaster))) == Reads(h)
  {
    var h1 := Then(Then(h, ZeroPages), SetMaster);
    assert Reads(h1) == Reads(h);
    var h2 := Then(Then(h1, Write(NOTIFICATION_CONTROL, 0)), Write(INTERRUPT_ENABLE, 0));
    assert Reads(h2) == Reads(h1);
    var h3 := Then(Then(h2, Write(INTERRUPT_ACK, 0)), Write(DMA_CONTROL, DMA_RESET_GLOBAL));
    assert Reads(h3) == Reads(h2);
  }

  lemma LaunchAsks(dev: Device, h: History, dma: seq<Address>)
    requires PageTable(dma)
    ensures Asks(h, Launch(dev, h, dma), true, IndexTests(8) + [Any(0x2200)])
  {
    hide Asks, InitDsps, Prologue, IndexTests;
    var ready := Prologue(Then(Then(h, ZeroPages), SetMaster));
    PrologueSilent(h);
    AsksNothing(h, ready);
    InitDspsAsk(dev, ready, dma, DSP_COUNT);
    var up := InitDsps(dev, ready, dma, DSP_COUNT);
    AsksBoth(h, ready, up, true, true, [], IndexTests(8));
    assert [] + IndexTests(8) == IndexTests(8);
    AsksOne(dev, up, Any(0x2200));
    AsksBoth(h, up, Launch(dev, h, dma), true, true, IndexTests(8), [Any(0x2200)]);
  }

  lemma VerdictAsks(dev: Device, h: History, dma: seq<Address>)
    requires PageTable(dma)
    ensures var (ok, g) := Verdict(dev, h, dma); Asks(h, g, ok, VerdictTests(dma))
  {
    hide Asks, Poll, PageTests, ReadyTests;
    var (enabled, h1) := Expect(dev, h, DMA_CONTROL, DMA_ALL_DSPS);
    var (published, h2) := Poll(dev, h1, Descriptors(dma), PAGE_SLOTS);
    var (ready, h3) := Poll(dev, h2, ReadyWords, DSP_COUNT);
    ExpectAsks(dev, h, DMA_CONTROL, DMA_ALL_DSPS);
    PagesAsk(dev, h1, dma, PAGE_SLOTS);
    ReadyAsks(dev, h2, DSP_COUNT);
    AsksThen(h1, h2, h3, published, ready, PageTests(dma, 64), ReadyTests(8));
    AsksThen(h, h1, if published then h3 else h2, enabled, published && ready, [Equal(0x2200, 0x1ff)],
             PageTests(dma, 64) + ReadyTests(8));
    assert [Equal(0x2200, 0x1ff)] + (PageTests(dma, 64) + ReadyTests(8)) == VerdictTests(dma);
  }

  /** The reads of a request passed the cold precondition before anything else. */
  predicate FoundCold(answers: seq<(nat, Word)>) {
    Begins(answers, ColdTests())
  }

  lemma {:induction false} ClearSilent(h: History, n: nat)
    ensures Reads(Clear(h, n)) == Reads(h)
  {
    if n > 0 {
      ClearSilent(h, n - 1);
    }
  }

  lemma QuiesceSilent(h: History)
    ensures Reads(QuiesceWrites(h)) == Reads(h)
  {
    hide Clear;
    var h2 := Then(Then(h, Write(INTERRUPT_ENABLE, 0)), Write(INTERRUPT_ACK, ALL_ONES));
    assert Reads(h2) == Reads(h);
    assert Reads(QuiesceHead(h)) == Reads(h2);
    ClearSilent(QuiesceHead(h), CLEARED_WORDS);
  }

  lemma QuiesceAsks(dev: Device, h: History)
    ensures Asks(h, Quiesce(dev, h), true, [Any(0x2200)])
  {
    hide QuiesceWrites;
    QuiesceSilent(h);
    var w := QuiesceWrites(h);
    AsksOne(dev, w, Any(0x2200));
    Silently(h, Observe(dev, w, DMA_CONTROL), Quiesce(dev, h), true, [Any(0x2200)]);
  }

  /** Behind a passed precondition come the reads of what follows. */
  lemma ColdThen(h: History, g: History, k: History, ok: bool, t: seq<Test>)
    requires Asks(h, g, true, ColdTests()) && Asks(g, k, ok, t)
    ensures FoundCold(Since(h, k)) && Asks(h, k, ok, ColdTests() + t)
  {
    hide ColdTests, Reads, Since;
    SinceJoins(h, g, k);
    AsksBoth(h, g, k, true, ok, ColdTests(), t);
    assert Since(h, k)[..COLD_READS] == Since(h, g);
  }

  /** One read more than a conversation that failed: still not a pass, when the last
      expectation is about another register. */
  lemma OneTooMany(a: seq<(nat, Word)>, t: seq<Test>, read: (nat, Word))
    requires |t| > 0 && t[|t| - 1].offset != read.0
    ensures !Passed(a + [read], t)
  {
    var s, last := a + [read], |t| - 1;
    if |s| == |t| {
      assert s[last] == read && !Meets(s[last], t[last]);
    }
  }

  /** A start from a stopped transport, on any device. It succeeds exactly when it made
      the reads of a cold device, of the bring-up and of the verdict, each as expected;
      is busy exactly when the device was not found cold; and fails otherwise. */
  lemma StartAnswers(dev: Device, h: History, dma: seq<Address>)
    requires PageTable(dma)
    ensures var r := Start(dev, h, dma, false);
            var answers := Since(h, r.history);
            && (r.code == Done <==> Passed(answers, StartTests(dma)))
            && (r.code == Busy <==> !FoundCold(answers))
            && (r.code == Done || r.code == Busy || r.code == IoError)
            && (r.started <==> r.code == Done)
  {
    hide ColdCheck, Launch, Verdict, Quiesce, ColdTests, IndexTests, VerdictTests, Asks, Reads, Since, FoundCold;
    ColdAsks(dev, h);
    var (cold, h1) := ColdCheck(dev, h);
    if cold {
      LaunchAsks(dev, h1, dma);
      var up := Launch(dev, h1, dma);
      VerdictAsks(dev, up, dma);
      var (good, h2) := Verdict(dev, up, dma);
      var t := IndexTests(8) + [Any(0x2200)];
      AsksBoth(h1, up, h2, true, good, t, VerdictTests(dma));
      assert ColdTests() + (t + VerdictTests(dma)) == StartTests(dma);
      ColdThen(h, h1, h2, good, t + VerdictTests(dma));
      if good {
        AsksMeans(h, h2, true, StartTests(dma));
      } else {
        AsksMeans(h1, h2, good, t + VerdictTests(dma));
        RolledBack(dev, h, h1, h2, dma);
      }
    } else {
      NotCold(h, h1);
      NotStarted(h, h1, dma);
    }
  }

  lemma NotCold(h: History, g: History)
    requires Asks(h, g, false, ColdTests())
    ensures !FoundCold(Since(h, g))
  {
    hide ColdTests, Reads, Since;
    assert |Since(h, g)| >= COLD_READS ==> Since(h, g)[..COLD_READS] == Since(h, g);
  }

  lemma NotStarted(h: History, g: History, dma: seq<Address>)
    requires Asks(h, g, false, ColdTests()) && PageTable(dma)
    ensures !Passed(Since(h, g), StartTests(dma))
  {
    hide ColdTests, IndexTests, PageTests, ReadyTests, Reads, Since;
  }

  /** A start that was rolled back did not pass. */
  lemma RolledBack(dev: Device, h: History, h1: History, h2: History, dma: seq<Address>)
    requires PageTable(dma) && Asks(h, h1, true, ColdTests()) && Asks(h, h2, false, StartTests(dma))
    requires Reads(h1) <= Reads(h2)
    ensures var g := Quiesce(dev, h2); FoundCold(Since(h, g)) && !Passed(Since(h, g), StartTests(dma))
  {
    hide ColdTests, StartTests, Quiesce, Since, Reads;
    QuiesceAsks(dev, h2);
    var g := Quiesce(dev, h2);
    QuiesceReads(dev, h2);
    LastOfStart(dma);
    SinceJoins(h, h2, g);
    SinceJoins(h, h1, g);
    assert Since(h, g)[..COLD_READS] == Since(h, h1);
    OneTooMany(Since(h, h2), StartTests(dma), Since(h2, g)[0]);
  }

  lemma QuiesceReads(dev: Device, h: History)
    ensures var g := Quiesce(dev, h); Reads(h) <= Reads(g) && |Since(h, g)| == 1 && Since(h, g)[0].0 == 0x2200
  {
    QuiesceAsks(dev, h);
    hide Quiesce, Reads, Since;
    assert Meets(Since(h, Quiesce(dev, h))[0], [Any(0x2200)][0]);
  }

  lemma LastOfStart(dma: seq<Address>)
    requires PageTable(dma)
    ensures |StartTests(dma)| > 0 && StartTests(dma)[|StartTests(dma)| - 1].offset != 0x2200
  {
    hide ColdTests, IndexTests, PageTests;
    ReadyTestAt(8, 7);
    hide ReadyTests;
  }

  // ---------- stop and reset ----------

  /** A stop of a running transport reports an error exactly when the device is not
      found cold afterwards. */
  lemma StopAnswers(dev: Device, h: History)
    ensures var r := Stop(dev, h, true);
            && (r.code == Done <==> Passed(Since(h, r.history), [Any(0x2200)] + ColdTests()))
            && (r.code == Done || r.code == IoError)
  {
    hide ColdCheck, Quiesce, ColdTests, Asks, Reads, Since;
    QuiesceAsks(dev, h);
    var g := Quiesce(dev, h);
    ColdAsks(dev, g);
    var (recovered, k) := ColdCheck(dev, g);
    AsksBoth(h, g, k, true, recovered, [Any(0x2200)], ColdTests());
    AsksMeans(h, k, recovered, [Any(0x2200)] + ColdTests());
  }

  /** The reads of a reset that succeeds. */
  function ResetTests(dsp: nat): seq<Test> {
    [Equal(0x2200, 0x1ff), Odd(ReadyOffset(dsp)), Any(0x2200), Equal(0x2200, 0x1ff), Odd(ReadyOffset(dsp))]
  }

  /** A reset of a running transport, by its five reads; a control value other than
      all engines enabled ends it at the first. */
  lemma ResetAnswers(dev: Device, h: History, dsp: nat, flags: nat)
    requires dsp < DSP_COUNT && flags == 0
    ensures var r := Reset(dev, h, true, dsp, flags);
            var answers := Since(h, r.history);
            && |answers| > 0 && answers[0].0 == 0x2200
            && (r.code == Done <==> Passed(answers, ResetTests(dsp)))
            && (r.code == Busy <==> answers[0].1 != 0x1ff)
            && (r.code == Busy <==> r.report.None?) && (r.code == Busy <==> |answers| == 1)
            && (r.code == Done || r.code == Busy || r.code == IoError)
            && (r.report.Some? ==>
                  && |answers| == 5
                  && r.report == Some(ResetReport(0x1ff, answers[3].1, answers[4].1 % 2 == 1)))
  {
    hide ReadyOffset, Pulse, Disabled;
    var r := Reset(dev, h, true, dsp, flags);
    var h1 := Observe(dev, h, DMA_CONTROL);
    if dev(h, DMA_CONTROL) == DMA_ALL_DSPS {
      ResetReads(dev, h, dsp);
      var answers, t := Since(h, r.history), ResetTests(dsp);
      assert |answers| == |t| == 5;
      assert Passed(answers, t) <==> Meets(answers[0], t[0]) && Meets(answers[1], t[1]) && Meets(answers[2], t[2])
                                     && Meets(answers[3], t[3]) && Meets(answers[4], t[4]);
    } else {
      assert Since(h, h1) == [(DMA_CONTROL, dev(h, DMA_CONTROL))];
    }
  }

  lemma ResetReads(dev: Device, h: History, dsp: nat)
    requires dsp < DSP_COUNT && dev(h, DMA_CONTROL) == DMA_ALL_DSPS
    ensures var h2 := Then(Then(Then(Observe(dev, h, DMA_CONTROL), Write(DMA_CONTROL, Pulse(dsp))),
                                Write(DMA_CONTROL, Disabled(dsp))), Sleep);
            var h3 := Then(Observe(dev, h2, ReadyOffset(dsp)), Write(DMA_CONTROL, DMA_ALL_DSPS));
            var h4 := Observe(dev, h3, DMA_CONTROL);
            var h5 := Observe(dev, h4, DMA_CONTROL);
            Since(h, Reset(dev, h, true, dsp, 0).history) ==
            [(DMA_CONTROL, DMA_ALL_DSPS), (ReadyOffset(dsp), dev(h2, ReadyOffset(dsp))),
             (DMA_CONTROL, dev(h3, DMA_CONTROL)), (DMA_CONTROL, dev(h4, DMA_CONTROL)),
             (ReadyOffset(dsp), dev(h5, ReadyOffset(dsp)))]
  {
    hide ReadyOffset, Pulse, Disabled;
    var g := Reset(dev, h, true, dsp, 0).history;
    var h1 := Observe(dev, h, DMA_CONTROL);
    var h2 := Then(Then(Then(h1, Write(DMA_CONTROL, Pulse(dsp))), Write(DMA_CONTROL, Disabled(dsp))), Sleep);
    assert Reads(Then(h1, Write(DMA_CONTROL, Pulse(dsp)))) == Reads(h1);
    assert Reads(h2) == Reads(h1) == Reads(h) + [(DMA_CONTROL, DMA_ALL_DSPS)];
    var h3 := Then(Observe(dev, h2, ReadyOffset(dsp)), Write(DMA_CONTROL, DMA_ALL_DSPS));
    assert Reads(h3) == Reads(h2) + [(ReadyOffset(dsp), dev(h2, ReadyOffset(dsp)))];
    var h4 := Observe(dev, h3, DMA_CONTROL);
    assert Reads(h4) == Reads(h3) + [(DMA_CONTROL, dev(h3, DMA_CONTROL))];
    var h5 := Observe(dev, h4, DMA_CONTROL);
    assert Reads(h5) == Reads(h4) + [(DMA_CONTROL, dev(h4, DMA_CONTROL))];
    assert Reads(g) == Reads(h5) + [(ReadyOffset(dsp), dev(h5, ReadyOffset(dsp)))];
  }
}
