/** What the user-space programs conclude when they open the device and when they give
    it back, by the reads they make and the calls that succeed. */
module UserAnswers {
  import opened Common
  import opened Machine
  import opened TransportSpec
  import opened TransportSafety
  import opened UserSpec
  import opened TraceEquivalence
  import opened Conversation
  import opened TransportAnswers

  /** The rings are found restored: every ring word zero and the engines cold. */
  function RestoreTests(): (t: seq<Test>)
    ensures |t| == 257
  {
    ZeroTests(256) + [Equal(0x2200, 0x0001fe00)]
  }

  /** The device is found recovered from its reset: restored, and every DSP ready. */
  function RecoverTests(): (t: seq<Test>)
    ensures |t| == 265
  {
    ZeroTests(256) + [Equal(0x2200, 0x0001fe00)] + ReadyTests(8)
  }

  lemma RestoredAsks(dev: Device, h: History)
    ensures var (ok, g) := Restored(dev, h); Asks(h, g, ok, RestoreTests())
  {
    hide Asks, Poll, ZeroTests, QuiesceWrites;
    var w := QuiesceWrites(h);
    QuiesceSilent(h);
    AsksNothing(h, w);
    var (zero, g) := Poll(dev, w, RingWords, CHECKED_WORDS);
    ZeroAsks(dev, w, CHECKED_WORDS);
    var (cold, k) := Expect(dev, g, DMA_CONTROL, DMA_COLD_RESET);
    ExpectAsks(dev, g, DMA_CONTROL, DMA_COLD_RESET);
    AsksThen(w, g, k, zero, cold, ZeroTests(256), [Equal(0x2200, 0x0001fe00)]);
    AsksBoth(h, w, if zero then k else g, true, zero && cold, [], RestoreTests());
    assert [] + RestoreTests() == RestoreTests();
  }

  lemma RecoveringAsks(dev: Device, h: History)
    ensures var (ok, g) := Recovering(dev, h); Asks(h, g, ok, RecoverTests())
  {
    hide Asks, Poll, ZeroTests, ReadyTests;
    var (zero, h1) := Poll(dev, h, RingWords, CHECKED_WORDS);
    var (cold, h2) := Expect(dev, h1, DMA_CONTROL, DMA_COLD_RESET);
    var (ready, h3) := Poll(dev, h2, ReadyWords, DSP_COUNT);
    ZeroAsks(dev, h, CHECKED_WORDS);
    ExpectAsks(dev, h1, DMA_CONTROL, DMA_COLD_RESET);
    ReadyAsks(dev, h2, DSP_COUNT);
    var u := [Equal(0x2200, 0x0001fe00)];
    AsksThen(h1, h2, h3, cold, ready, u, ReadyTests(8));
    AsksThen(h, h1, if cold then h3 else h2, zero, cold && ready, ZeroTests(256), u + ReadyTests(8));
    assert ZeroTests(256) + (u + ReadyTests(8)) == RecoverTests();
  }

  /** Everything was undone: the device reset was granted, then the unmapping as the
      very last step, and the reads in between found rings and device as they should. */
  ghost predicate Undone(env: Environment, last: History, cleaned: History) {
    && Passed(Since(last, cleaned), RestoreTests() + RecoverTests())
    && Until(cleaned, ResetDevice).Then? && env.succeeds(Until(cleaned, ResetDevice).past, VfioReset)
    && cleaned.Then? && cleaned.event == UnmapWindow && env.succeeds(cleaned.past, UnmapDma)
  }

  lemma {:induction false} PollUntil(dev: Device, h: History, check: Check, n: nat, e: Event)
    requires !e.Read?
    ensures Until(Poll(dev, h, check, n).1, e) == Until(h, e)
  {
    hide RingBase, ReadyOffset, PageRegister, Join32;
    if n > 0 {
      PollUntil(dev, h, check, n - 1, e);
      InspectUntil(dev, Poll(dev, h, check, n - 1).1, check, n - 1, e);
    }
  }

  lemma InspectUntil(dev: Device, h: History, check: Check, i: nat, e: Event)
    requires !e.Read?
    ensures Until(Inspect(dev, h, check, i).1, e) == Until(h, e)
  {
    hide RingBase, ReadyOffset, PageRegister, Join32;
  }

  lemma RecoveringUntil(dev: Device, h: History)
    ensures Until(Recovering(dev, h).1, ResetDevice) == Until(h, ResetDevice)
  {
    hide Poll;
    PollUntil(dev, h, RingWords, CHECKED_WORDS, ResetDevice);
    var h1 := Poll(dev, h, RingWords, CHECKED_WORDS).1;
    PollUntil(dev, Observe(dev, h1, DMA_CONTROL), ReadyWords, DSP_COUNT, ResetDevice);
  }

  /** What the cleanup of a run with a mapped window and BAR that began its startup
      reports: all three of its results exactly when everything was undone. */
  lemma CleaningAnswers(env: Environment, o: Opened)
    requires o.mapped && o.open && o.bar
    ensures var c := CleaningUp(env, o, true);
            c.restored && c.recovered && c.unmapped <==> Undone(env, o.history, c.history)
  {
    hide Restored, Recovering, Asks, RestoreTests, RecoverTests, Until, Reads, Since, Passed;
    var dev, c := env.device, CleaningUp(env, o, true);
    RestoredAsks(dev, o.history);
    var (restored, h1) := Restored(dev, o.history);
    var h2 := Then(h1, ResetDevice);
    if env.succeeds(h1, VfioReset) {
      RecoveringAsks(dev, h2);
      var (recovered, h3) := Recovering(dev, h2);
      RecoveringUntil(dev, h2);
      LeavesQuietly(h3);
      LeavesQuietly(h1);
      Resets(h1);
      ResetQuietly(h1);
      Silently(o.history, h1, h2, restored, RestoreTests());
      AsksBoth(o.history, h2, h3, restored, recovered, RestoreTests(), RecoverTests());
      Silently(o.history, h3, c.history, restored && recovered, RestoreTests() + RecoverTests());
      AsksMeans(o.history, c.history, restored && recovered, RestoreTests() + RecoverTests());
    } else {
      LeavesQuietly(h1);
      Silently(o.history, h1, c.history, restored, RestoreTests());
      Shorter(o.history, c.history, restored);
    }
  }

  lemma Resets(h: History)
    ensures Until(Then(h, ResetDevice), ResetDevice) == Then(h, ResetDevice)
  {}

  lemma ResetQuietly(h: History)
    ensures Reads(Then(h, ResetDevice)) == Reads(h)
  {}

  lemma Shorter(h: History, g: History, ok: bool)
    requires Asks(h, g, ok, RestoreTests())
    ensures !Passed(Since(h, g), RestoreTests() + RecoverTests())
  {
    hide Reads, Since, RestoreTests, RecoverTests;
  }

  /** Giving things back reads nothing and is no reset. */
  lemma LeavesQuietly(h: History)
    ensures var g := Then(Then(Then(h, Release(Bar)), Release(Region)), Release(PciEnabled));
            && Reads(g) == Reads(h) && Until(g, ResetDevice) == Until(h, ResetDevice)
            && Reads(Then(g, UnmapWindow)) == Reads(h)
            && Until(Then(g, UnmapWindow), ResetDevice) == Until(h, ResetDevice)
  {
    var h1 := Then(h, Release(Bar));
    assert Reads(h1) == Reads(h) && Until(h1, ResetDevice) == Until(h, ResetDevice);
    var h2 := Then(h1, Release(Region));
    assert Reads(h2) == Reads(h1) && Until(h2, ResetDevice) == Until(h1, ResetDevice);
    var h3 := Then(h2, Release(PciEnabled));
    assert Reads(h3) == Reads(h2) && Until(h3, ResetDevice) == Until(h2, ResetDevice);
  }

  lemma RecoveringWrites(dev: Device, h: History)
    ensures Writes(Recovering(dev, h).1) == Writes(h)
  {
    hide Poll;
    PollKeeps(dev, h, RingWords, CHECKED_WORDS);
    var h1 := Poll(dev, h, RingWords, CHECKED_WORDS).1;
    var h2 := Observe(dev, h1, DMA_CONTROL);
    assert Writes(h2) == Writes(h1);
    PollKeeps(dev, h2, ReadyWords, DSP_COUNT);
  }

  /** The cleanup writes the quiescing list and nothing else. */
  lemma CleaningWrites(env: Environment, o: Opened)
    requires o.bar && o.open
    ensures Writes(CleaningUp(env, o, true).history) == Writes(o.history) + QuiesceList()
  {
    hide Restored, Recovering, QuiesceList;
    ProbeCleanupWrites(env.device, o.history);
    var h1 := Restored(env.device, o.history).1;
    RecoveringWrites(env.device, Then(h1, ResetDevice));
    LeavesUnwritten(h1);
    LeavesUnwritten(Recovering(env.device, Then(h1, ResetDevice)).1);
  }

  lemma LeavesUnwritten(h: History)
    ensures Writes(Then(h, ResetDevice)) == Writes(h)
    ensures var g := Then(Then(Then(h, Release(Bar)), Release(Region)), Release(PciEnabled));
            Writes(g) == Writes(h) && Writes(Then(g, UnmapWindow)) == Writes(h)
  {
    var h2 := Then(Then(h, Release(Bar)), Release(Region));
    assert Writes(h2) == Writes(h);
    assert Writes(Then(h2, Release(PciEnabled))) == Writes(h2);
  }

  /** The calls that open the device, each at its moment. */
  predicate OpeningCalls(env: Environment, h: History) {
    var h1 := Then(h, MapWindow(seq(64, i requires 0 <= i < 64 => 0x10000000 + i * 4096)));
    var h2 := Then(Then(h1, Acquire(PciEnabled)), Acquire(Region));
    && env.succeeds(h, MapDma) && env.succeeds(h1, OpenDevice)
    && env.succeeds(h2, ValidateDevice) && env.succeeds(h2, Call.MapBar)
  }

  /** The BAR gets mapped exactly when all four calls succeed; nothing is read. */
  lemma OpeningAnswers(env: Environment, h: History)
    ensures var o := Opening(env, h); (o.bar <==> OpeningCalls(env, h)) && Reads(o.history) == Reads(h)
  {
    assert WindowPages() == seq(64, i requires 0 <= i < 64 => 0x10000000 + i * 4096);
    var h1 := Then(h, MapWindow(WindowPages()));
    var h2 := Then(Then(h1, Acquire(PciEnabled)), Acquire(Region));
    assert Reads(h1) == Reads(h);
    assert Reads(Then(h1, Acquire(PciEnabled))) == Reads(h1);
    assert Reads(h2) == Reads(h);
    hide WindowPages;
  }
}
