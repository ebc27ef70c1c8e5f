/** When a run of the runtime loader succeeds, in any environment: by the reads it made,
    the words of its memory, the calls that succeeded and the absence of a signal. */
module LoaderAnswers {
  import opened Common
  import opened Machine
  import opened TransportSpec
  import opened TransportSafety
  import opened UserSpec
  import opened UserSafety
  import opened TraceEquivalence
  import opened Extension
  import opened Conversation
  import opened TransportAnswers
  import opened UserAnswers
  import opened LoaderSpec
  import opened LoaderSafety
  import opened LoaderSoundness

  // ---------- the connects ----------

  /** What the t-th read of a command index between two moments brought. */
  function TurnRead(before: History, after: History, dsp: nat, t: nat): Word {
    var offset := RingBase(dsp, 0) + 0x28;
    var at := |ReadsOf(before, offset)| + t;
    if at < |ReadsOf(after, offset)| then ReadsOf(after, offset)[at] else 0
  }

  /** In turn t every DSP showed its connect consumed: position 2 for the first one,
      which also got the clock, and 1 for every other. */
  predicate Agreed(before: History, after: History, t: nat) {
    forall dsp | 0 <= dsp < 8 :: TurnRead(before, after, dsp, t) == if dsp == 0 then 2 else 1
  }

  /** Reading one command index leaves the others unread. */
  lemma IndexRead(dev: Device, g: History, n: nat)
    requires n < DSP_COUNT
    ensures var last := RingBase(n, 0) + 0x28;
            var k := Observe(dev, g, last);
            && ReadsOf(k, last) == ReadsOf(g, last) + [dev(g, last)]
            && forall dsp | 0 <= dsp < DSP_COUNT && dsp != n ::
                 ReadsOf(k, RingBase(dsp, 0) + 0x28) == ReadsOf(g, RingBase(dsp, 0) + 0x28)
  {
    hide RingBase;
    var k := Observe(dev, g, RingBase(n, 0) + 0x28);
    forall dsp | 0 <= dsp < DSP_COUNT && dsp != n
      ensures ReadsOf(k, RingBase(dsp, 0) + 0x28) == ReadsOf(g, RingBase(dsp, 0) + 0x28)
    {
      RingsDoNotAlias(n, 0, 0x28, dsp, 0, 0x28);
    }
  }

  /** Between two moments the command index of a DSP was read once, or not at all. */
  predicate ReadOnce(h: History, g: History, dsp: nat) {
    var offset := RingBase(dsp, 0) + 0x28;
    ReadsOf(g, offset) == ReadsOf(h, offset) + [TurnRead(h, g, dsp, 0)]
  }

  predicate Unread(h: History, g: History, dsp: nat) {
    var offset := RingBase(dsp, 0) + 0x28;
    ReadsOf(g, offset) == ReadsOf(h, offset)
  }

  lemma UnreadJoins(h: History, g: History, k: History, dsp: nat)
    requires Unread(g, k, dsp)
    ensures ReadOnce(h, k, dsp) <==> ReadOnce(h, g, dsp)
    ensures Unread(h, k, dsp) <==> Unread(h, g, dsp)
    ensures TurnRead(h, k, dsp, 0) == TurnRead(h, g, dsp, 0)
  {
    hide RingBase, ReadsOf;
  }

  lemma ReadNow(dev: Device, h: History, g: History, n: nat)
    requires n < DSP_COUNT && Unread(h, g, n)
    ensures var k := Observe(dev, g, RingBase(n, 0) + 0x28);
            ReadOnce(h, k, n) && TurnRead(h, k, n, 0) == dev(g, RingBase(n, 0) + 0x28)
  {
    hide RingBase, ReadsOf;
    IndexRead(dev, g, n);
  }

  lemma OthersUnread(dev: Device, g: History, n: nat)
    requires n < DSP_COUNT
    ensures var k := Observe(dev, g, RingBase(n, 0) + 0x28);
            forall dsp | 0 <= dsp < DSP_COUNT && dsp != n :: Unread(g, k, dsp)
  {
    hide RingBase, ReadsOf;
    IndexRead(dev, g, n);
  }

  lemma {:induction false} ConsumedShows(dev: Device, h: History, n: nat)
    requires n <= DSP_COUNT
    ensures var (ok, g) := Consumed(dev, h, n);
            && (forall dsp | 0 <= dsp < n :: ReadOnce(h, g, dsp))
            && (forall dsp | n <= dsp < DSP_COUNT :: Unread(h, g, dsp))
            && (ok <==> forall dsp | 0 <= dsp < n :: TurnRead(h, g, dsp, 0) == if dsp == 0 then 2 else 1)
  {
    if n == 0 {
    } else {
      hide RingBase, ReadsOf, ReadOnce, Unread, TurnRead;
      ConsumedShows(dev, h, n - 1);
      var (before, g) := Consumed(dev, h, n - 1);
      var k := Consumed(dev, h, n).1;
      OthersUnread(dev, g, n - 1);
      ReadNow(dev, h, g, n - 1);
      forall dsp | 0 <= dsp < DSP_COUNT && dsp != n - 1
        ensures ReadOnce(h, k, dsp) <==> ReadOnce(h, g, dsp)
        ensures Unread(h, k, dsp) <==> Unread(h, g, dsp)
        ensures TurnRead(h, k, dsp, 0) == TurnRead(h, g, dsp, 0)
      {
        UnreadJoins(h, g, k, dsp);
      }
    }
  }

  /** Turns of a wait seen from an earlier moment. */
  lemma TurnsShift(h: History, g: History, last: History, dsp: nat, t: nat)
    requires var offset := RingBase(dsp, 0) + 0x28;
             |ReadsOf(g, offset)| == |ReadsOf(h, offset)| + 1 && ReadsOf(g, offset) <= ReadsOf(last, offset)
    ensures TurnRead(h, last, dsp, 0) == TurnRead(h, g, dsp, 0)
    ensures TurnRead(h, last, dsp, t + 1) == TurnRead(g, last, dsp, t)
  {
    hide RingBase, ReadsOf;
  }

  lemma AgreedShifts(h: History, g: History, last: History, t: nat)
    requires forall dsp | 0 <= dsp < DSP_COUNT ::
               IndexReads(g, dsp) == IndexReads(h, dsp) + 1
               && ReadsOf(g, RingBase(dsp, 0) + 0x28) <= ReadsOf(last, RingBase(dsp, 0) + 0x28)
    ensures Agreed(h, last, 0) <==> Agreed(h, g, 0)
    ensures Agreed(h, last, t + 1) <==> Agreed(g, last, t)
  {
    hide RingBase, ReadsOf, TurnRead;
    forall dsp | 0 <= dsp < DSP_COUNT
      ensures TurnRead(h, last, dsp, 0) == TurnRead(h, g, dsp, 0)
      ensures TurnRead(h, last, dsp, t + 1) == TurnRead(g, last, dsp, t)
    {
      TurnsShift(h, g, last, dsp, t);
    }
    SameReads(h, last, 0, h, g, 0);
    SameReads(h, last, t + 1, g, last, t);
  }

  lemma SameReads(h: History, g: History, t: nat, k: History, l: History, u: nat)
    requires forall dsp | 0 <= dsp < DSP_COUNT :: TurnRead(h, g, dsp, t) == TurnRead(k, l, dsp, u)
    ensures Agreed(h, g, t) <==> Agreed(k, l, u)
  {
    hide TurnRead;
    forall dsp: nat | dsp < 8
      ensures TurnRead(h, g, dsp, t) == TurnRead(k, l, dsp, u)
    {}
  }

  /** The wait for the connects, by the reads it made: every turn reads each command
      index once, no turn but the last shows all connects consumed, and the last does
      exactly when the wait reports them consumed. */
  lemma {:induction false} AwaitingMeans(env: Environment, h: History, poll: nat)
    requires poll <= CONNECT_LIMIT
    ensures var a := Awaiting(env, h, poll);
            && poll <= a.turns
            && (forall dsp | 0 <= dsp < DSP_COUNT ::
                  && IndexReads(a.history, dsp) == IndexReads(h, dsp) + (a.turns - poll)
                  && ReadsOf(h, RingBase(dsp, 0) + 0x28) <= ReadsOf(a.history, RingBase(dsp, 0) + 0x28))
            && (a.consumed <==> a.turns > poll && Agreed(h, a.history, a.turns - poll - 1))
            && (forall t | 0 <= t < a.turns - poll - 1 :: !Agreed(h, a.history, t))
    decreases CONNECT_LIMIT - poll
  {
    hide RingBase, Consumed, Agreed, ReadsOf;
    if poll < CONNECT_LIMIT && !env.pending(h) {
      var (consumed, g) := Consumed(env.device, h, DSP_COUNT);
      ConsumedTurn(env.device, h);
      if !consumed {
        var s, a := Then(g, Sleep), Awaiting(env, h, poll);
        SleepsUnread(g);
        AwaitingMeans(env, s, poll + 1);
        forall t | 0 <= t < a.turns - poll
          ensures Agreed(h, a.history, t) <==> t > 0 && Agreed(s, a.history, t - 1)
        {
          AgreedShifts(h, s, a.history, if t > 0 then t - 1 else 0);
          SameTurn(h, g);
        }
      }
    }
  }

  /** One turn. */
  lemma ConsumedTurn(dev: Device, h: History)
    ensures var (ok, g) := Consumed(dev, h, DSP_COUNT);
            && (ok <==> Agreed(h, g, 0))
            && forall dsp | 0 <= dsp < DSP_COUNT ::
                 && IndexReads(g, dsp) == IndexReads(h, dsp) + 1
                 && ReadsOf(h, RingBase(dsp, 0) + 0x28) <= ReadsOf(g, RingBase(dsp, 0) + 0x28)
  {
    hide RingBase, Consumed, ReadsOf, TurnRead;
    ConsumedShows(dev, h, DSP_COUNT);
    var g := Consumed(dev, h, DSP_COUNT).1;
    forall dsp | 0 <= dsp < DSP_COUNT
      ensures IndexReads(g, dsp) == IndexReads(h, dsp) + 1
      ensures ReadsOf(h, RingBase(dsp, 0) + 0x28) <= ReadsOf(g, RingBase(dsp, 0) + 0x28)
    {
      assert ReadOnce(h, g, dsp);
    }
  }

  lemma SleepsUnread(h: History)
    ensures forall offset :: ReadsOf(Then(h, Sleep), offset) == ReadsOf(h, offset)
  {}

  lemma SameTurn(h: History, g: History)
    ensures Agreed(h, Then(g, Sleep), 0) <==> Agreed(h, g, 0)
  {
    hide RingBase;
    SleepsUnread(g);
    SameReads(h, Then(g, Sleep), 0, h, g, 0);
  }

  // ---------- the verdict ----------

  /** The reads behind the wait: both indexes for the report, both indexes for the
      verdict, and the ready words. */
  function JudgeTests(position: Word): seq<Test> {
    [Any(0x2028), Any(0x2068), Equal(0x2028, position), Equal(0x2068, 1)] + ReadyTests(8)
  }

  /** The moment a number of steps earlier. */
  function Earlier(h: History, n: nat): History {
    if n == 0 || h.Boot? then h else Earlier(h.past, n - 1)
  }

  /** A favourable verdict between the end of the wait and the comparison of the
      memory. The class is taken from the response after the first two reads, the
      response is seen to be no canary after two more, and everything but the four
      words of the response is compared after the ready words. */
  ghost predicate Approved(
    env: Environment, snapshot: seq<Word>, position: Word, waited: History, checked: History)
  {
    && Passed(Since(waited, checked), JudgeTests(position))
    && env.memory(Earlier(checked, 10), 64 * 1024) / 0x10000 == 0x8004
    && env.memory(Earlier(checked, 8), 64 * 1024) != 0xa5a5a5a5
    && (forall i | 0 <= i < |snapshot| && !(64 * 1024 <= i < 64 * 1024 + 4) :: env.memory(checked, i) == snapshot[i])
    && !env.pending(checked)
  }

  lemma IndexRegisters()
    ensures COMMAND_INDEX == 0x2028 && RESPONSE_INDEX == 0x2068
  {}

  lemma IndexedAsks(dev: Device, h: History, command: Test, response: Test)
    requires command.offset == COMMAND_INDEX && response.offset == RESPONSE_INDEX
    ensures Asks(h, Indexed(dev, h),
                 Meets((COMMAND_INDEX, CommandIndex(dev, h)), command)
                 && Meets((RESPONSE_INDEX, ResponseIndex(dev, h)), response), [command, response])
  {
    hide Asks, RingBase;
    AsksOne(dev, h, command);
    var h1 := Observe(dev, h, COMMAND_INDEX);
    AsksOne(dev, h1, response);
    AsksBoth(h, h1, Indexed(dev, h), Meets((COMMAND_INDEX, dev(h, COMMAND_INDEX)), command),
             Meets((RESPONSE_INDEX, dev(h1, RESPONSE_INDEX)), response), [command], [response]);
    assert [command] + [response] == [command, response];
  }

  lemma {:induction false} ReadyEarlier(dev: Device, h: History, n: nat)
    requires Poll(dev, h, ReadyWords, n).0
    ensures Earlier(Poll(dev, h, ReadyWords, n).1, n) == h
  {
    hide ReadyOffset;
    if n > 0 {
      ReadyEarlier(dev, h, n - 1);
    }
  }

  lemma {:induction false} EarlierJoins(h: History, n: nat, m: nat)
    ensures Earlier(h, n + m) == Earlier(Earlier(h, n), m)
  {
    if n > 0 && h.Then? {
      EarlierJoins(h.past, n - 1, m);
    }
  }

  lemma IndexedEarlier(dev: Device, h: History)
    ensures Earlier(Indexed(dev, h), 2) == h
  {
    hide RingBase;
    var h1 := Observe(dev, h, COMMAND_INDEX);
    var k := Indexed(dev, h);
    assert k.past == h1 && h1.past == h;
    assert Earlier(k, 2) == Earlier(h1, 1);
    assert Earlier(h1, 1) == Earlier(h, 0);
  }

  lemma JudgingAsks(env: Environment, h: History, snapshot: seq<Word>, position: Word, progress: bool)
    ensures var v := Judging(env, h, snapshot, position, progress);
            Asks(h, v.checked, v.judgement.loaderConsumed && v.judgement.responseConsumed && v.judgement.readyAfter,
                 JudgeTests(position))
  {
    hide Asks, Indexed, CommandIndex, ResponseIndex, Poll, ReadyTests, ConfinedToResponse, RingBase;
    IndexRegisters();
    var dev, answered := env.device, Indexed(env.device, h);
    var read := Indexed(dev, answered);
    var (ready, checked) := Poll(dev, read, ReadyWords, DSP_COUNT);
    var t, u := [Any(0x2028), Any(0x2068)], [Equal(0x2028, position), Equal(0x2068, 1)];
    IndexedAsks(dev, h, t[0], t[1]);
    IndexedAsks(dev, answered, u[0], u[1]);
    ReadyAsks(dev, read, DSP_COUNT);
    var both := CommandIndex(dev, answered) == position && ResponseIndex(dev, answered) == 1;
    AsksBoth(answered, read, checked, both, ready, u, ReadyTests(8));
    AsksBoth(h, answered, checked, true, both && ready, t, u + ReadyTests(8));
    assert t + (u + ReadyTests(8)) == JudgeTests(position);
  }

  lemma JudgingMoments(env: Environment, h: History, snapshot: seq<Word>, position: Word, progress: bool)
    ensures var v := Judging(env, h, snapshot, position, progress);
            v.judgement.readyAfter ==>
              Earlier(v.checked, 8) == Indexed(env.device, v.answered) && Earlier(v.checked, 10) == v.answered
  {
    hide Indexed, CommandIndex, ResponseIndex, Poll, ConfinedToResponse, RingBase, Earlier;
    var v := Judging(env, h, snapshot, position, progress);
    if v.judgement.readyAfter {
      ReadyEarlier(env.device, Indexed(env.device, v.answered), DSP_COUNT);
      EarlierJoins(v.checked, 8, 2);
      IndexedEarlier(env.device, v.answered);
    }
  }

  /** The verdict is favourable exactly as stated. */
  lemma JudgingAnswers(env: Environment, h: History, snapshot: seq<Word>, position: Word, progress: bool)
    ensures var v := Judging(env, h, snapshot, position, progress);
            v.success <==> Approved(env, snapshot, position, h, v.checked)
  {
    hide Asks, Indexed, CommandIndex, ResponseIndex, Poll, JudgeTests, RingBase, Earlier, Since, Passed;
    var v := Judging(env, h, snapshot, position, progress);
    JudgingAsks(env, h, snapshot, position, progress);
    JudgingMoments(env, h, snapshot, position, progress);
    AsksMeans(h, v.checked, v.judgement.loaderConsumed && v.judgement.responseConsumed && v.judgement.readyAfter,
              JudgeTests(position));
    assert v.judgement.memoryBounded <==>
      forall i | 0 <= i < |snapshot| && !(64 * 1024 <= i < 64 * 1024 + 4) :: env.memory(v.checked, i) == snapshot[i];
  }

  // ---------- the run ----------

  function GateTests(): (t: seq<Test>)
    ensures |t| == 267
  {
    [Equal(0x2218, 0xa012dc0d)] + ZeroTests(256) + ReadyTests(8) + [Equal(0x2200, 0x0001fe00), Equal(0x2204, 0)]
  }

  lemma GatedAsks(dev: Device, h: History)
    ensures var (ok, g) := Gated(dev, h); Asks(h, g, ok, GateTests())
  {
    hide Asks, Poll, ZeroTests, ReadyTests;
    var (revision, h1) := Expect(dev, h, FPGA_REVISION, EXPECTED_FPGA_REVISION);
    var (zero, h2) := Poll(dev, h1, RingWords, CHECKED_WORDS);
    var (ready, h3) := Poll(dev, h2, ReadyWords, DSP_COUNT);
    var (cold, h4) := Expect(dev, h3, DMA_CONTROL, DMA_COLD_RESET);
    var (quiet, h5) := Expect(dev, h4, INTERRUPT_ENABLE, 0);
    var t0, t1, t2 := [Equal(0x2218, 0xa012dc0d)], [Equal(0x2200, 0x0001fe00)], [Equal(0x2204, 0)];
    ExpectAsks(dev, h3, DMA_CONTROL, DMA_COLD_RESET);
    ExpectAsks(dev, h4, INTERRUPT_ENABLE, 0);
    AsksThen(h3, h4, h5, cold, quiet, t1, t2);
    var e3 := if cold then h5 else h4;
    ReadyAsks(dev, h2, DSP_COUNT);
    AsksThen(h2, h3, e3, ready, cold && quiet, ReadyTests(8), t1 + t2);
    var e2 := if ready then e3 else h3;
    ZeroAsks(dev, h1, CHECKED_WORDS);
    AsksThen(h1, h2, e2, zero, ready && cold && quiet, ZeroTests(256), ReadyTests(8) + (t1 + t2));
    var e1 := if zero then e2 else h2;
    ExpectAsks(dev, h, FPGA_REVISION, EXPECTED_FPGA_REVISION);
    AsksThen(h, h1, e1, revision, zero && ready && cold && quiet, t0, ZeroTests(256) + (ReadyTests(8) + (t1 + t2)));
    assert t0 + (ZeroTests(256) + (ReadyTests(8) + (t1 + t2))) == GateTests();
  }

  /** Every call before the first register access succeeded, and the baseline was what
      it had to be. */
  ghost predicate Begun(env: Environment, run: History) {
    var h := Then(Boot, Acquire(Memory));
    && env.succeeds(Boot, PrepareMemory)
    && env.succeeds(h, OpenContainer) && env.succeeds(h, OpenGroup) && env.succeeds(h, ConfigureIommu)
    && OpeningCalls(env, h)
    && Begins(Reads(run), GateTests())
  }

  /** The setup of a run, and where its gate shows. */
  lemma SettingUpAnswers(env: Environment, run: History)
    requires var (o, passed) := SettingUp(env, Then(Boot, Acquire(Memory))); Reads(o.history) <= Reads(run)
    ensures env.succeeds(Boot, PrepareMemory) ==>
              (SettingUp(env, Then(Boot, Acquire(Memory))).1 <==> Begun(env, run))
  {
    hide Opening, Gated, OpeningCalls, GateTests, Asks, Begins, Reads;
    var h := Then(Boot, Acquire(Memory));
    MemoryReads();
    BootReads();
    OpeningAnswers(env, h);
    var b := Opening(env, h);
    if env.succeeds(h, OpenContainer) && env.succeeds(h, OpenGroup) && env.succeeds(h, ConfigureIommu) && b.bar {
      var (passed, g) := Gated(env.device, b.history);
      AsksNothing(Boot, b.history);
      GatedAsks(env.device, b.history);
      AsksBoth(Boot, b.history, g, true, passed, [], GateTests());
      assert [] + GateTests() == GateTests();
      GateShows(g, run, passed, GateTests());
    }
  }

  lemma MemoryReads()
    ensures Reads(Then(Boot, Acquire(Memory))) == []
  {
    BootReads();
  }

  /** A run in any environment. It begins exactly when all its calls succeed and the
      baseline reads are met; the chain is handed over exactly when the last turn of
      the wait for the connects read every command index at its position; and the run
      succeeds exactly when, then, the verdict is approved and everything is undone. */
  lemma LoadAnswers(env: Environment, snapshot: seq<Word>, position: Word)
    ensures var r := LoadRun(env, snapshot, position);
            && (r.driven.Some? <==> Begun(env, r.cleaned.history))
            && (r.driven.Some? ==>
                  var d := r.driven.value;
                  d.transfer.Some? <==>
                    d.awaited.turns > 0 && Agreed(d.connected, d.awaited.history, d.awaited.turns - 1))
            && (r.success <==>
                  && r.driven.Some? && r.driven.value.transfer.Some?
                  && var t := r.driven.value.transfer.value;
                     && Approved(env, snapshot, position, t.waited.history, t.verdict.checked)
                     && Undone(env, t.verdict.checked, r.cleaned.history))
  {
    hide SettingUp, Driving, CleaningUp, Begun, Agreed, Approved, Undone, Delivered, LastMoment, Prefix, Reads;
    var h0 := Then(Boot, Acquire(Memory));
    if env.succeeds(Boot, PrepareMemory) {
      var (o, passed) := SettingUp(env, h0);
      var r := LoadRun(env, snapshot, position);
      SettingFlags(env, h0);
      if passed {
        TransferAnswers(env, o.history, snapshot, position);
        DrivingAnswers(env, o.history, snapshot, position);
        var last := LastMoment(Driving(env, o.history, snapshot, position));
        SetUpContinues(env, snapshot, position);
        CleaningAnswers(env, o.(history := last));
        CleaningPrefix(env, o.(history := last), true);
        PrefixReads(last, r.cleaned.history);
      } else {
        CleaningPrefix(env, o, false);
        PrefixReads(o.history, r.cleaned.history);
      }
      SettingUpAnswers(env, r.cleaned.history);
    } else {
      NotBegun(env);
    }
  }

  lemma NotBegun(env: Environment)
    requires !env.succeeds(Boot, PrepareMemory)
    ensures !Begun(env, Boot)
  {}

  /** Up to its last moment a run goes on from its gate. */
  lemma SetUpContinues(env: Environment, snapshot: seq<Word>, position: Word)
    ensures var (o, passed) := SettingUp(env, Then(Boot, Acquire(Memory)));
            passed ==> Reads(o.history) <= Reads(LastMoment(Driving(env, o.history, snapshot, position)))
  {
    hide SettingUp, Driving, LastMoment, Settled, Steady, Orderly, Prefix, Reads, RunWrites, QuiesceList, Writes;
    var h := Then(Boot, Acquire(Memory));
    Acquired();
    NothingWritten();
    SettingUpSettles(env, h);
    var (o, passed) := SettingUp(env, h);
    if passed {
      SettledIsSteady(o.history);
      DrivingKeeps(env, o.history, snapshot, position);
      PrefixReads(o.history, LastMoment(Driving(env, o.history, snapshot, position)));
    }
  }

  lemma NothingWritten()
    ensures Writes(Then(Boot, Acquire(Memory))) == []
  {}

  lemma SettingFlags(env: Environment, h: History)
    ensures var (o, passed) := SettingUp(env, h); passed ==> o.bar && o.open && o.mapped
  {
    hide Opening, Gated;
  }

  lemma TransferAnswers(env: Environment, h: History, snapshot: seq<Word>, position: Word)
    ensures var d := Driving(env, h, snapshot, position);
            d.transfer.Some? <==>
              d.awaited.turns > 0 && Agreed(d.connected, d.awaited.history, d.awaited.turns - 1)
  {
    hide LoaderStartup, Connected, Awaiting, Transferring, Agreed;
    AwaitingMeans(env, Driving(env, h, snapshot, position).connected, 0);
  }

  lemma DrivingAnswers(env: Environment, h: History, snapshot: seq<Word>, position: Word)
    ensures var d := Driving(env, h, snapshot, position);
            if d.transfer.None? then !Delivered(d)
            else
              var t := d.transfer.value;
              && LastMoment(d) == t.verdict.checked
              && (Delivered(d) <==> Approved(env, snapshot, position, t.waited.history, t.verdict.checked))
  {
    hide LoaderStartup, Connected, Awaiting, Submitted, Waiting, Judging, Approved;
    var d := Driving(env, h, snapshot, position);
    if d.awaited.consumed {
      var w := d.transfer.value.waited;
      JudgingAnswers(env, w.history, snapshot, position, w.progress);
    }
  }
}
