/** What the caller of the driver is told: the code of every request and every probe,
    each field of a reply by the read that brought it, and who may touch a register. */
module RequestAnswers {
  import opened Common
  import opened Bits
  import opened Machine
  import opened TransportSpec
  import opened TransportSafety
  import opened LifecycleSpec
  import opened LifecycleSafety
  import opened Conversation
  import opened TransportAnswers

  // ---------- requests ----------

  /** Turned away: nothing happened and nothing is handed out. */
  predicate Refused(d: Driver, e: Driver, code: Code, reply: Option<Reply>, reason: Code) {
    e == d && code == reason && reply == None
  }

  /** Nothing but reads happened. */
  predicate OnlyRead(d: Driver, e: Driver) {
    e == d.(history := e.history) && Writes(e.history) == Writes(d.history)
  }

  /** The six reads of a status request, and the reply made of them. */
  predicate StatusAnswered(answers: seq<(nat, Word)>, dsp: nat, reply: Reply) {
    && |answers| == 6
    && answers[0].0 == 0x2200 && answers[1].0 == ReadyOffset(dsp)
    && answers[2].0 == Bank(dsp) + 0x28 && answers[3].0 == Bank(dsp) + 0x24
    && answers[4].0 == Bank(dsp) + 0x68 && answers[5].0 == Bank(dsp) + 0x64
    && reply == Status(answers[1].1, answers[1].1 % 2 == 1, Bit(answers[0].1, dsp + 1),
                       answers[2].1, answers[3].1, answers[4].1, answers[5].1)
  }

  /** What a reset of a running transport answers for its reads. */
  predicate ResetAnswered(answers: seq<(nat, Word)>, dsp: nat, code: Code, reply: Option<Reply>, copyOut: bool) {
    && |answers| > 0
    && if answers[0] != (0x2200, 0x1ff) then |answers| == 1 && code == Busy && reply == None
       else
         && |answers| == 5
         && if !Passed(answers, ResetTests(dsp)) then code == IoError && reply == None
            else if !copyOut then code == Fault && reply == None
            else code == Done && reply == Some(ResetDone(ResetReport(0x1ff, answers[3].1, answers[4].1 % 2 == 1)))
  }

  /** How a request on a driver is answered, by the reads it made. Each way out of the
      request is one line, in the order in which a caller meets them. */
  predicate Answered(d: Driver, r: Request, e: Driver, code: Code, reply: Option<Reply>)
    requires PageTable(d.dma)
  {
    var answers := Since(d.history, e.history);
    if r.ForeignMagic? then Refused(d, e, code, reply, NotTty)
    else if d.removing then Refused(d, e, code, reply, NoDevice)
    else
      match r
      case GetInfo(copyOut) =>
        && OnlyRead(d, e) && |answers| == 2 && answers[0].0 == 0x2218 && answers[1].0 == 0x2234
        && code == (if copyOut then Done else Fault)
        && reply == if copyOut then Some(Info(answers[0].1, answers[1].1, 8, d.started)) else None
      case DspStatus(copyIn, sizeOk, dsp, copyOut) =>
        if !copyIn then Refused(d, e, code, reply, Fault)
        else if !sizeOk || dsp >= 8 then Refused(d, e, code, reply, Invalid)
        else
          && OnlyRead(d, e) && |answers| == 6 && code == (if copyOut then Done else Fault)
          && if copyOut then reply.Some? && StatusAnswered(answers, dsp, reply.value) else reply == None
      case StartTransport(capable) =>
        if !capable then Refused(d, e, code, reply, NotPermitted)
        else if d.started then Refused(d, e, code, reply, Done)
        else
          && e == d.(history := e.history, started := code == Done) && reply == None
          && code == (if !FoundCold(answers) then Busy
                      else if Passed(answers, StartTests(d.dma)) then Done
                      else IoError)
      case StopTransport(capable) =>
        if !capable then Refused(d, e, code, reply, NotPermitted)
        else if !d.started then Refused(d, e, code, reply, Done)
        else
          && e == d.(history := e.history, started := false) && reply == None
          && code == if Passed(answers, [Any(0x2200)] + ColdTests()) then Done else IoError
      case ResetDsp(capable, copyIn, sizeOk, dsp, flags, copyOut) =>
        if !capable then Refused(d, e, code, reply, NotPermitted)
        else if !copyIn then Refused(d, e, code, reply, Fault)
        else if !sizeOk then Refused(d, e, code, reply, Invalid)
        else if !d.started then Refused(d, e, code, reply, BrokenPipe)
        else if dsp >= 8 || flags != 0 then Refused(d, e, code, reply, Invalid)
        else e == d.(history := e.history) && ResetAnswered(answers, dsp, code, reply, copyOut)
      case UnknownCommand => Refused(d, e, code, reply, NotTty)
      case ForeignMagic => Refused(d, e, code, reply, NotTty)
  }

  lemma InfoAnswers(dev: Device, h: History)
    ensures var g := Observe(dev, Observe(dev, h, FPGA_REVISION), EXTENDED_CAPABILITIES);
            && Writes(g) == Writes(h)
            && Since(h, g) == [(FPGA_REVISION, dev(h, FPGA_REVISION)),
                               (EXTENDED_CAPABILITIES, dev(Observe(dev, h, FPGA_REVISION), EXTENDED_CAPABILITIES))]
  {
    var h1 := Observe(dev, h, FPGA_REVISION);
    assert Reads(h1) == Reads(h) + [(FPGA_REVISION, dev(h, FPGA_REVISION))];
    assert Writes(h1) == Writes(h);
  }

  lemma StatusAnswers(dev: Device, h: History, dsp: nat)
    ensures var g := StatusReads(dev, h, dsp);
            Writes(g) == Writes(h) && StatusAnswered(Since(h, g), dsp, StatusOf(dev, h, dsp))
  {
    hide Bank, ReadyOffset, Bit;
    var h1 := Observe(dev, h, DMA_CONTROL);
    assert Reads(h1) == Reads(h) + [(DMA_CONTROL, dev(h, DMA_CONTROL))] && Writes(h1) == Writes(h);
    var h2 := Observe(dev, h1, ReadyOffset(dsp));
    assert Reads(h2) == Reads(h1) + [(ReadyOffset(dsp), dev(h1, ReadyOffset(dsp)))] && Writes(h2) == Writes(h);
    var h3 := Observe(dev, h2, Bank(dsp) + 0x28);
    assert Reads(h3) == Reads(h2) + [(Bank(dsp) + 0x28, dev(h2, Bank(dsp) + 0x28))] && Writes(h3) == Writes(h);
    var h4 := Observe(dev, h3, Bank(dsp) + 0x24);
    assert Reads(h4) == Reads(h3) + [(Bank(dsp) + 0x24, dev(h3, Bank(dsp) + 0x24))] && Writes(h4) == Writes(h);
    var h5 := Observe(dev, h4, Bank(dsp) + 0x68);
    assert Reads(h5) == Reads(h4) + [(Bank(dsp) + 0x68, dev(h4, Bank(dsp) + 0x68))] && Writes(h5) == Writes(h);
    var g := Observe(dev, h5, Bank(dsp) + 0x64);
    assert Reads(g) == Reads(h5) + [(Bank(dsp) + 0x64, dev(h5, Bank(dsp) + 0x64))] && Writes(g) == Writes(h);
    assert g == StatusReads(dev, h, dsp);
  }

  /** On any device every request is answered as stated. */
  lemma IoctlAnswers(dev: Device, d: Driver, r: Request)
    requires PageTable(d.dma)
    ensures var (e, code) := Ioctl(dev, d, r); Answered(d, r, e, code, Answer(dev, d, r))
  {
    hide Start, Stop, Reset, StatusReads, StatusOf, ColdTests, StartTests, StatusAnswered, FoundCold, Passed;
    if !d.removing {
      match r
      case GetInfo(_) => InfoAnswers(dev, d.history);
      case DspStatus(_, _, dsp, _) => StatusHasSix(dev, d.history, dsp);
      case StartTransport(_) => StartTransportAnswers(dev, d);
      case StopTransport(_) => StopTransportAnswers(dev, d);
      case ResetDsp(_, _, _, dsp, flags, copyOut) => ResetDspAnswers(dev, d, dsp, flags, copyOut);
      case UnknownCommand =>
      case ForeignMagic =>
    }
  }

  lemma StatusHasSix(dev: Device, h: History, dsp: nat)
    ensures var g := StatusReads(dev, h, dsp);
            && Writes(g) == Writes(h) && |Since(h, g)| == 6
            && StatusAnswered(Since(h, g), dsp, StatusOf(dev, h, dsp))
  {
    hide StatusReads, StatusOf, Since, Writes;
    StatusAnswers(dev, h, dsp);
  }

  lemma StartTransportAnswers(dev: Device, d: Driver)
    requires PageTable(d.dma)
    ensures var o := Start(dev, d.history, d.dma, d.started);
            var answers := Since(d.history, o.history);
            if d.started then o == Outcome(d.history, true, Done)
            else
              && o.started == (o.code == Done)
              && o.code == (if !FoundCold(answers) then Busy
                            else if Passed(answers, StartTests(d.dma)) then Done
                            else IoError)
  {
    if !d.started {
      StartAnswers(dev, d.history, d.dma);
    }
  }

  lemma StopTransportAnswers(dev: Device, d: Driver)
    ensures var o := Stop(dev, d.history, d.started);
            var answers := Since(d.history, o.history);
            if !d.started then o == Outcome(d.history, false, Done)
            else
              && !o.started
              && o.code == if Passed(answers, [Any(0x2200)] + ColdTests()) then Done else IoError
  {
    if d.started {
      StopAnswers(dev, d.history);
    }
  }

  lemma ResetDspAnswers(dev: Device, d: Driver, dsp: nat, flags: nat, copyOut: bool)
    ensures var o := Reset(dev, d.history, d.started, dsp, flags);
            var code := if o.code == Done && !copyOut then Fault else o.code;
            var reply := if o.code == Done && o.report.Some? && copyOut then Some(ResetDone(o.report.value)) else None;
            if !d.started then o == ResetOutcome(d.history, BrokenPipe, None)
            else if dsp >= 8 || flags != 0 then o == ResetOutcome(d.history, Invalid, None)
            else ResetAnswered(Since(d.history, o.history), dsp, code, reply, copyOut)
  {
    if d.started && dsp < 8 && flags == 0 {
      ResetAnswers(dev, d.history, dsp, flags);
    }
  }

  // ---------- who may touch a register ----------

  predicate Capable(r: Request) {
    match r
    case StartTransport(capable) => capable
    case StopTransport(capable) => capable
    case ResetDsp(capable, _, _, _, _, _) => capable
    case _ => false
  }

  /** An action anybody may take: open, close, or a request without the capability. */
  predicate Unprivileged(a: Action) {
    a.OpenFile? || a.CloseFile? || (a.Ask? && !Capable(a.request))
  }

  lemma UnprivilegedStep(dev: Device, d: Driver, a: Action)
    requires Invariant(d) && Possible(d, a) && Unprivileged(a)
    ensures var e := Act(dev, d, a);
            && Writes(e.history) == Writes(d.history) && e.started == d.started && e.removing == d.removing
            && e.phase == d.phase
  {
    hide Invariant;
    match a
    case OpenFile =>
    case CloseFile =>
    case Ask(r) =>
      IoctlAnswers(dev, d, r);
      hide StartTests, ColdTests, ResetAnswered, StatusAnswered, Since, FoundCold, Ioctl, Answer;
  }

  /** Whatever unprivileged callers do, in any order, writes no register and changes
      neither the transport nor its removal. */
  lemma {:induction false} UnprivilegedOnlyRead(dev: Device, d: Driver, actions: seq<Action>)
    requires Invariant(d) && PossibleRun(dev, d, actions)
    requires forall a | a in actions :: Unprivileged(a)
    ensures var e := Run(dev, d, actions);
            Writes(e.history) == Writes(d.history) && e.started == d.started && e.removing == d.removing
    decreases actions
  {
    hide Invariant, Act, Possible, Writes, Unprivileged;
    if actions != [] {
      var e := Act(dev, d, actions[0]);
      UnprivilegedStep(dev, d, actions[0]);
      ActKeeps(dev, d, actions[0]);
      UnprivilegedOnlyRead(dev, e, actions[1..]);
    }
  }

  lemma RemovedStep(dev: Device, d: Driver, a: Action)
    requires Invariant(d) && Possible(d, a) && d.removing
    ensures var e := Act(dev, d, a);
            && Writes(e.history) == Writes(d.history) && Reads(e.history) == Reads(d.history)
            && e.removing && e.files <= d.files
  {
    match a
    case OpenFile =>
    case Ask(r) => IoctlKeeps(dev, d, r);
    case CloseFile =>
    case FinishRemove =>
  }

  /** Once a removal took the lock no register is accessed any more and no file is
      opened, whatever still happens. */
  lemma {:induction false} RemovedIsSilent(dev: Device, d: Driver, actions: seq<Action>)
    requires Invariant(d) && PossibleRun(dev, d, actions) && d.removing
    ensures var e := Run(dev, d, actions);
            && Writes(e.history) == Writes(d.history) && Reads(e.history) == Reads(d.history)
            && e.files <= d.files
    decreases actions
  {
    hide Invariant, Act, Possible, Writes, Reads;
    if actions != [] {
      var e := Act(dev, d, actions[0]);
      RemovedStep(dev, d, actions[0]);
      ActKeeps(dev, d, actions[0]);
      RemovedIsSilent(dev, e, actions[1..]);
    }
  }

  // ---------- the probe ----------

  /** Every kernel call up to mapping the BAR succeeded. */
  predicate Reached(c: ProbeCalls) {
    c.pageSizeOk && c.barLengthOk && c.memoryOk && c.enable == 0 && c.region == 0 && c.mask == 0 && c.barOk
  }

  /** The code of a probe: that of its first failing call, where the cold precondition
      is judged by the reads the probe made. */
  function ProbeCode(c: ProbeCalls, cold: bool): Code {
    if !c.pageSizeOk then Unsupported
    else if !c.barLengthOk then Invalid
    else if !c.memoryOk then NoMemory
    else if c.enable != 0 then Failed(c.enable)
    else if c.region != 0 then Failed(c.region)
    else if c.mask != 0 then Failed(c.mask)
    else if !c.barOk then NoMemory
    else if !cold then Busy
    else if exists i | 0 <= i < |c.pages| :: c.pages[i].None? then NoMemory
    else if !c.nameOk then NoMemory
    else if c.register != 0 then Failed(c.register)
    else Done
  }

  /** On any device a probe answers with the code of its first failing call. It reads
      only for its cold precondition, and only when it got that far; and it writes
      nothing. */
  lemma ProbeAnswers(dev: Device, c: ProbeCalls)
    requires WellFormedCalls(c)
    ensures var (h, code) := Probe(dev, c);
            && code == ProbeCode(c, Passed(Reads(h), ColdTests()))
            && Writes(h) == []
            && (!Reached(c) ==> Reads(h) == [])
  {
    hide ColdCheck, ColdTests, Allocate, Free, Passed;
    MappedSilent();
    if Reached(c) {
      ColdAsks(dev, Mapped());
      ColdCheckKeeps(dev, Mapped());
      var (cold, h) := ColdCheck(dev, Mapped());
      AsksMeans(Mapped(), h, cold, ColdTests());
      assert Since(Mapped(), h) == Reads(h);
      AllocatesQuietly(h, c.pages, PAGE_SLOTS);
      var (all, g) := Allocate(h, c.pages, PAGE_SLOTS);
      UnwindsQuietly(h, FirstPresent(0), false);
      UnwindsQuietly(g, FirstPresent(Granted(c.pages)), false);
      UnwindsQuietly(g, AllPresent(), false);
      UnwindsQuietly(Then(g, Acquire(Name)), AllPresent(), true);
    }
  }

  lemma MappedSilent()
    ensures Reads(Mapped()) == [] && Writes(Mapped()) == []
  {
    assert Reads(Then(Then(Boot, Acquire(Memory)), Acquire(DriverData))) == [];
    assert Writes(Then(Then(Boot, Acquire(Memory)), Acquire(DriverData))) == [];
  }

  lemma {:induction false} AllocatesQuietly(h: History, pages: seq<Option<Address>>, n: nat)
    requires n <= |pages|
    ensures var (all, g) := Allocate(h, pages, n);
            && Reads(g) == Reads(h) && Writes(g) == Writes(h)
            && (all <==> forall i | 0 <= i < n :: pages[i].Some?)
  {
    if n > 0 {
      AllocatesQuietly(h, pages, n - 1);
    }
  }

  lemma {:induction false} FreesQuietly(h: History, present: seq<bool>, n: nat)
    requires n <= |present|
    ensures Reads(Free(h, present, n)) == Reads(h) && Writes(Free(h, present, n)) == Writes(h)
  {
    if n > 0 {
      FreesQuietly(h, present, n - 1);
    }
  }

  lemma UnwindsQuietly(h: History, present: seq<bool>, named: bool)
    requires |present| == PAGE_SLOTS
    ensures Reads(FreePages(h, present, named)) == Reads(h) && Writes(FreePages(h, present, named)) == Writes(h)
    ensures Reads(UnmapBar(h, named)) == Reads(h) && Writes(UnmapBar(h, named)) == Writes(h)
  {
    hide Free;
    FreesQuietly(h, present, PAGE_SLOTS);
    BarQuietly(h, named);
    BarQuietly(Free(h, present, PAGE_SLOTS), named);
  }

  lemma BarQuietly(h: History, named: bool)
    ensures Reads(UnmapBar(h, named)) == Reads(h) && Writes(UnmapBar(h, named)) == Writes(h)
  {
    var h1 := Then(Then(h, Release(Bar)), Release(Region));
    assert Reads(h1) == Reads(h) && Writes(h1) == Writes(h);
    var h2 := Then(Then(h1, Release(PciEnabled)), Release(DriverData));
    assert Reads(h2) == Reads(h1) && Writes(h2) == Writes(h1);
  }
}
