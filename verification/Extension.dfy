/** One history continuing another by working steps only: reads, sleeps, and writes
    that leave the upper words of the rings alone. */
module Extension {
  import opened Common
  import opened Machine
  import opened TransportSpec
  import opened TransportRefinement
  import opened UserSpec

  predicate Work(e: Event) {
    || e.Read? || e.Sleep?
    || (e.Write? && !(InRings(e.offset) && e.offset % 0x40 >= 0x28))
  }

  predicate Extends(h: History, g: History) {
    g == h || (g.Then? && Work(g.event) && Extends(h, g.past))
  }

  lemma {:induction false} ExtendsTransitive(a: History, b: History, c: History)
    requires Extends(a, b) && Extends(b, c)
    ensures Extends(a, c)
  {
    hide Work;
    if c != b {
      ExtendsTransitive(a, b, c.past);
    }
  }

  lemma {:induction false} ExtendsPrefix(h: History, g: History)
    requires Extends(h, g)
    ensures Prefix(h, g)
  {
    hide Work;
    if g != h {
      ExtendsPrefix(h, g.past);
    }
  }

  lemma {:induction false} PrefixTransitive(a: History, b: History, c: History)
    requires Prefix(a, b) && Prefix(b, c)
    ensures Prefix(a, c)
  {
    if c != b {
      PrefixTransitive(a, b, c.past);
    }
  }

  /** Reads and sleeps are work. */
  lemma ReadExtends(dev: Device, a: History, h: History, offset: nat)
    requires Extends(a, h)
    ensures Extends(a, Observe(dev, h, offset)) && Extends(a, Then(h, Sleep))
  {}

  lemma {:induction false} PollExtends(dev: Device, a: History, h: History, check: Check, n: nat)
    requires Extends(a, h)
    ensures Extends(a, Poll(dev, h, check, n).1)
  {
    if n > 0 {
      PollExtends(dev, a, h, check, n - 1);
      InspectExtends(dev, a, Poll(dev, h, check, n - 1).1, check, n - 1);
    }
  }

  lemma InspectExtends(dev: Device, a: History, h: History, check: Check, i: nat)
    requires Extends(a, h)
    ensures Extends(a, Inspect(dev, h, check, i).1)
  {
    hide RingBase, Join32;
    match check
    case RingWords =>
    case ReadyWords =>
    case Descriptors(dma) =>
      ReadExtends(dev, a, h, PageRegister(i / 8, (i / 4) % 2, i % 4));
    case Rings(indexes, pages) =>
      if i % 6 >= 2 {
        ReadExtends(dev, a, h, RingBase(i / 6 / 2, i / 6 % 2) + (i % 6 - 2) * 8);
      }
  }

  /** A write to a lower word of a ring. */
  lemma RingWriteExtends(a: History, h: History, dsp: nat, ring: nat, word: nat, value: Word)
    requires Extends(a, h) && dsp < DSP_COUNT && ring < RING_COUNT && word < 10
    ensures Extends(a, Then(h, Write(RingBase(dsp, ring) + word * 4, value)))
  {
    hide InRings;
    RingWordKind(dsp, ring, word);
  }

  lemma ControlExtends(a: History, h: History, offset: nat, value: Word)
    requires Extends(a, h) && offset in {DMA_CONTROL, INTERRUPT_ENABLE, INTERRUPT_ACK, NOTIFICATION_CONTROL}
    ensures Extends(a, Then(h, Write(offset, value)))
  {}

  lemma {:induction false} ClearExtends(a: History, h: History, n: nat)
    requires Extends(a, h) && n <= CLEARED_WORDS
    ensures Extends(a, Clear(h, n))
  {
    hide Work, RingBase;
    if n > 0 {
      ClearExtends(a, h, n - 1);
      RingWriteExtends(a, Clear(h, n - 1), (n - 1) / 20, ((n - 1) / 10) % 2, (n - 1) % 10, 0);
    }
  }

  lemma HeadExtends(a: History, h: History)
    requires Extends(a, h)
    ensures Extends(a, QuiesceHead(h))
  {
    hide Work, Extends;
    ControlExtends(a, h, INTERRUPT_ENABLE, 0);
    var h1 := Then(h, Write(INTERRUPT_ENABLE, 0));
    ControlExtends(a, h1, INTERRUPT_ACK, ALL_ONES);
    var h2 := Then(h1, Write(INTERRUPT_ACK, ALL_ONES));
    ControlExtends(a, h2, DMA_CONTROL, DMA_RESET_GLOBAL);
    ControlExtends(a, Then(h2, Write(DMA_CONTROL, DMA_RESET_GLOBAL)), DMA_CONTROL, DMA_GLOBAL_ONLY);
  }

  lemma QuiesceExtends(a: History, h: History)
    requires Extends(a, h)
    ensures Extends(a, QuiesceWrites(h))
  {
    hide Extends, Clear;
    HeadExtends(a, h);
    ClearExtends(a, QuiesceHead(h), CLEARED_WORDS);
    ControlExtends(a, Clear(QuiesceHead(h), CLEARED_WORDS), DMA_CONTROL, DMA_COLD_RESET);
  }

  lemma RestoredExtends(dev: Device, a: History, h: History)
    requires Extends(a, h)
    ensures Extends(a, Restored(dev, h).1)
  {
    hide Extends, Poll, QuiesceWrites;
    QuiesceExtends(a, h);
    PollExtends(dev, a, QuiesceWrites(h), RingWords, CHECKED_WORDS);
    ReadExtends(dev, a, Poll(dev, QuiesceWrites(h), RingWords, CHECKED_WORDS).1, DMA_CONTROL);
  }

  lemma {:induction false} PublishExtends(a: History, h: History, dsp: nat, ring: nat, first: Address, n: nat)
    requires Extends(a, h) && dsp < DSP_COUNT && ring < RING_COUNT && n <= RING_PAGES
    requires first + n * PAGE_BYTES <= ADDRESS_LIMIT
    ensures Extends(a, PublishFrom(h, RingBase(dsp, ring), first, n))
  {
    hide Work, Extends, RingBase, Low32, High32;
    if n > 0 {
      PublishExtends(a, h, dsp, ring, first, n - 1);
      var g, iova := PublishFrom(h, RingBase(dsp, ring), first, n - 1), first + (n - 1) * PAGE_BYTES;
      RingWriteExtends(a, g, dsp, ring, (n - 1) * 2, Low32(iova));
      var g1 := Then(g, Write(RingBase(dsp, ring) + (n - 1) * 8, Low32(iova)));
      RingWriteExtends(a, g1, dsp, ring, (n - 1) * 2 + 1, High32(iova));
    }
  }

  /** Cleaning up continues a history; up to the device reset by work only. */
  lemma CleaningPrefix(env: Environment, o: Opened, startup: bool)
    ensures Prefix(o.history, CleaningUp(env, o, startup).history)
  {
    hide Restored, Recovering, Prefix, Extends;
    PrefixSteps();
    var h1 := if startup then Restored(env.device, o.history).1 else o.history;
    ExtendsSelf(o.history);
    RestoredExtends(env.device, o.history, o.history);
    ExtendsPrefix(o.history, h1);
    var h2 := Then(h1, ResetDevice);
    ExtendsSelf(h2);
    RecoveringExtends(env.device, h2);
    ExtendsPrefix(h2, Recovering(env.device, h2).1);
    PrefixTransitive(o.history, h2, Recovering(env.device, h2).1);
  }

  lemma ExtendsSelf(h: History)
    ensures Extends(h, h)
  {}

  lemma PrefixSteps()
    ensures forall a, h, e :: Prefix(a, h) ==> Prefix(a, Then(h, e))
  {}

  lemma RecoveringExtends(dev: Device, h: History)
    ensures Extends(h, Recovering(dev, h).1)
  {
    ExtendsSelf(h);
    hide Extends, Poll;
    PollExtends(dev, h, h, RingWords, CHECKED_WORDS);
    var h1 := Poll(dev, h, RingWords, CHECKED_WORDS).1;
    ReadExtends(dev, h, h1, DMA_CONTROL);
    PollExtends(dev, h, Observe(dev, h1, DMA_CONTROL), ReadyWords, DSP_COUNT);
  }
}
