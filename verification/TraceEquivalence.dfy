/** The driver and the probe emit the same register writes, and a reset touches
    one engine only. */
module TraceEquivalence {
  import opened Common
  import opened Bits
  import opened Machine
  import opened TransportSpec
  import opened TransportSafety
  import opened UserSpec
  import opened OctoSpec

  // ---- same device: the whole exchange coincides ----

  lemma {:induction false} SamePages(h: History, dsp: nat, ring: nat, n: nat)
    requires dsp < DSP_COUNT && ring < RING_COUNT && n <= RING_PAGES
    ensures PublishFrom(h, RingBase(dsp, ring), FirstIova(dsp, ring), n) == Publish(h, WindowPages(), dsp, ring, n)
  {
    hide RingBase, Low32, High32, WindowPages, Slot;
    if n > 0 {
      SamePages(h, dsp, ring, n - 1);
      SlotAddress(dsp, ring, n - 1);
    }
  }

  lemma SlotAddress(dsp: nat, ring: nat, page: nat)
    requires dsp < DSP_COUNT && ring < RING_COUNT && page < RING_PAGES
    ensures Slot(dsp, ring, page) < PAGE_SLOTS
    ensures WindowPages()[Slot(dsp, ring, page)] == FirstIova(dsp, ring) + page * PAGE_BYTES
  {}

  lemma {:induction false} SameBringUp(dev: Device, h: History, n: nat)
    requires n <= DSP_COUNT
    ensures ProbeDsps(dev, h, n) == InitDsps(dev, h, WindowPages(), n)
  {
    hide SeedIndex, Publish, PublishFrom, WindowPages, FirstIova, RingBase;
    if n > 0 {
      SameBringUp(dev, h, n - 1);
      var g := ProbeDsps(dev, h, n - 1);
      SamePages(SeedIndex(dev, g, n - 1, 0), n - 1, 0, RING_PAGES);
      var g1 := ProbeRing(dev, g, n - 1, 0);
      SamePages(SeedIndex(dev, g1, n - 1, 1), n - 1, 1, RING_PAGES);
    }
  }

  // ---- different devices: the writes depend on the index reads only ----

  /** Every hardware index this bring-up reads is the one `index` gives. */
  predicate Sees(dev: Device, h: History, dma: seq<Address>, index: nat -> Word, n: nat)
    requires PageTable(dma) && n <= DSP_COUNT
  {
    n == 0 ||
    (var g := InitDsps(dev, h, dma, n - 1);
     && Sees(dev, h, dma, index, n - 1)
     && dev(g, RingBase(n - 1, 0) + 0x28) == index(RingBase(n - 1, 0) + 0x28)
     && dev(InitRing(dev, g, dma, n - 1, 0), RingBase(n - 1, 1) + 0x28) == index(RingBase(n - 1, 1) + 0x28))
  }

  /** The device that answers every read from a table. */
  function Fixed(index: nat -> Word): Device {
    (_, offset) => index(offset)
  }

  lemma {:induction false} PublishAppends(h: History, dma: seq<Address>, dsp: nat, ring: nat, n: nat)
    requires PageTable(dma) && dsp < DSP_COUNT && ring < RING_COUNT && n <= RING_PAGES
    ensures Writes(Publish(h, dma, dsp, ring, n)) == Writes(h) + Writes(Publish(Boot, dma, dsp, ring, n))
    ensures |Writes(Publish(Boot, dma, dsp, ring, n))| == 2 * n
  {
    hide RingBase, Low32, High32;
    if n > 0 { PublishAppends(h, dma, dsp, ring, n - 1); }
  }

  lemma RingAppends(dev: Device, h: History, dma: seq<Address>, dsp: nat, ring: nat, index: nat -> Word)
    requires PageTable(dma) && dsp < DSP_COUNT && ring < RING_COUNT
    requires dev(h, RingBase(dsp, ring) + 0x28) == index(RingBase(dsp, ring) + 0x28)
    ensures Writes(InitRing(dev, h, dma, dsp, ring)) == Writes(h) + Writes(InitRing(Fixed(index), Boot, dma, dsp, ring))
    ensures |Writes(InitRing(Fixed(index), Boot, dma, dsp, ring))| == 10
  {
    hide RingBase, Publish;
    var seeded, fixed := SeedIndex(dev, h, dsp, ring), SeedIndex(Fixed(index), Boot, dsp, ring);
    PublishAppends(seeded, dma, dsp, ring, RING_PAGES);
    PublishAppends(fixed, dma, dsp, ring, RING_PAGES);
    SeedAppends(dev, h, dsp, ring, index);
  }

  lemma SeedAppends(dev: Device, h: History, dsp: nat, ring: nat, index: nat -> Word)
    requires dev(h, RingBase(dsp, ring) + 0x28) == index(RingBase(dsp, ring) + 0x28)
    ensures Writes(SeedIndex(dev, h, dsp, ring)) == Writes(h) + Writes(SeedIndex(Fixed(index), Boot, dsp, ring))
    ensures |Writes(SeedIndex(Fixed(index), Boot, dsp, ring))| == 2
  {
    hide RingBase;
    var base := RingBase(dsp, ring);
    var i := BoundedIndex(index(base + 0x28));
    SeedWrites(dev, h, dsp, ring, i);
    SeedWrites(Fixed(index), Boot, dsp, ring, i);
  }

  lemma SeedWrites(dev: Device, h: History, dsp: nat, ring: nat, i: Word)
    requires i == BoundedIndex(dev(h, RingBase(dsp, ring) + 0x28))
    ensures var base := RingBase(dsp, ring);
            Writes(SeedIndex(dev, h, dsp, ring)) == Writes(h) + [(base + 0x24, i), (base + 0x20, i)]
  {
    hide RingBase;
    var base := RingBase(dsp, ring);
    var h1 := Then(Observe(dev, h, base + 0x28), Write(base + 0x24, i));
    assert Writes(h1) == Writes(h) + [(base + 0x24, i)];
  }

  /** The writes of a bring-up, as a function of the page table and the indexes. */
  function BringUpWrites(dma: seq<Address>, index: nat -> Word, n: nat): seq<(nat, Word)>
    requires PageTable(dma) && n <= DSP_COUNT
  {
    if n == 0 then []
    else
      Pow2Monotone(n + 1, 9);
      assert Pow2(9) == 512;
      BringUpWrites(dma, index, n - 1)
      + Writes(InitRing(Fixed(index), Boot, dma, n - 1, 0))
      + Writes(InitRing(Fixed(index), Boot, dma, n - 1, 1))
      + [(DMA_CONTROL, Pow2(n + 1) - 1)]
  }

  lemma {:induction false} BringUpAppends(dev: Device, h: History, dma: seq<Address>, index: nat -> Word, n: nat)
    requires PageTable(dma) && n <= DSP_COUNT && Sees(dev, h, dma, index, n)
    ensures Writes(InitDsps(dev, h, dma, n)) == Writes(h) + BringUpWrites(dma, index, n)
  {
    hide InitRing, Pow2, RingBase;
    if n > 0 {
      BringUpAppends(dev, h, dma, index, n - 1);
      var g := InitDsps(dev, h, dma, n - 1);
      RingAppends(dev, g, dma, n - 1, 0, index);
      RingAppends(dev, InitRing(dev, g, dma, n - 1, 0), dma, n - 1, 1, index);
    }
  }

  lemma {:induction false} BringUpCount(dma: seq<Address>, index: nat -> Word, n: nat)
    requires PageTable(dma) && n <= DSP_COUNT
    ensures |BringUpWrites(dma, index, n)| == 21 * n
  {
    hide InitRing, Pow2, RingBase;
    if n > 0 {
      BringUpCount(dma, index, n - 1);
      RingCount(dma, n - 1, 0, index);
      RingCount(dma, n - 1, 1, index);
    }
  }

  lemma RingCount(dma: seq<Address>, dsp: nat, ring: nat, index: nat -> Word)
    requires PageTable(dma) && dsp < DSP_COUNT && ring < RING_COUNT
    ensures |Writes(InitRing(Fixed(index), Boot, dma, dsp, ring))| == 10
  {
    hide RingBase, InitRing;
    RingAppends(Fixed(index), Boot, dma, dsp, ring, index);
  }

  /** The 174 writes of a start. */
  function StartWrites(dma: seq<Address>, index: nat -> Word): seq<(nat, Word)>
    requires PageTable(dma)
  {
    Writes(Prologue(Boot)) + BringUpWrites(dma, index, DSP_COUNT)
  }

  lemma PrologueAppends(h: History)
    ensures Writes(Prologue(h)) == Writes(h) + Writes(Prologue(Boot))
    ensures |Writes(Prologue(Boot))| == 6
  {
    var six := [(NOTIFICATION_CONTROL, 0), (INTERRUPT_ENABLE, 0), (INTERRUPT_ACK, 0),
                (DMA_CONTROL, DMA_RESET_GLOBAL), (DMA_CONTROL, DMA_GLOBAL_ONLY), (INTERRUPT_ACK, ALL_ONES)];
    PrologueWrites(h, six);
    PrologueWrites(Boot, six);
  }

  lemma PrologueWrites(h: History, six: seq<(nat, Word)>)
    requires six == [(NOTIFICATION_CONTROL, 0), (INTERRUPT_ENABLE, 0), (INTERRUPT_ACK, 0),
                     (DMA_CONTROL, DMA_RESET_GLOBAL), (DMA_CONTROL, DMA_GLOBAL_ONLY), (INTERRUPT_ACK, ALL_ONES)]
    ensures Writes(Prologue(h)) == Writes(h) + six
  {
    TwoWrites(h, six[0], six[1]);
    var h1 := Then(Then(h, Write(NOTIFICATION_CONTROL, 0)), Write(INTERRUPT_ENABLE, 0));
    TwoWrites(h1, six[2], six[3]);
    var h2 := Then(Then(h1, Write(INTERRUPT_ACK, 0)), Write(DMA_CONTROL, DMA_RESET_GLOBAL));
    TwoWrites(h2, six[4], six[5]);
    hide Writes;
    assert Writes(h) + [six[0], six[1]] + [six[2], six[3]] + [six[4], six[5]] == Writes(h) + six;
  }

  lemma TwoWrites(h: History, a: (nat, Word), b: (nat, Word))
    ensures Writes(Then(Then(h, Write(a.0, a.1)), Write(b.0, b.1))) == Writes(h) + [a, b]
  {
    assert Writes(Then(h, Write(a.0, a.1))) == Writes(h) + [a];
  }

  lemma {:induction false} ClearAppends(h: History, n: nat)
    ensures Writes(Clear(h, n)) == Writes(h) + Writes(Clear(Boot, n))
    ensures |Writes(Clear(Boot, n))| == n
  {
    hide RingBase;
    if n > 0 { ClearAppends(h, n - 1); }
  }

  /** The 165 writes that return to the cold state. */
  function QuiesceList(): seq<(nat, Word)> {
    Writes(QuiesceWrites(Boot))
  }

  lemma HeadAppends(h: History)
    ensures Writes(QuiesceHead(h)) == Writes(h) + Writes(QuiesceHead(Boot))
    ensures |Writes(QuiesceHead(Boot))| == 4
  {
    var four := [(INTERRUPT_ENABLE, 0), (INTERRUPT_ACK, ALL_ONES),
                 (DMA_CONTROL, DMA_RESET_GLOBAL), (DMA_CONTROL, DMA_GLOBAL_ONLY)];
    HeadWrites(h, four);
    HeadWrites(Boot, four);
  }

  lemma HeadWrites(h: History, four: seq<(nat, Word)>)
    requires four == [(INTERRUPT_ENABLE, 0), (INTERRUPT_ACK, ALL_ONES),
                      (DMA_CONTROL, DMA_RESET_GLOBAL), (DMA_CONTROL, DMA_GLOBAL_ONLY)]
    ensures Writes(QuiesceHead(h)) == Writes(h) + four
  {
    var h1 := Then(Then(h, Write(INTERRUPT_ENABLE, 0)), Write(INTERRUPT_ACK, ALL_ONES));
    assert Writes(h1) == Writes(h) + four[..2];
    assert Writes(QuiesceHead(h)) == Writes(h1) + four[2..];
  }

  lemma QuiesceAppends(h: History)
    ensures Writes(QuiesceWrites(h)) == Writes(h) + QuiesceList()
    ensures |QuiesceList()| == 165
  {
    hide QuiesceHead, Clear;
    HeadAppends(h);
    ClearAppends(QuiesceHead(h), CLEARED_WORDS);
    ClearAppends(QuiesceHead(Boot), CLEARED_WORDS);
  }

  lemma LaunchAppends(dev: Device, h: History, dma: seq<Address>, index: nat -> Word)
    requires PageTable(dma) && Sees(dev, Prologue(Then(Then(h, ZeroPages), SetMaster)), dma, index, DSP_COUNT)
    ensures Writes(Launch(dev, h, dma)) == Writes(h) + StartWrites(dma, index)
  {
    hide Prologue, InitDsps, Sees, BringUpWrites;
    var h1 := Then(Then(h, ZeroPages), SetMaster);
    PrologueAppends(h1);
    BringUpAppends(dev, Prologue(h1), dma, index, DSP_COUNT);
    assert Writes(h1) == Writes(h);
  }

  /** The hardware indexes a bring-up reads, by register. */
  function Observed(dev: Device, h: History, dma: seq<Address>, n: nat): map<nat, Word>
    requires PageTable(dma) && n <= DSP_COUNT
  {
    if n == 0 then map[]
    else
      var g := InitDsps(dev, h, dma, n - 1);
      Observed(dev, h, dma, n - 1)
      [RingBase(n - 1, 0) + 0x28 := dev(g, RingBase(n - 1, 0) + 0x28)]
      [RingBase(n - 1, 1) + 0x28 := dev(InitRing(dev, g, dma, n - 1, 0), RingBase(n - 1, 1) + 0x28)]
  }

  function Lookup(m: map<nat, Word>): nat -> Word {
    offset => if offset in m then m[offset] else 0
  }

  /** A map extended by two new keys lies in whatever holds the extension. */
  lemma Extended(part: map<nat, Word>, first: nat, v: Word, second: nat, w: Word, m: map<nat, Word>)
    requires first !in part && second !in part && first != second
    requires part[first := v][second := w].Items <= m.Items
    ensures part.Items <= m.Items
    ensures first in m && m[first] == v && second in m && m[second] == w
  {
    var whole := part[first := v][second := w];
    forall item | item in part.Items
      ensures item in m.Items
    {
      assert whole[item.0] == item.1;
      assert (item.0, whole[item.0]) in whole.Items;
    }
    assert (first, whole[first]) in whole.Items && (second, whole[second]) in whole.Items;
  }

  /** Every bring-up sees the indexes it observed: the hypothesis of the trace
      theorems is met by every run, for its own indexes. */
  lemma {:induction false} SeesItsOwn(dev: Device, h: History, dma: seq<Address>, n: nat, m: map<nat, Word>)
    requires PageTable(dma) && n <= DSP_COUNT
    requires Observed(dev, h, dma, n).Items <= m.Items
    ensures Sees(dev, h, dma, Lookup(m), n)
    ensures forall offset | offset in Observed(dev, h, dma, n) :: offset < RingBase(n, 0)
  {
    hide InitRing;
    if n > 0 {
      var part, whole := Observed(dev, h, dma, n - 1), Observed(dev, h, dma, n);
      var first, second := RingBase(n - 1, 0) + 0x28, RingBase(n - 1, 1) + 0x28;
      SeesItsOwn(dev, h, dma, n - 1, part);
      Extended(part, first, whole[first], second, whole[second], m);
      SeesItsOwn(dev, h, dma, n - 1, m);
    }
  }

  /** The ring indexes a driver start would read, on a given device. */
  predicate StartSees(dev: Device, h: History, dma: seq<Address>, index: nat -> Word)
    requires PageTable(dma)
  {
    Sees(dev, Prologue(Then(Then(ColdCheck(dev, h).1, ZeroPages), SetMaster)), dma, index, DSP_COUNT)
  }

  /** A start that passes its precondition emits its 174 writes, and when its
      verdict fails, exactly the stop trace after them. */
  lemma DriverStartWrites(dev: Device, h: History, dma: seq<Address>, index: nat -> Word)
    requires PageTable(dma) && ColdCheck(dev, h).0 && StartSees(dev, h, dma, index)
    ensures |StartWrites(dma, index)| == 174 && |QuiesceList()| == 165
    ensures var r := Start(dev, h, dma, false);
            Writes(r.history) == Writes(h) + StartWrites(dma, index) + (if r.started then [] else QuiesceList())
  {
    ColdCheckKeeps(dev, h);
    var h1 := ColdCheck(dev, h).1;
    LaunchAppends(dev, h1, dma, index);
    var launched := Launch(dev, h1, dma);
    VerdictKeeps(dev, launched, dma);
    hide ColdCheck, StartSees, StartWrites, Launch, QuiesceWrites, QuiesceList, Verdict, State;
    QuiesceAppends(Verdict(dev, launched, dma).1);
    StartWritesCount(dma, index);
  }

  lemma DriverStopWrites(dev: Device, h: History)
    ensures Writes(Stop(dev, h, true).history) == Writes(h) + QuiesceList()
  {
    hide QuiesceWrites, QuiesceList, ColdCheck;
    QuiesceAppends(h);
    ColdCheckKeeps(dev, Quiesce(dev, h));
  }

  predicate ProbeSees(dev: Device, g: History, index: nat -> Word) {
    Sees(dev, Prologue(g), WindowPages(), index, DSP_COUNT)
  }

  lemma ProbeStartWrites(dev: Device, g: History, index: nat -> Word)
    requires ProbeSees(dev, g, index)
    ensures Writes(Startup(dev, g)) == Writes(g) + StartWrites(WindowPages(), index)
  {
    hide Prologue, InitDsps, ProbeDsps, Sees, BringUpWrites, WindowPages;
    SameBringUp(dev, Prologue(g), DSP_COUNT);
    PrologueAppends(g);
    BringUpAppends(dev, Prologue(g), WindowPages(), index, DSP_COUNT);
  }

  /** With the driver's pages placed where the probe maps its window, the two
      emit the same start and the same stop, write for write, whenever they see
      the same ring indexes, on whatever devices. */
  lemma DriverAndProbeWriteTheSame(
    driverDev: Device, h: History, probeDev: Device, g: History, index: nat -> Word)
    requires ColdCheck(driverDev, h).0 && StartSees(driverDev, h, WindowPages(), index)
    requires ProbeSees(probeDev, g, index)
    requires Start(driverDev, h, WindowPages(), false).started
    ensures |StartWrites(WindowPages(), index)| == 174 && |QuiesceList()| == 165
    ensures var r := Start(driverDev, h, WindowPages(), false).history;
            && Writes(r) == Writes(h) + StartWrites(WindowPages(), index)
            && Writes(Stop(driverDev, r, true).history) == Writes(r) + QuiesceList()
    ensures var p := Startup(probeDev, g);
            && Writes(p) == Writes(g) + StartWrites(WindowPages(), index)
            && Writes(Restored(probeDev, p).1) == Writes(p) + QuiesceList()
  {
    hide Start, Stop, Startup, StartWrites, QuiesceList, ColdCheck, StartSees, ProbeSees, WindowPages, Restored;
    DriverStartWrites(driverDev, h, WindowPages(), index);
    ProbeStartWrites(probeDev, g, index);
    DriverStopWrites(driverDev, Start(driverDev, h, WindowPages(), false).history);
    ProbeCleanupWrites(probeDev, Startup(probeDev, g));
  }

  lemma ProbeCleanupWrites(dev: Device, g: History)
    ensures Writes(Restored(dev, g).1) == Writes(g) + QuiesceList()
  {
    hide QuiesceWrites, QuiesceList;
    QuiesceAppends(g);
    PollKeeps(dev, QuiesceWrites(g), RingWords, CHECKED_WORDS);
  }

  /** A startup costs 174 writes and a cleanup 165, on every device. */
  lemma StartupCount(dev: Device, g: History)
    ensures |Writes(Startup(dev, g))| == |Writes(g)| + 174
    ensures |Writes(Restored(dev, g).1)| == |Writes(g)| + 165
  {
    hide WindowPages, Prologue, Startup, Restored, StartWrites, QuiesceList, Sees, Observed, InitDsps;
    var m := Observed(dev, Prologue(g), WindowPages(), DSP_COUNT);
    SeesItsOwn(dev, Prologue(g), WindowPages(), DSP_COUNT, m);
    ProbeStartWrites(dev, g, Lookup(m));
    StartWritesCount(WindowPages(), Lookup(m));
    QuiesceAppends(g);
    ProbeCleanupWrites(dev, g);
  }

  lemma StartWritesCount(dma: seq<Address>, index: nat -> Word)
    requires PageTable(dma)
    ensures |StartWrites(dma, index)| == 174
  {
    hide Prologue, BringUpWrites;
    PrologueAppends(Boot);
    BringUpCount(dma, index, DSP_COUNT);
  }

  // ---- reset isolation ----

  predicate ResetsDsp(value: Word, dsp: nat) {
    Bit(value, dsp + 9)
  }

  /** A DMA-control value that leaves every engine but `dsp` enabled and resets
      no other engine. */
  predicate Isolates(value: Word, dsp: nat) {
    && (forall other | 0 <= other < DSP_COUNT && other != dsp :: Enabled(value, other))
    && (forall other | 0 <= other < DSP_COUNT && other != dsp :: !ResetsDsp(value, other))
    && Bit(value, 0)
  }

  lemma PulseIsolates(dsp: nat)
    requires dsp < DSP_COUNT
    ensures Isolates(Pulse(dsp), dsp) && Isolates(Disabled(dsp), dsp) && Isolates(DMA_ALL_DSPS, dsp)
    ensures !Enabled(Pulse(dsp), dsp) && ResetsDsp(Pulse(dsp), dsp)
  {
    hide Bit, Pow2, Pulse, Disabled;
    SmallPow2();
    forall k: nat
      ensures Bit(Disabled(dsp), k) <==> k <= DSP_COUNT && k != dsp + 1
      ensures Bit(Pulse(dsp), k) <==> (k <= DSP_COUNT && k != dsp + 1) || k == dsp + 9
      ensures Bit(DMA_ALL_DSPS, k) <==> k <= DSP_COUNT
    {
      PulseBits(dsp, k);
      BitOnes(9, k);
    }
  }

  /** The writes of one reset: none, or the three of an isolated pulse. */
  function PulseWrites(dsp: nat): seq<(nat, Word)>
    requires dsp < DSP_COUNT
  {
    [(DMA_CONTROL, Pulse(dsp)), (DMA_CONTROL, Disabled(dsp)), (DMA_CONTROL, DMA_ALL_DSPS)]
  }

  /** Whatever the device reports, a reset past its checks writes exactly the
      pulse, the pause and 0x1ff; a refused one writes nothing. */
  lemma ResetWrites(dev: Device, h: History, started: bool, dsp: nat, flags: nat)
    ensures var r := Reset(dev, h, started, dsp, flags);
            && (r.report.None? ==> Writes(r.history) == Writes(h))
            && (r.report.Some? <==> started && dsp < DSP_COUNT && flags == 0 && dev(h, DMA_CONTROL) == DMA_ALL_DSPS)
            && (r.report.Some? ==> Writes(r.history) == Writes(h) + PulseWrites(dsp))
  {
    hide Pulse, Disabled, State, Bit, Pow2, ReadyOffset;
    if started && dsp < DSP_COUNT && flags == 0 {
      var h1 := Observe(dev, h, DMA_CONTROL);
      TwoWrites(h1, PulseWrites(dsp)[0], PulseWrites(dsp)[1]);
      var h2 := Then(Then(h1, Write(DMA_CONTROL, Pulse(dsp))), Write(DMA_CONTROL, Disabled(dsp)));
      var h3 := Observe(dev, Then(h2, Sleep), ReadyOffset(dsp));
      assert Writes(h3) == Writes(h2);
      var h4 := Then(h3, Write(DMA_CONTROL, DMA_ALL_DSPS));
      assert Writes(h4) == Writes(h) + PulseWrites(dsp);
      ObserveThrice(dev, h4, DMA_CONTROL, DMA_CONTROL, ReadyOffset(dsp));
    }
  }

  lemma ObserveThrice(dev: Device, h: History, a: nat, b: nat, c: nat)
    ensures Writes(Observe(dev, Observe(dev, Observe(dev, h, a), b), c)) == Writes(h)
  {
    assert Writes(Observe(dev, Observe(dev, h, a), b)) == Writes(h);
  }

  /** The history after a sequence of resets of a started transport. */
  function Resets(dev: Device, h: History, dsps: seq<nat>): History
    decreases dsps
  {
    if dsps == [] then h
    else Resets(dev, Reset(dev, h, true, dsps[0], 0).history, dsps[1..])
  }

  /** A run of isolated pulses of DSPs among `dsps`, each ended by 0x1ff. */
  ghost predicate IsolatedPulses(w: seq<(nat, Word)>, dsps: seq<nat>) {
    w == [] ||
    exists dsp: nat :: dsp in dsps && dsp < DSP_COUNT && PulsesFrom(w, dsps, dsp)
  }

  ghost predicate PulsesFrom(w: seq<(nat, Word)>, dsps: seq<nat>, dsp: nat)
    requires dsp < DSP_COUNT
    decreases |w|, 0
  {
    && |w| >= 3 && w[..3] == PulseWrites(dsp)
    && (forall i | 0 <= i < 3 :: w[i].0 == DMA_CONTROL && Isolates(w[i].1, dsp))
    && (w[3..] == [] || exists next: nat :: next in dsps && next < DSP_COUNT && PulsesFrom(w[3..], dsps, next))
  }

  /** Over any sequence of resets and any device answers, every DMA-control
      value written belongs to an isolated pulse that ends with all engines
      enabled. */
  lemma {:induction false} ResetsAreIsolated(dev: Device, h: History, dsps: seq<nat>)
    ensures Writes(h) <= Writes(Resets(dev, h, dsps))
    ensures IsolatedPulses(Writes(Resets(dev, h, dsps))[|Writes(h)|..], dsps)
    decreases dsps
  {
    hide Pulse, Disabled, Isolates, Reset, Writes, PulsesFrom, PulseWrites;
    if dsps != [] {
      var dsp := dsps[0];
      var r := Reset(dev, h, true, dsp, 0);
      ResetWrites(dev, h, true, dsp, 0);
      ResetsAreIsolated(dev, r.history, dsps[1..]);
      var rest := Writes(Resets(dev, h, dsps))[|Writes(r.history)|..];
      MorePulses(rest, dsps);
      if r.report.Some? {
        PulseBefore(rest, dsps, dsp);
        assert Writes(Resets(dev, h, dsps))[|Writes(h)|..] == PulseWrites(dsp) + rest;
      }
    }
  }

  lemma PulseBefore(rest: seq<(nat, Word)>, dsps: seq<nat>, dsp: nat)
    requires dsp in dsps && dsp < DSP_COUNT && IsolatedPulses(rest, dsps)
    ensures IsolatedPulses(PulseWrites(dsp) + rest, dsps)
  {
    hide Isolates, Pulse, Disabled;
    PulseIsolates(dsp);
    var w := PulseWrites(dsp) + rest;
    assert w[3..] == rest;
    assert PulsesFrom(w, dsps, dsp);
  }

  lemma MorePulses(w: seq<(nat, Word)>, dsps: seq<nat>)
    requires dsps != [] && IsolatedPulses(w, dsps[1..])
    ensures IsolatedPulses(w, dsps)
  {
    if w != [] {
      var dsp: nat :| dsp in dsps[1..] && dsp < DSP_COUNT && PulsesFrom(w, dsps[1..], dsp);
      MorePulsesFrom(w, dsps, dsp);
    }
  }

  lemma {:induction false} MorePulsesFrom(w: seq<(nat, Word)>, dsps: seq<nat>, dsp: nat)
    requires dsps != [] && dsp < DSP_COUNT && PulsesFrom(w, dsps[1..], dsp)
    ensures PulsesFrom(w, dsps, dsp)
    decreases |w|
  {
    hide Isolates;
    if w[3..] != [] {
      var next: nat :| next in dsps[1..] && next < DSP_COUNT && PulsesFrom(w[3..], dsps[1..], next);
      MorePulsesFrom(w[3..], dsps, next);
    }
  }

  /** After k passes the probe's mask is 2^(k+1) - 2, so it is 0x1fe exactly when
      all eight engines passed, and a full exercise costs 24 writes. */
  lemma {:induction false} PassMask(env: Environment, h: History, n: nat)
    requires n <= DSP_COUNT
    ensures var e := ExerciseLoop(env, h, n);
            && e.passes <= n && e.passMask == Pow2(e.passes + 1) - 2
            && (e.going <==> e.passes == n)
            && (e.going ==> e.allOk && |Writes(e.history)| == |Writes(h)| + 3 * n)
  {
    hide Exercise, Bit, Or;
    if n == 0 {
      SmallPow2();
    } else {
      PassMask(env, h, n - 1);
      var e := ExerciseLoop(env, h, n - 1);
      if e.going && !env.pending(e.history) {
        ExerciseCount(env.device, e.history, n - 1);
        assert Pow2(n) == 2 * Pow2(n - 1) && Pow2(n + 1) == 2 * Pow2(n);
        BitsBelow(e.passMask, n, n);
        OrClearBit(e.passMask, n);
      }
    }
  }

  lemma FullPass(env: Environment, h: History)
    ensures var e := ExerciseLoop(env, h, DSP_COUNT);
            && (e.passMask == 0x1fe <==> e.passes == DSP_COUNT)
            && (e.passMask == 0x1fe ==> e.allOk && |Writes(e.history)| == |Writes(h)| + 24)
  {
    hide ExerciseLoop;
    PassMask(env, h, DSP_COUNT);
    var e := ExerciseLoop(env, h, DSP_COUNT);
    SmallPow2();
    if e.passes < DSP_COUNT { Pow2Monotone(e.passes + 1, 8); }
    assert Pow2(9) == 2 * Pow2(8);
  }

  lemma ExerciseCount(dev: Device, h: History, dsp: nat)
    requires dsp < DSP_COUNT
    ensures var (ok, g) := Exercise(dev, h, dsp);
            && (ok ==> Writes(g) == Writes(h) + PulseWrites(dsp))
            && (!ok ==> Writes(g) == Writes(h) + PulseWrites(dsp) || Writes(g) == Writes(h) + PulseWrites(dsp)[..2])
  {
    hide Pulse, Disabled;
    var h1 := Then(Then(h, Write(DMA_CONTROL, Pulse(dsp))), Write(DMA_CONTROL, Disabled(dsp)));
    assert Writes(h1) == Writes(h) + PulseWrites(dsp)[..2];
    var h2 := Observe(dev, Then(h1, Sleep), DMA_CONTROL);
    assert Writes(h2) == Writes(h1);
    PollKeeps(dev, h2, ReadyWords, DSP_COUNT);
    var h3 := Then(Poll(dev, h2, ReadyWords, DSP_COUNT).1, Write(DMA_CONTROL, DMA_ALL_DSPS));
    hide Poll;
    assert PulseWrites(dsp)[..2] + [(DMA_CONTROL, DMA_ALL_DSPS)] == PulseWrites(dsp);
    var h4 := Observe(dev, h3, DMA_CONTROL);
    assert Writes(h4) == Writes(h3);
    PollKeeps(dev, h4, ReadyWords, DSP_COUNT);
  }
}
