/** The reads of a history, and the expectations a program has of them. A device can
    answer as it likes; what a program concludes is stated here by the reads it made,
    register by register and value by value. */
module Conversation {
  import opened Common
  import opened Machine
  import opened TransportSpec
  import opened TransportSafety

  /** Every read of a history with the value it returned, in order. */
  function Reads(h: History): seq<(nat, Word)> {
    match h
    case Boot => []
    case Then(past, Read(offset, value)) => Reads(past) + [(offset, value)]
    case Then(past, _) => Reads(past)
  }

  /** The reads made between two moments. */
  function Since(before: History, after: History): seq<(nat, Word)> {
    if |Reads(before)| <= |Reads(after)| then Reads(after)[|Reads(before)|..] else []
  }

  /** What is expected of one read. */
  datatype Test = Equal(offset: nat, value: Word) | Odd(offset: nat) | Any(offset: nat)

  predicate Meets(read: (nat, Word), t: Test) {
    && read.0 == t.offset
    && match t
       case Equal(_, value) => read.1 == value
       case Odd(_) => read.1 % 2 == 1
       case Any(_) => true
  }

  /** No read missed its expectation so far. */
  predicate Follows(answers: seq<(nat, Word)>, tests: seq<Test>) {
    |answers| <= |tests| && forall i | 0 <= i < |answers| :: Meets(answers[i], tests[i])
  }

  /** Exactly the expected reads were made, and each met its expectation. */
  predicate Passed(answers: seq<(nat, Word)>, tests: seq<Test>) {
    |answers| == |tests| && Follows(answers, tests)
  }

  /** The first reads were exactly the expected ones, and each met its expectation. */
  predicate Begins(answers: seq<(nat, Word)>, tests: seq<Test>) {
    |answers| >= |tests| && Passed(answers[..|tests|], tests)
  }

  // ---------- the expectations of the programs ----------

  /** The first n ring words are zero, sixteen of each ring. */
  function ZeroTests(n: nat): (t: seq<Test>)
    ensures |t| == n
  {
    if n == 0 then []
    else ZeroTests(n - 1) + [Equal(RingBase((n - 1) / 32, (n - 1) / 16 % 2) + (n - 1) % 16 * 4, 0)]
  }

  /** The first n DSPs are ready. */
  function ReadyTests(n: nat): (t: seq<Test>)
    ensures |t| == n
  {
    if n == 0 then [] else ReadyTests(n - 1) + [Odd(ReadyOffset(n - 1))]
  }

  /** The first n register pairs hold the two halves of their page addresses. */
  function PageTests(dma: seq<Address>, n: nat): (t: seq<Test>)
    requires n <= |dma|
    ensures |t| == 2 * n
  {
    if n == 0 then []
    else
      var register := PageRegister((n - 1) / 8, (n - 1) / 4 % 2, (n - 1) % 4);
      PageTests(dma, n - 1) + [Equal(register, Low32(dma[n - 1])), Equal(register + 4, High32(dma[n - 1]))]
  }

  /** The hardware indexes of both rings of the first n DSPs, whatever they are. */
  function IndexTests(n: nat): (t: seq<Test>)
    ensures |t| == 2 * n
  {
    if n == 0 then []
    else IndexTests(n - 1) + [Any(RingBase(n - 1, 0) + 0x28), Any(RingBase(n - 1, 1) + 0x28)]
  }

  const COLD_READS: nat := 268

  function ColdTests(): (t: seq<Test>)
    ensures |t| == COLD_READS
  {
    [Equal(0x2200, 0x0001fe00), Equal(0x2204, 0), Equal(0x2218, 0xa012dc0d), Equal(0x2234, 0x00300811)]
    + ZeroTests(256) + ReadyTests(8)
  }

  // ---------- a program that asks ----------

  /** Between two moments a program asked in order, at most what it was going to. Its
      answer is whether every read met its expectation, and with a favourable answer
      all of them were made. */
  ghost predicate Asks(h: History, g: History, ok: bool, tests: seq<Test>) {
    && Reads(h) <= Reads(g) && |Since(h, g)| <= |tests|
    && (ok <==> Follows(Since(h, g), tests)) && (ok ==> Passed(Since(h, g), tests))
  }

  lemma SinceJoins(h: History, g: History, k: History)
    requires Reads(h) <= Reads(g) <= Reads(k)
    ensures Since(h, k) == Since(h, g) + Since(g, k) && Reads(h) <= Reads(k)
  {
    hide Reads;
  }

  lemma AsksNothing(h: History, g: History)
    requires Reads(g) == Reads(h)
    ensures Asks(h, g, true, [])
  {}

  lemma AsksOne(dev: Device, h: History, t: Test)
    ensures Asks(h, Observe(dev, h, t.offset), Meets((t.offset, dev(h, t.offset)), t), [t])
  {
    var answers, tests := [(t.offset, dev(h, t.offset))], [t];
    assert Since(h, Observe(dev, h, t.offset)) == answers;
    assert Meets(answers[0], tests[0]) <==> Follows(answers, tests);
  }

  /** One conversation behind another. */
  lemma AsksBoth(h: History, g: History, k: History, first: bool, second: bool, t: seq<Test>, u: seq<Test>)
    requires Asks(h, g, first, t) && Asks(g, k, second, u)
    ensures Asks(h, k, first && second, t + u)
  {
    hide Reads, Since, Follows;
    SinceJoins(h, g, k);
    FollowsJoins(Since(h, g), Since(g, k), t, u);
  }

  lemma FollowsJoins(a: seq<(nat, Word)>, b: seq<(nat, Word)>, t: seq<Test>, u: seq<Test>)
    requires |a| <= |t| && |b| <= |u|
    ensures Follows(a + b, t + u) ==> Follows(a, t)
    ensures |a| == |t| ==> (Follows(a + b, t + u) <==> Follows(a, t) && Follows(b, u))
  {
    var s, v := a + b, t + u;
    if Follows(s, v) {
      forall i | 0 <= i < |a|
        ensures Meets(a[i], t[i])
      {
        assert s[i] == a[i] && v[i] == t[i];
      }
      if |a| == |t| {
        forall i | 0 <= i < |b|
          ensures Meets(b[i], u[i])
        {
          assert s[|a| + i] == b[i] && v[|a| + i] == u[i];
        }
      }
    }
  }

  /** A conversation that stopped early. */
  lemma AsksStops(h: History, g: History, t: seq<Test>, u: seq<Test>)
    requires Asks(h, g, false, t)
    ensures Asks(h, g, false, t + u)
  {
    hide Reads, Since, Follows;
    var a := Since(h, g);
    FollowsJoins(a, [], t, u);
    assert a + [] == a;
  }

  /** What reads nothing adds nothing to a conversation. */
  lemma Silently(h: History, g: History, k: History, ok: bool, t: seq<Test>)
    requires Asks(h, g, ok, t) && Reads(k) == Reads(g)
    ensures Asks(h, k, ok, t)
  {}

  lemma AsksMeans(h: History, g: History, ok: bool, t: seq<Test>)
    requires Asks(h, g, ok, t)
    ensures ok <==> Passed(Since(h, g), t)
    ensures |Since(h, g)| <= |t| && Reads(h) <= Reads(g)
  {}

  /** A conversation that goes on only if its first part was met. */
  lemma AsksThen(h: History, g: History, k: History, first: bool, second: bool, t: seq<Test>, u: seq<Test>)
    requires Asks(h, g, first, t) && (first ==> Asks(g, k, second, u))
    ensures Asks(h, if first then k else g, first && second, t + u)
  {
    hide Asks;
    if first {
      AsksBoth(h, g, k, true, second, t, u);
    } else {
      AsksStops(h, g, t, u);
    }
  }

  // ---------- the checks ----------

  lemma {:induction false} ZeroAsks(dev: Device, h: History, n: nat)
    ensures var (ok, g) := Poll(dev, h, RingWords, n); Asks(h, g, ok, ZeroTests(n))
  {
    hide Asks, RingBase;
    if n == 0 {
      AsksNothing(h, h);
    } else {
      ZeroAsks(dev, h, n - 1);
      var (ok, g) := Poll(dev, h, RingWords, n - 1);
      var t := Equal(RingBase((n - 1) / 32, (n - 1) / 16 % 2) + (n - 1) % 16 * 4, 0);
      if ok {
        AsksOne(dev, g, t);
        AsksBoth(h, g, Observe(dev, g, t.offset), true, dev(g, t.offset) == 0, ZeroTests(n - 1), [t]);
      } else {
        AsksStops(h, g, ZeroTests(n - 1), [t]);
      }
    }
  }

  lemma {:induction false} ReadyAsks(dev: Device, h: History, n: nat)
    ensures var (ok, g) := Poll(dev, h, ReadyWords, n); Asks(h, g, ok, ReadyTests(n))
  {
    hide Asks, ReadyOffset;
    if n == 0 {
      AsksNothing(h, h);
    } else {
      ReadyAsks(dev, h, n - 1);
      var (ok, g) := Poll(dev, h, ReadyWords, n - 1);
      var t := Odd(ReadyOffset(n - 1));
      if ok {
        AsksOne(dev, g, t);
        AsksBoth(h, g, Observe(dev, g, t.offset), true, dev(g, t.offset) % 2 == 1, ReadyTests(n - 1), [t]);
      } else {
        AsksStops(h, g, ReadyTests(n - 1), [t]);
      }
    }
  }

  /** Reading a register pair and comparing the address it makes. */
  lemma PairAsks(dev: Device, h: History, register: nat, address: Address)
    ensures var g := Observe(dev, h, register);
            Asks(h, Observe(dev, g, register + 4), Join32(dev(h, register), dev(g, register + 4)) == address,
                 [Equal(register, Low32(address)), Equal(register + 4, High32(address))])
  {
    var g := Observe(dev, h, register);
    var low, high := Equal(register, Low32(address)), Equal(register + 4, High32(address));
    AddressRoundTrip(address, dev(h, register), dev(g, register + 4));
    AsksOne(dev, h, low);
    AsksOne(dev, g, high);
    hide Asks, Low32, High32, Join32;
    AsksBoth(h, g, Observe(dev, g, register + 4), dev(h, register) == Low32(address),
             dev(g, register + 4) == High32(address), [low], [high]);
    assert [low] + [high] == [low, high];
  }

  lemma {:induction false} PagesAsk(dev: Device, h: History, dma: seq<Address>, n: nat)
    requires n <= |dma|
    ensures var (ok, g) := Poll(dev, h, Descriptors(dma), n); Asks(h, g, ok, PageTests(dma, n))
  {
    hide Asks, PageRegister, Low32, High32, Join32;
    if n == 0 {
      AsksNothing(h, h);
    } else {
      PagesAsk(dev, h, dma, n - 1);
      var (ok, g) := Poll(dev, h, Descriptors(dma), n - 1);
      var register := PageRegister((n - 1) / 8, (n - 1) / 4 % 2, (n - 1) % 4);
      var pair := [Equal(register, Low32(dma[n - 1])), Equal(register + 4, High32(dma[n - 1]))];
      if ok {
        PairAsks(dev, g, register, dma[n - 1]);
        var (same, k) := Inspect(dev, g, Descriptors(dma), n - 1);
        AsksBoth(h, g, k, true, same, PageTests(dma, n - 1), pair);
      } else {
        AsksStops(h, g, PageTests(dma, n - 1), pair);
      }
    }
  }

  /** A value compared, then the rest of a check if it was the expected one. */
  lemma ExpectAsks(dev: Device, h: History, offset: nat, want: Word)
    ensures var (ok, g) := Expect(dev, h, offset, want); Asks(h, g, ok, [Equal(offset, want)])
  {
    AsksOne(dev, h, Equal(offset, want));
  }

  /** The precondition passes exactly when every read it can make was made and gave
      the cold value. */
  lemma ColdAsks(dev: Device, h: History)
    ensures var (ok, g) := ColdCheck(dev, h); Asks(h, g, ok, ColdTests())
  {
    hide Asks, Poll, ZeroTests, ReadyTests;
    var (control, h1) := Expect(dev, h, DMA_CONTROL, DMA_COLD_RESET);
    var (quiet, h2) := Expect(dev, h1, INTERRUPT_ENABLE, 0);
    var (revision, h3) := Expect(dev, h2, FPGA_REVISION, EXPECTED_FPGA_REVISION);
    var (capable, h4) := Expect(dev, h3, EXTENDED_CAPABILITIES, EXPECTED_CAPABILITIES);
    var (empty, h5) := Poll(dev, h4, RingWords, CHECKED_WORDS);
    var (ready, h6) := Poll(dev, h5, ReadyWords, DSP_COUNT);
    ZeroAsks(dev, h4, CHECKED_WORDS);
    ReadyAsks(dev, h5, DSP_COUNT);
    var r5 := ReadyTests(8);
    AsksThen(h4, h5, h6, empty, ready, ZeroTests(256), r5);
    var (e4, r4) := (if empty then h6 else h5, ZeroTests(256) + r5);
    ExpectAsks(dev, h3, EXTENDED_CAPABILITIES, EXPECTED_CAPABILITIES);
    AsksThen(h3, h4, e4, capable, empty && ready, [Equal(0x2234, 0x00300811)], r4);
    var (e3, r3) := (if capable then e4 else h4, [Equal(0x2234, 0x00300811)] + r4);
    ExpectAsks(dev, h2, FPGA_REVISION, EXPECTED_FPGA_REVISION);
    AsksThen(h2, h3, e3, revision, capable && empty && ready, [Equal(0x2218, 0xa012dc0d)], r3);
    var (e2, r2) := (if revision then e3 else h3, [Equal(0x2218, 0xa012dc0d)] + r3);
    ExpectAsks(dev, h1, INTERRUPT_ENABLE, 0);
    AsksThen(h1, h2, e2, quiet, revision && capable && empty && ready, [Equal(0x2204, 0)], r2);
    var (e1, r1) := (if quiet then e2 else h2, [Equal(0x2204, 0)] + r2);
    ExpectAsks(dev, h, DMA_CONTROL, DMA_COLD_RESET);
    AsksThen(h, h1, e1, control, quiet && revision && capable && empty && ready, [Equal(0x2200, 0x0001fe00)], r1);
    assert [Equal(0x2200, 0x0001fe00)] + r1 == ColdTests();
  }

  // ---------- parts of a history ----------

  /** The moment right after the last occurrence of an event. */
  function Until(h: History, e: Event): History {
    match h
    case Boot => Boot
    case Then(past, event) => if event == e then h else Until(past, e)
  }

  lemma FromBoot(h: History)
    ensures Since(Boot, h) == Reads(h)
  {}

  lemma BootReads()
    ensures Reads(Boot) == []
  {}

  lemma MissedStays(a: seq<(nat, Word)>, b: seq<(nat, Word)>, t: seq<Test>)
    requires a <= b
    ensures Follows(b, t) ==> Follows(a, t)
  {
    assert forall i | 0 <= i < |a| :: a[i] == b[i];
  }

  lemma {:induction false} PrefixReads(p: History, h: History)
    requires Prefix(p, h)
    ensures Reads(p) <= Reads(h)
  {
    if p != h {
      PrefixReads(p, h.past);
    }
  }

  /** Whether the first conversation of a run was met shows in the reads of the run. */
  lemma GateShows(g: History, run: History, passed: bool, t: seq<Test>)
    requires Asks(Boot, g, passed, t) && Reads(g) <= Reads(run)
    ensures passed <==> Begins(Reads(run), t)
  {
    hide Reads, Follows;
    FromBoot(g);
    var a, b := Reads(g), Reads(run);
    if passed {
      assert b[..|t|] == a;
    } else if |b| >= |t| {
      MissedStays(a, b[..|t|], t);
    }
  }
}
