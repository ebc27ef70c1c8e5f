/** The memory a loader prepares for the device: rings whose entries point back
    into the same memory, a response buffer, a header and the payload. */
module LoaderChain {
  import opened Common
  import Bits
  import Machine

  const TEST_IOVA: Address := Machine.TEST_IOVA
  const PAGE_WORDS: nat := 1024
  const RING_CAPACITY: nat := 1024
  const DSP_COUNT: nat := Machine.DSP_COUNT
  const RESPONSE_PAGE: nat := 64
  const HEADER_PAGE: nat := 65
  const PAYLOAD_FIRST_PAGE: nat := 66

  const CONNECT_COMMAND: Word := 0x00230002
  const CLOCK_COMMAND: Word := 0x00100002
  /** 0x00120000 with the extended flag 0x40000000. */
  const LOADER_COMMAND: Word := 0x40120000
  const LOADER_COMMAND_BASE: Word := 0x00120000
  const LOADER_RESPONSE_CLASS: Word := 0x80040000
  const CANARY: Word := 0xa5a5a5a5
  const DESCRIPTOR_FLAG: Word := 0x80000000

  type Memory = seq<Word>

  /** Pages taken by a payload of a number of dwords. */
  function PageCount(dwords: nat): (pages: nat)
    ensures dwords <= pages * PAGE_WORDS < dwords + PAGE_WORDS
  {
    (dwords + PAGE_WORDS - 1) / PAGE_WORDS
  }

  /** Dwords of the payload on one of its pages. */
  function OnPage(dwords: nat, page: nat): (n: nat)
    requires page * PAGE_WORDS <= dwords
    ensures n <= PAGE_WORDS
  {
    var remaining := dwords - page * PAGE_WORDS;
    if remaining > PAGE_WORDS then PAGE_WORDS else remaining
  }

  /** Word position of a ring entry; the four pages of a ring are consecutive. */
  function Entry(dsp: nat, ring: nat, index: nat): nat {
    (dsp * 8 + ring * 4) * PAGE_WORDS + index * 4
  }

  function Iova(page: nat): nat {
    TEST_IOVA + page * PAGE_WORDS * 4
  }

  // ---------- changes to the memory ----------

  function Put(m: Memory, at: nat, words: seq<Word>): (r: Memory)
    requires at + |words| <= |m|
    ensures |r| == |m|
  {
    m[..at] + words + m[at + |words|..]
  }

  /** Reading back what was put, and everything else unchanged. */
  lemma PutReads(m: Memory, at: nat, words: seq<Word>, v: nat, n: nat)
    requires at + |words| <= |m| && v + n <= |m|
    ensures Put(m, at, words)[at..at + |words|] == words
    ensures v + n <= at || at + |words| <= v ==> Put(m, at, words)[v..v + n] == m[v..v + n]
  {
    var r := Put(m, at, words);
    assert forall i :: v <= i < v + n && (i < at || at + |words| <= i) ==> r[i] == m[i];
  }

  function Descriptor(dwords: Word, iova: Address): (d: seq<Word>)
    requires dwords < DESCRIPTOR_FLAG
    ensures |d| == 4
  {
    FlagAdds(dwords);
    [Bits.Or(DESCRIPTOR_FLAG, dwords), 0, Low32(iova), High32(iova)]
  }

  lemma FlagAdds(dwords: Word)
    requires dwords < DESCRIPTOR_FLAG
    ensures Bits.Or(DESCRIPTOR_FLAG, dwords) == DESCRIPTOR_FLAG + dwords < WORD_LIMIT
  {
    hide Bits.Or, Bits.Pow2;
    Bits.HalfWordPowers();
    Bits.OrDisjoint(1, dwords, 31);
  }

  /** The first n connect commands. */
  function Connects(m: Memory, n: nat): (r: Memory)
    requires n <= DSP_COUNT && RESPONSE_PAGE * PAGE_WORDS <= |m|
    ensures |r| == |m|
  {
    if n == 0 then m else Put(Connects(m, n - 1), Entry(n - 1, 0, 0), [CONNECT_COMMAND, 1])
  }

  /** Payload descriptors for the first k pages. */
  function Chain(m: Memory, dwords: nat, k: nat): (r: Memory)
    requires RESPONSE_PAGE * PAGE_WORDS <= |m| && k <= PageCount(dwords) && k + 3 <= RING_CAPACITY
    ensures |r| == |m|
  {
    if k == 0 then m
    else
      Put(Chain(m, dwords, k - 1), Entry(0, 0, 3 + (k - 1)),
          Descriptor(OnPage(dwords, k - 1), Iova(PAYLOAD_FIRST_PAGE + (k - 1))))
  }

  /** Everything the rings say: connects, clock, response buffer, header, payload. */
  function Published(m: Memory, clock: Word, header: nat, dwords: nat, k: nat): (r: Memory)
    requires RESPONSE_PAGE * PAGE_WORDS <= |m| && header <= PAGE_WORDS
    requires k <= PageCount(dwords) && k + 3 <= RING_CAPACITY
    ensures |r| == |m|
  {
    var m1 := Put(Connects(m, DSP_COUNT), Entry(0, 0, 1), [CLOCK_COMMAND, clock]);
    var m2 := Put(m1, Entry(0, 1, 0), Descriptor(4, Iova(RESPONSE_PAGE)));
    var m3 := Put(m2, Entry(0, 0, 2), Descriptor(header, Iova(HEADER_PAGE)));
    Chain(m3, dwords, k)
  }

  // ---------- what the device reads ----------

  /** A descriptor as the device takes it apart: word position and length. */
  datatype Span = Span(at: nat, length: nat)

  function SpanAt(m: Memory, entry: nat): Option<Span>
    requires entry + 4 <= |m|
  {
    var address := Join32(m[entry + 2], m[entry + 3]);
    if m[entry] < DESCRIPTOR_FLAG || address < TEST_IOVA || (address - TEST_IOVA) % 4 != 0 then None
    else
      var s := Span((address - TEST_IOVA) / 4, m[entry] - DESCRIPTOR_FLAG);
      if s.at + s.length <= |m| then Some(s) else None
  }

  /** Walking the command ring of the first DSP from one entry up to another and
      joining what the entries refer to; none when one leaves the window. */
  function Gather(m: Memory, from: nat, to: nat): Option<seq<Word>>
    requires RESPONSE_PAGE * PAGE_WORDS <= |m| && from <= to <= RING_CAPACITY
    decreases RING_CAPACITY - from
  {
    if from == to then Some([])
    else
      match (SpanAt(m, Entry(0, 0, from)), Gather(m, from + 1, to))
      case (Some(s), Some(rest)) => Some(m[s.at..s.at + s.length] + rest)
      case _ => None
  }

  lemma ConnectFits(dsp: nat)
    requires dsp < DSP_COUNT
    ensures Entry(dsp, 0, 0) + 4 <= RESPONSE_PAGE * PAGE_WORDS
  {}

  lemma {:induction false} ConnectsLeave(m: Memory, n: nat, v: nat, k: nat)
    requires n <= DSP_COUNT && RESPONSE_PAGE * PAGE_WORDS <= |m| && v + k <= |m|
    requires forall dsp | 0 <= dsp < n :: v + k <= Entry(dsp, 0, 0) || Entry(dsp, 0, 0) + 2 <= v
    ensures Connects(m, n)[v..v + k] == m[v..v + k]
  {
    hide Put, Entry;
    if n > 0 {
      ConnectsLeave(m, n - 1, v, k);
      ConnectFits(n - 1);
      PutReads(Connects(m, n - 1), Entry(n - 1, 0, 0), [CONNECT_COMMAND, 1], v, k);
    }
  }

  function PayloadDescriptor(dwords: nat, page: nat): (d: seq<Word>)
    requires page < PageCount(dwords) && page + 3 < RING_CAPACITY
    ensures |d| == 4
  {
    Descriptor(OnPage(dwords, page), Iova(PAYLOAD_FIRST_PAGE + page))
  }

  lemma {:induction false} ChainReads(m: Memory, dwords: nat, k: nat, j: nat)
    requires RESPONSE_PAGE * PAGE_WORDS <= |m| && j < k <= PageCount(dwords) && k + 3 <= RING_CAPACITY
    ensures Chain(m, dwords, k)[Entry(0, 0, 3 + j)..Entry(0, 0, 3 + j) + 4] == PayloadDescriptor(dwords, j)
  {
    hide Put, Descriptor;
    PutReads(Chain(m, dwords, k - 1), Entry(0, 0, 3 + (k - 1)), PayloadDescriptor(dwords, k - 1),
             Entry(0, 0, 3 + j), 4);
    if j < k - 1 {
      ChainReads(m, dwords, k - 1, j);
    }
  }

  lemma {:induction false} ChainKeeps(m: Memory, dwords: nat, k: nat, v: nat, n: nat)
    requires RESPONSE_PAGE * PAGE_WORDS <= |m| && k <= PageCount(dwords) && k + 3 <= RING_CAPACITY
    requires v + n <= |m| && (v + n <= Entry(0, 0, 3) || Entry(0, 1, 0) <= v)
    ensures Chain(m, dwords, k)[v..v + n] == m[v..v + n]
  {
    hide Put, Descriptor;
    if k > 0 {
      ChainKeeps(m, dwords, k - 1, v, n);
      PutReads(Chain(m, dwords, k - 1), Entry(0, 0, 3 + (k - 1)), PayloadDescriptor(dwords, k - 1), v, n);
    }
  }

  /** Publishing touches no page but those of the rings. */
  lemma PublishedKeeps(m: Memory, clock: Word, header: nat, dwords: nat, k: nat, v: nat, n: nat)
    requires RESPONSE_PAGE * PAGE_WORDS <= |m| && header <= PAGE_WORDS
    requires k <= PageCount(dwords) && k + 3 <= RING_CAPACITY
    requires RESPONSE_PAGE * PAGE_WORDS <= v && v + n <= |m|
    ensures Published(m, clock, header, dwords, k)[v..v + n] == m[v..v + n]
  {
    hide Put, Descriptor, Chain, Connects;
    ConnectsLeave(m, DSP_COUNT, v, n);
    var m0 := Connects(m, DSP_COUNT);
    var m1 := Put(m0, Entry(0, 0, 1), [CLOCK_COMMAND, clock]);
    PutReads(m0, Entry(0, 0, 1), [CLOCK_COMMAND, clock], v, n);
    var m2 := Put(m1, Entry(0, 1, 0), Descriptor(4, Iova(RESPONSE_PAGE)));
    PutReads(m1, Entry(0, 1, 0), Descriptor(4, Iova(RESPONSE_PAGE)), v, n);
    var m3 := Put(m2, Entry(0, 0, 2), Descriptor(header, Iova(HEADER_PAGE)));
    PutReads(m2, Entry(0, 0, 2), Descriptor(header, Iova(HEADER_PAGE)), v, n);
    ChainKeeps(m3, dwords, k, v, n);
  }

  lemma {:induction false} ConnectsRead(m: Memory, n: nat, dsp: nat)
    requires dsp < n <= DSP_COUNT && RESPONSE_PAGE * PAGE_WORDS <= |m|
    ensures Entry(dsp, 0, 0) + 4 <= |m|
    ensures var r, e := Connects(m, n), Entry(dsp, 0, 0);
            r[e..e + 2] == [CONNECT_COMMAND, 1] && r[e + 2..e + 4] == m[e + 2..e + 4]
  {
    hide Put;
    var e, last, before := Entry(dsp, 0, 0), Entry(n - 1, 0, 0), Connects(m, n - 1);
    PutReads(before, last, [CONNECT_COMMAND, 1], e, 2);
    PutReads(before, last, [CONNECT_COMMAND, 1], e + 2, 2);
    if dsp < n - 1 {
      ConnectsRead(m, n - 1, dsp);
    } else {
      ConnectsLeave(m, n - 1, e + 2, 2);
    }
  }

  /** The first entry of every command ring is the connect command, and the second one
      of the first ring the clock; neither has a descriptor of its own. */
  lemma PublishedCommands(m: Memory, clock: Word, header: nat, dwords: nat, k: nat, dsp: nat)
    requires RESPONSE_PAGE * PAGE_WORDS <= |m| && header <= PAGE_WORDS && dsp < DSP_COUNT
    requires k <= PageCount(dwords) && k + 3 <= RING_CAPACITY
    ensures Entry(dsp, 0, 0) + 4 <= |m| && Entry(0, 0, 1) + 4 <= |m|
    ensures var r, e, c := Published(m, clock, header, dwords, k), Entry(dsp, 0, 0), Entry(0, 0, 1);
            && r[e..e + 4] == [0x00230002, 1] + m[e + 2..e + 4]
            && r[c..c + 4] == [0x00100002, clock] + m[c + 2..c + 4]
  {
    hide Put, Descriptor, Chain, Connects;
    var e, c := Entry(dsp, 0, 0), Entry(0, 0, 1);
    var m0 := Connects(m, DSP_COUNT);
    ConnectsRead(m, DSP_COUNT, dsp);
    ConnectsLeave(m, DSP_COUNT, c + 2, 2);
    var m1 := Put(m0, c, [CLOCK_COMMAND, clock]);
    PutReads(m0, c, [CLOCK_COMMAND, clock], e, 4);
    PutReads(m0, c, [CLOCK_COMMAND, clock], c + 2, 2);
    BehindClock(m1, header, dwords, k, e);
    BehindClock(m1, header, dwords, k, c);
    Halves(m0, e);
    Halves(m1, c);
  }

  lemma Halves(m: Memory, v: nat)
    requires v + 4 <= |m|
    ensures m[v..v + 4] == m[v..v + 2] + m[v + 2..v + 4]
  {}

  /** The commands a device finds in front of the descriptors. */
  predicate Commands(m: Memory, clock: Word) {
    && RESPONSE_PAGE * PAGE_WORDS <= |m|
    && m[Entry(0, 0, 1)] == 0x00100002 && m[Entry(0, 0, 1) + 1] == clock
    && forall dsp | 0 <= dsp < DSP_COUNT :: m[Entry(dsp, 0, 0)] == 0x00230002 && m[Entry(dsp, 0, 0) + 1] == 1
  }

  lemma CommandsPublished(m: Memory, clock: Word, header: nat, dwords: nat, k: nat)
    requires RESPONSE_PAGE * PAGE_WORDS <= |m| && header <= PAGE_WORDS
    requires k <= PageCount(dwords) && k + 3 <= RING_CAPACITY
    ensures Commands(Published(m, clock, header, dwords, k), clock)
  {
    hide Published;
    var r, c := Published(m, clock, header, dwords, k), Entry(0, 0, 1);
    forall dsp | 0 <= dsp < DSP_COUNT
      ensures r[Entry(dsp, 0, 0)] == 0x00230002 && r[Entry(dsp, 0, 0) + 1] == 1
    {
      var e := Entry(dsp, 0, 0);
      PublishedCommands(m, clock, header, dwords, k, dsp);
      assert r[e] == r[e..e + 4][0] && r[e + 1] == r[e..e + 4][1];
    }
    PublishedCommands(m, clock, header, dwords, k, 0);
    assert r[c] == r[c..c + 4][0] && r[c + 1] == r[c..c + 4][1];
  }

  /** The descriptors are stored behind the commands. */
  lemma BehindClock(m1: Memory, header: nat, dwords: nat, k: nat, v: nat)
    requires RESPONSE_PAGE * PAGE_WORDS <= |m1| && header <= PAGE_WORDS && v + 4 <= |m1|
    requires k <= PageCount(dwords) && k + 3 <= RING_CAPACITY
    requires v + 4 <= Entry(0, 0, 2) || Entry(0, 1, 1) <= v
    ensures var m2 := Put(m1, Entry(0, 1, 0), Descriptor(4, Iova(RESPONSE_PAGE)));
            var m3 := Put(m2, Entry(0, 0, 2), Descriptor(header, Iova(HEADER_PAGE)));
            Chain(m3, dwords, k)[v..v + 4] == m1[v..v + 4]
  {
    hide Put, Descriptor, Chain;
    var response, head := Descriptor(4, Iova(RESPONSE_PAGE)), Descriptor(header, Iova(HEADER_PAGE));
    PutReads(m1, Entry(0, 1, 0), response, v, 4);
    var m2 := Put(m1, Entry(0, 1, 0), response);
    PutReads(m2, Entry(0, 0, 2), head, v, 4);
    ChainKeeps(Put(m2, Entry(0, 0, 2), head), dwords, k, v, 4);
  }

  /** The entries of the rings that hold descriptors. */
  lemma PublishedEntries(m: Memory, clock: Word, header: nat, dwords: nat, k: nat)
    requires RESPONSE_PAGE * PAGE_WORDS <= |m| && header <= PAGE_WORDS
    requires k <= PageCount(dwords) && k + 3 <= RING_CAPACITY
    ensures var r := Published(m, clock, header, dwords, k);
            && r[Entry(0, 1, 0)..Entry(0, 1, 0) + 4] == Descriptor(4, Iova(RESPONSE_PAGE))
            && r[Entry(0, 0, 2)..Entry(0, 0, 2) + 4] == Descriptor(header, Iova(HEADER_PAGE))
            && forall j :: 0 <= j < k ==>
                 r[Entry(0, 0, 3 + j)..Entry(0, 0, 3 + j) + 4] == PayloadDescriptor(dwords, j)
  {
    hide Put, Descriptor, Chain, Connects, PayloadDescriptor;
    var m1 := Put(Connects(m, DSP_COUNT), Entry(0, 0, 1), [CLOCK_COMMAND, clock]);
    var response := Descriptor(4, Iova(RESPONSE_PAGE));
    var m2 := Put(m1, Entry(0, 1, 0), response);
    PutReads(m1, Entry(0, 1, 0), response, 0, 0);
    var head := Descriptor(header, Iova(HEADER_PAGE));
    var m3 := Put(m2, Entry(0, 0, 2), head);
    PutReads(m2, Entry(0, 0, 2), head, Entry(0, 1, 0), 4);
    ChainKeeps(m3, dwords, k, Entry(0, 1, 0), 4);
    ChainKeeps(m3, dwords, k, Entry(0, 0, 2), 4);
    forall j | 0 <= j < k
      ensures Chain(m3, dwords, k)[Entry(0, 0, 3 + j)..Entry(0, 0, 3 + j) + 4] == PayloadDescriptor(dwords, j)
    {
      ChainReads(m3, dwords, k, j);
    }
  }

  /** The device takes a descriptor apart into the page and length it was made of. */
  lemma SpanOfDescriptor(m: Memory, entry: nat, page: nat, dwords: Word)
    requires entry + 4 <= |m| && page < 0x10000 && dwords < DESCRIPTOR_FLAG
    requires m[entry..entry + 4] == Descriptor(dwords, Iova(page)) && page * PAGE_WORDS + dwords <= |m|
    ensures SpanAt(m, entry) == Some(Span(page * PAGE_WORDS, dwords))
  {
    hide Bits.Or, Low32, High32, Join32;
    var d := Descriptor(dwords, Iova(page));
    FlagAdds(dwords);
    AddressRoundTrip(Iova(page), Low32(Iova(page)), High32(Iova(page)));
    assert m[entry] == d[0] && m[entry + 2] == d[2] && m[entry + 3] == d[3];
  }

  /** The span of the i-th command entry: the header, then the payload pages. */
  function Expected(header: nat, dwords: nat, i: nat): Span
    requires 2 <= i && i - 3 < PageCount(dwords)
  {
    if i == 2 then Span(HEADER_PAGE * PAGE_WORDS, header)
    else Span((PAYLOAD_FIRST_PAGE + (i - 3)) * PAGE_WORDS, OnPage(dwords, i - 3))
  }

  /** The parameters of a framing: room for the header page and all payload pages
      named, and no more entries than the ring has. */
  predicate Framing(m: Memory, header: nat, dwords: nat, k: nat) {
    && header <= PAGE_WORDS && k <= PageCount(dwords) && k + 3 < RING_CAPACITY
    && (PAYLOAD_FIRST_PAGE + k) * PAGE_WORDS <= |m|
  }

  lemma PublishedSpans(m: Memory, clock: Word, header: nat, dwords: nat, k: nat, i: nat)
    requires Framing(m, header, dwords, k) && 2 <= i < 3 + k
    ensures SpanAt(Published(m, clock, header, dwords, k), Entry(0, 0, i)) == Some(Expected(header, dwords, i))
  {
    hide Published, Descriptor, SpanAt;
    var r := Published(m, clock, header, dwords, k);
    PublishedEntries(m, clock, header, dwords, k);
    if i == 2 {
      SpanOfDescriptor(r, Entry(0, 0, 2), HEADER_PAGE, header);
    } else {
      assert r[Entry(0, 0, 3 + (i - 3))..Entry(0, 0, 3 + (i - 3)) + 4] == PayloadDescriptor(dwords, i - 3);
      SpanOfDescriptor(r, Entry(0, 0, i), PAYLOAD_FIRST_PAGE + (i - 3), OnPage(dwords, i - 3));
    }
  }

  /** Every descriptor stays inside the mapped window and on one page, clear of the
      rings and of the response buffer; different ones never overlap. */
  lemma SpansApart(m: Memory, clock: Word, header: nat, dwords: nat, k: nat, i: nat, j: nat)
    requires Framing(m, header, dwords, k) && 2 <= i < j < 3 + k
    ensures var r := Published(m, clock, header, dwords, k);
            && SpanAt(r, Entry(0, 0, i)).Some? && SpanAt(r, Entry(0, 0, j)).Some?
            && var a, b := SpanAt(r, Entry(0, 0, i)).value, SpanAt(r, Entry(0, 0, j)).value;
               && (RESPONSE_PAGE + 1) * PAGE_WORDS <= a.at && a.at + a.length <= b.at
               && b.at + b.length <= |m|
               && a.at % PAGE_WORDS + a.length <= PAGE_WORDS && b.at % PAGE_WORDS + b.length <= PAGE_WORDS
  {
    hide Published, SpanAt;
    PublishedSpans(m, clock, header, dwords, k, i);
    PublishedSpans(m, clock, header, dwords, k, j);
  }

  /** How much of the payload the first k pages hold. */
  function Held(dwords: nat, k: nat): (n: nat)
    ensures n <= dwords
  {
    if k * PAGE_WORDS <= dwords then k * PAGE_WORDS else dwords
  }

  lemma GatherStep(m: Memory, from: nat, until: nat)
    requires RESPONSE_PAGE * PAGE_WORDS <= |m| && from <= until <= RING_CAPACITY
    ensures from == until ==> Gather(m, from, until) == Some([])
    ensures from < until && SpanAt(m, Entry(0, 0, from)).Some? && Gather(m, from + 1, until).Some? ==>
              var s := SpanAt(m, Entry(0, 0, from)).value;
              Gather(m, from, until) == Some(m[s.at..s.at + s.length] + Gather(m, from + 1, until).value)
  {}

  lemma {:induction false} GatherPages(m: Memory, clock: Word, header: nat, dwords: nat, k: nat, j: nat)
    requires Framing(m, header, dwords, k) && j <= k
    ensures var p := PAYLOAD_FIRST_PAGE * PAGE_WORDS;
            Held(dwords, j) <= Held(dwords, k) && p + Held(dwords, k) <= |m| &&
            Gather(Published(m, clock, header, dwords, k), 3 + j, 3 + k)
            == Some(m[p + Held(dwords, j)..p + Held(dwords, k)])
    decreases k - j
  {
    hide Published, SpanAt, Gather;
    if j < k {
      var p := PAYLOAD_FIRST_PAGE * PAGE_WORDS;
      var r, s := Published(m, clock, header, dwords, k), Expected(header, dwords, 3 + j);
      PublishedSpans(m, clock, header, dwords, k, 3 + j);
      PublishedKeeps(m, clock, header, dwords, k, s.at, s.length);
      GatherPages(m, clock, header, dwords, k, j + 1);
      var a, b, c := p + Held(dwords, j), p + Held(dwords, j + 1), p + Held(dwords, k);
      assert s.at == a && s.at + s.length == b;
      GatherStep(r, 3 + j, 3 + k);
      assert m[a..b] + m[b..c] == m[a..c];
    } else {
      GatherStep(Published(m, clock, header, dwords, k), 3 + j, 3 + k);
      var c := PAYLOAD_FIRST_PAGE * PAGE_WORDS + Held(dwords, k);
      assert m[c..c] == [];
    }
  }

  /** What the device gathers from the published entries: the header words, then
      the payload the named pages hold, nothing else. */
  lemma GatherTheorem(m: Memory, clock: Word, header: nat, dwords: nat, k: nat)
    requires Framing(m, header, dwords, k)
    ensures var h, p := HEADER_PAGE * PAGE_WORDS, PAYLOAD_FIRST_PAGE * PAGE_WORDS;
            p + Held(dwords, k) <= |m| &&
            Gather(Published(m, clock, header, dwords, k), 2, 3 + k)
            == Some(m[h..h + header] + m[p..p + Held(dwords, k)])
  {
    hide Published, SpanAt, Gather;
    GatherStep(Published(m, clock, header, dwords, k), 2, 3 + k);
    GatherPages(m, clock, header, dwords, k, 0);
    PublishedSpans(m, clock, header, dwords, k, 2);
    PublishedKeeps(m, clock, header, dwords, k, HEADER_PAGE * PAGE_WORDS, header);
  }

  lemma ResponseSpan(m: Memory, clock: Word, header: nat, dwords: nat, k: nat)
    requires Framing(m, header, dwords, k)
    ensures SpanAt(Published(m, clock, header, dwords, k), Entry(0, 1, 0))
            == Some(Span(RESPONSE_PAGE * PAGE_WORDS, 4))
  {
    hide Published, Descriptor, SpanAt;
    PublishedEntries(m, clock, header, dwords, k);
    SpanOfDescriptor(Published(m, clock, header, dwords, k), Entry(0, 1, 0), RESPONSE_PAGE, 4);
  }

  /** Memories that differ in the response words at most. */
  predicate DiffersInResponse(m: Memory, n: Memory) {
    && |m| == |n|
    && forall i | 0 <= i < |m| && !(RESPONSE_PAGE * PAGE_WORDS <= i < RESPONSE_PAGE * PAGE_WORDS + 4) ::
         m[i] == n[i]
  }

  /** The entries between two positions refer to memory behind the response page. */
  predicate BehindResponse(m: Memory, from: nat, until: nat)
    requires RESPONSE_PAGE * PAGE_WORDS <= |m| && until <= RING_CAPACITY
  {
    forall i | from <= i < until :: SpanBehindResponse(m, i)
  }

  predicate SpanBehindResponse(m: Memory, i: nat)
    requires RESPONSE_PAGE * PAGE_WORDS <= |m| && i < RING_CAPACITY
  {
    SpanAt(m, Entry(0, 0, i)).Some? && SpanAt(m, Entry(0, 0, i)).value.at >= HEADER_PAGE * PAGE_WORDS
  }

  lemma SameSpan(m: Memory, n: Memory, i: nat)
    requires RESPONSE_PAGE * PAGE_WORDS <= |m| && i < RING_CAPACITY && DiffersInResponse(m, n)
    requires SpanBehindResponse(m, i)
    ensures SpanAt(n, Entry(0, 0, i)) == SpanAt(m, Entry(0, 0, i))
    ensures var s := SpanAt(m, Entry(0, 0, i)).value; n[s.at..s.at + s.length] == m[s.at..s.at + s.length]
  {
    hide Join32;
    var e := Entry(0, 0, i);
    assert e + 4 <= RESPONSE_PAGE * PAGE_WORDS;
    assert n[e] == m[e] && n[e + 2] == m[e + 2] && n[e + 3] == m[e + 3];
  }

  /** What is gathered does not depend on the response. */
  lemma {:induction false} GatherIgnoresResponse(m: Memory, n: Memory, from: nat, until: nat)
    requires RESPONSE_PAGE * PAGE_WORDS <= |m| && from <= until <= RING_CAPACITY && DiffersInResponse(m, n)
    requires BehindResponse(m, from, until)
    ensures Gather(n, from, until) == Gather(m, from, until)
    decreases until - from
  {
    hide SpanAt, DiffersInResponse, SpanBehindResponse;
    if from < until {
      assert SpanBehindResponse(m, from);
      SameSpan(m, n, from);
      GatherIgnoresResponse(m, n, from + 1, until);
    }
  }

  lemma PublishedBehindResponse(m: Memory, clock: Word, header: nat, dwords: nat, k: nat)
    requires Framing(m, header, dwords, k)
    ensures BehindResponse(Published(m, clock, header, dwords, k), 2, 3 + k)
  {
    hide Published, SpanAt;
    forall i | 2 <= i < 3 + k
      ensures SpanBehindResponse(Published(m, clock, header, dwords, k), i)
    {
      PublishedSpans(m, clock, header, dwords, k, i);
    }
  }
}
