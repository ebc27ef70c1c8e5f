/** The loaders' preparation of their memory, as it is written: pages filled,
    buffers copied and descriptors stored in place. */
module LoaderMemory {
  import opened Common
  import opened Bytes
  import Bits
  import opened LoaderChain

  function Repeat(w: Word, n: nat): (s: seq<Word>)
    ensures |s| == n
  {
    seq(n, _ => w)
  }

  // ---------- stores ----------

  method Fill(memory: array<Word>, start: nat, n: nat, w: Word)
    requires start + n <= memory.Length
    modifies memory
    ensures memory[..] == Put(old(memory[..]), start, Repeat(w, n))
  {
    ghost var before := memory[..];
    for i := 0 to n
      invariant memory[..] == Put(before, start, Repeat(w, i))
    {
      memory[start + i] := w;
    }
  }

  method Copy(memory: array<Word>, start: nat, words: seq<Word>)
    requires start + |words| <= memory.Length
    modifies memory
    ensures memory[..] == Put(old(memory[..]), start, words)
  {
    ghost var before := memory[..];
    for i := 0 to |words|
      invariant memory[..] == Put(before, start, words[..i])
    {
      memory[start + i] := words[i];
    }
    assert words[..|words|] == words;
  }

  method SetDescriptor(memory: array<Word>, entry: nat, dwords: Word, iova: Address)
    requires entry + 4 <= memory.Length && dwords < DESCRIPTOR_FLAG
    modifies memory
    ensures memory[..] == Put(old(memory[..]), entry, Descriptor(dwords, iova))
  {
    hide Bits.Or, Low32, High32;
    FlagAdds(dwords);
    ghost var before := memory[..];
    memory[entry] := Bits.Or(DESCRIPTOR_FLAG, dwords);
    memory[entry + 1] := 0;
    memory[entry + 2] := Low32(iova);
    memory[entry + 3] := High32(iova);
    assert memory[..] == before[..entry] + Descriptor(dwords, iova) + before[entry + 4..];
  }

  method SetCommand(memory: array<Word>, entry: nat, first: Word, second: Word)
    requires entry + 2 <= memory.Length
    modifies memory
    ensures memory[..] == Put(old(memory[..]), entry, [first, second])
  {
    memory[entry] := first;
    memory[entry + 1] := second;
  }

  /** Fills the rings: connects, clock, response buffer, header, payload pages. */
  method Publish(memory: array<Word>, clock: Word, header: nat, dwords: nat, pages: nat)
    requires RESPONSE_PAGE * PAGE_WORDS <= memory.Length && header <= PAGE_WORDS
    requires pages <= PageCount(dwords) && pages + 3 <= RING_CAPACITY
    modifies memory
    ensures memory[..] == Published(old(memory[..]), clock, header, dwords, pages)
  {
    hide Put, Descriptor;
    ghost var m := memory[..];
    for dsp := 0 to DSP_COUNT
      invariant memory[..] == Connects(m, dsp)
    {
      SetCommand(memory, Entry(dsp, 0, 0), CONNECT_COMMAND, 1);
    }
    SetCommand(memory, Entry(0, 0, 1), CLOCK_COMMAND, clock);
    SetDescriptor(memory, Entry(0, 1, 0), 4, Iova(RESPONSE_PAGE));
    SetDescriptor(memory, Entry(0, 0, 2), header, Iova(HEADER_PAGE));
    ghost var m3 := memory[..];
    for page := 0 to pages
      invariant memory[..] == Chain(m3, dwords, page)
    {
      var remaining := dwords - page * PAGE_WORDS;
      SetDescriptor(memory, Entry(0, 0, 3 + page), if remaining > PAGE_WORDS then PAGE_WORDS else remaining,
                    Iova(PAYLOAD_FIRST_PAGE + page));
    }
  }

  // ---------- the runtime loader ----------

  /** A header and a payload where the framing wants them, and an untouched
      response buffer. */
  predicate Filled(m: Memory, header: seq<Word>, payload: seq<Word>) {
    var r, h, p := RESPONSE_PAGE * PAGE_WORDS, HEADER_PAGE * PAGE_WORDS, PAYLOAD_FIRST_PAGE * PAGE_WORDS;
    && |header| <= PAGE_WORDS && p + |payload| <= |m|
    && m[h..h + |header|] == header && m[p..p + |payload|] == payload && m[r..r + 1] == [CANARY]
  }

  /** Publishing a filled memory: the device gathers header and payload, answers
      into the response buffer, and that buffer is still untouched. */
  lemma PublishFilled(m: Memory, clock: Word, header: seq<Word>, payload: seq<Word>, k: nat)
    requires Filled(m, header, payload) && Framing(m, |header|, |payload|, k)
    ensures var r := Published(m, clock, |header|, |payload|, k);
            && Gather(r, 2, 3 + k) == Some(header + payload[..Held(|payload|, k)])
            && SpanAt(r, Entry(0, 1, 0)) == Some(Span(RESPONSE_PAGE * PAGE_WORDS, 4))
            && r[RESPONSE_PAGE * PAGE_WORDS] == CANARY
            && BehindResponse(r, 2, 3 + k) && Commands(r, clock)
  {
    hide Published, Gather, SpanAt, BehindResponse, Commands;
    CommandsPublished(m, clock, |header|, |payload|, k);
    PublishedBehindResponse(m, clock, |header|, |payload|, k);
    var p, n, at := PAYLOAD_FIRST_PAGE * PAGE_WORDS, Held(|payload|, k), RESPONSE_PAGE * PAGE_WORDS;
    GatherTheorem(m, clock, |header|, |payload|, k);
    SubSlice(m, p, p + |payload|, 0, n);
    ResponseSpan(m, clock, |header|, |payload|, k);
    PublishedKeeps(m, clock, |header|, |payload|, k, at, 1);
    var r := Published(m, clock, |header|, |payload|, k);
    assert r[at..at + 1] == [CANARY] && r[at] == r[at..at + 1][0];
  }

  /** Stores outside the response buffer leave it alone, and the header and the
      payload do not overlap. */
  lemma FilledBy(m: Memory, header: seq<Word>, payload: seq<Word>)
    requires PAYLOAD_FIRST_PAGE * PAGE_WORDS + |payload| <= |m| && |header| <= PAGE_WORDS
    requires m[RESPONSE_PAGE * PAGE_WORDS..RESPONSE_PAGE * PAGE_WORDS + 1] == [CANARY]
    ensures var stored := Put(Put(m, PAYLOAD_FIRST_PAGE * PAGE_WORDS, payload), HEADER_PAGE * PAGE_WORDS, header);
            Filled(stored, header, payload)
  {
    hide Put;
    var r, h, p := RESPONSE_PAGE * PAGE_WORDS, HEADER_PAGE * PAGE_WORDS, PAYLOAD_FIRST_PAGE * PAGE_WORDS;
    var m1 := Put(m, p, payload);
    PutReads(m, p, payload, r, 1);
    PutReads(m1, h, header, r, 1);
    PutReads(m1, h, header, p, |payload|);
  }

  /** The pages behind the rings start out as canaries, but for the payload pages. */
  lemma Untouched(m: Memory, canaries: nat, pages: nat)
    requires 1 <= canaries <= 3 * PAGE_WORDS && RESPONSE_PAGE * PAGE_WORDS + canaries <= |m|
    requires PAYLOAD_FIRST_PAGE * PAGE_WORDS + pages * PAGE_WORDS <= |m|
    ensures var r, p := RESPONSE_PAGE * PAGE_WORDS, PAYLOAD_FIRST_PAGE * PAGE_WORDS;
            Put(Put(m, r, Repeat(CANARY, canaries)), p, Repeat(0, pages * PAGE_WORDS))[r..r + 1] == [CANARY]
  {
    var r, p := RESPONSE_PAGE * PAGE_WORDS, PAYLOAD_FIRST_PAGE * PAGE_WORDS;
    var m1 := Put(m, r, Repeat(CANARY, canaries));
    PutReads(m, r, Repeat(CANARY, canaries), 0, 0);
    SubSlice(m1, r, r + canaries, 0, 1);
    PutReads(m1, p, Repeat(0, pages * PAGE_WORDS), r, 1);
  }

  /** The chain for a payload of any size that leaves room in one ring: walking the
      entries up to the position handed to the device gives the two header words
      and then exactly the payload. */
  method BuildChain(payload: seq<Word>, clock: Word) returns (ok: bool, memory: array<Word>, position: nat)
    ensures ok <==> PageCount(|payload|) + 3 < RING_CAPACITY
    ensures ok ==>
              && |payload| + 2 < WORD_LIMIT
              && position == 3 + PageCount(|payload|) < RING_CAPACITY
              && memory.Length == (PAYLOAD_FIRST_PAGE + PageCount(|payload|)) * PAGE_WORDS
              && Gather(memory[..], 2, position) == Some([LOADER_COMMAND, |payload| + 2] + payload)
              && SpanAt(memory[..], Entry(0, 1, 0)) == Some(Span(RESPONSE_PAGE * PAGE_WORDS, 4))
              && memory[RESPONSE_PAGE * PAGE_WORDS] == CANARY
              && BehindResponse(memory[..], 2, position) && Commands(memory[..], clock)
  {
    hide Put, Published, Gather, SpanAt, Filled, BehindResponse, Commands;
    var pages := PageCount(|payload|);
    if pages + 3 >= RING_CAPACITY {
      memory := new Word[0];
      return false, memory, 0;
    }
    memory := new Word[(PAYLOAD_FIRST_PAGE + pages) * PAGE_WORDS];
    Fill(memory, 0, RESPONSE_PAGE * PAGE_WORDS, 0);
    Untouched(memory[..], 2 * PAGE_WORDS, pages);
    Fill(memory, RESPONSE_PAGE * PAGE_WORDS, 2 * PAGE_WORDS, CANARY);
    Fill(memory, PAYLOAD_FIRST_PAGE * PAGE_WORDS, pages * PAGE_WORDS, 0);
    var header := [LOADER_COMMAND, |payload| + 2];
    FilledBy(memory[..], header, payload);
    Copy(memory, PAYLOAD_FIRST_PAGE * PAGE_WORDS, payload);
    SetCommand(memory, HEADER_PAGE * PAGE_WORDS, header[0], header[1]);
    PublishFilled(memory[..], clock, header, payload, pages);
    Publish(memory, clock, 2, |payload|, pages);
    position := 3 + pages;
    ok := true;
    assert payload[..|payload|] == payload;
  }

  const HBUT_MAGIC: Word := 0x54554248
  const HBUT_DWORDS: nat := 2558096 / 4

  /** The one firmware image the runtime loader accepts. */
  predicate ExactHbut(words: seq<Word>) {
    && |words| == HBUT_DWORDS && words[0] == HBUT_MAGIC && words[3] == 0xa012dc0d
    && words[6] == 0x0009c214 && (words[6] + 16) * 4 == |words| * 4
  }

  /** Its chain has 625 payload entries and fits the ring. */
  lemma HbutFits(words: seq<Word>)
    requires ExactHbut(words)
    ensures PageCount(|words|) == 625 && PageCount(|words|) + 3 < RING_CAPACITY
  {}

  // ---------- the rejection probe ----------

  /** The dwords of a file, little-endian. */
  function WordsOf(file: seq<Byte>): (w: seq<Word>)
    requires |file| % 4 == 0
    ensures |w| == |file| / 4
  {
    if file == [] then [] else [FromLE32(file[..4])] + WordsOf(file[4..])
  }

  predicate Acceptable(file: Option<seq<Byte>>) {
    file.None? || (4 <= |file.value| <= 4096 && |file.value| % 4 == 0)
  }

  /** Without a file the payload is one zero dword. */
  function PayloadOf(file: Option<seq<Byte>>): seq<Word>
    requires Acceptable(file)
  {
    match file
    case None => [0]
    case Some(bytes) => WordsOf(bytes)
  }

  function ShortCommand(dwords: nat): (w: Word)
    requires dwords <= PAGE_WORDS
    ensures w == LOADER_COMMAND_BASE + dwords + 1
  {
    ShortCommandAdds(dwords + 1);
    Bits.Or(LOADER_COMMAND_BASE, dwords + 1)
  }

  lemma ShortCommandAdds(n: nat)
    requires n < 0x10000
    ensures Bits.Or(LOADER_COMMAND_BASE, n) == LOADER_COMMAND_BASE + n
  {
    hide Bits.Or, Bits.Pow2;
    Bits.HalfWordPowers();
    Bits.OrDisjoint(0x12, n, 16);
  }

  datatype Rejected = BadFileSize | TooLongForOneBuffer

  lemma ChainedFill(m: Memory, command: Word, payload: seq<Word>)
    requires |m| == 67 * PAGE_WORDS && 1 <= |payload| <= PAGE_WORDS
    requires m[RESPONSE_PAGE * PAGE_WORDS..RESPONSE_PAGE * PAGE_WORDS + 1] == [CANARY]
    ensures var h, p := HEADER_PAGE * PAGE_WORDS, PAYLOAD_FIRST_PAGE * PAGE_WORDS;
            Filled(Put(Put(Put(m, h, [command]), p, [0]), p, payload), [command], payload)
  {
    hide Put;
    var r, h, p := RESPONSE_PAGE * PAGE_WORDS, HEADER_PAGE * PAGE_WORDS, PAYLOAD_FIRST_PAGE * PAGE_WORDS;
    PutReads(m, h, [command], r, 1);
    var m1 := Put(m, h, [command]);
    PutReads(m1, p, [0], r, 1);
    PutReads(m1, p, [0], h, 1);
    var m2 := Put(m1, p, [0]);
    PutReads(m2, p, payload, r, 1);
    PutReads(m2, p, payload, h, 1);
  }

  lemma SingleFill(m: Memory, command: Word, payload: seq<Word>)
    requires |m| == 67 * PAGE_WORDS && |payload| + 2 <= PAGE_WORDS && Filled(m, [command], payload)
    ensures var h := HEADER_PAGE * PAGE_WORDS;
            Filled(Put(Put(m, h + 1, [LOADER_RESPONSE_CLASS]), h + 2, payload),
                   [command, LOADER_RESPONSE_CLASS] + payload, [])
  {
    hide Put;
    var r, h := RESPONSE_PAGE * PAGE_WORDS, HEADER_PAGE * PAGE_WORDS;
    PutReads(m, h + 1, [LOADER_RESPONSE_CLASS], r, 1);
    PutReads(m, h + 1, [LOADER_RESPONSE_CLASS], h, 1);
    var m1 := Put(m, h + 1, [LOADER_RESPONSE_CLASS]);
    PutReads(m1, h + 2, payload, r, 1);
    PutReads(m1, h + 2, payload, h, 1);
    PutReads(m1, h + 2, payload, h + 1, 1);
    var m2, n := Put(m1, h + 2, payload), |payload|;
    assert m2[h..h + 2 + n] == m2[h..h + 1] + m2[h + 1..h + 2] + m2[h + 2..h + 2 + n];
  }

  /** Either framing of a payload of up to one page: chained, the device reads the
      command and then the payload; in a single buffer, the command, the response
      class and then the payload. */
  method BuildRejection(file: Option<seq<Byte>>, singleBuffer: bool, clock: Word)
    returns (error: Option<Rejected>, memory: array<Word>, position: nat)
    ensures !Acceptable(file) <==> error == Some(BadFileSize)
    ensures Acceptable(file) ==>
              (error == Some(TooLongForOneBuffer) <==> singleBuffer && |PayloadOf(file)| * 4 > 4088)
    ensures error == None ==>
              && Acceptable(file) && 1 <= |PayloadOf(file)| <= PAGE_WORDS
              && memory.Length == 67 * PAGE_WORDS
              && position == (if singleBuffer then 3 else 4)
              && Gather(memory[..], 2, position) ==
                 Some((if singleBuffer then [ShortCommand(|PayloadOf(file)|), LOADER_RESPONSE_CLASS]
                       else [ShortCommand(|PayloadOf(file)|)]) + PayloadOf(file))
              && SpanAt(memory[..], Entry(0, 1, 0)) == Some(Span(RESPONSE_PAGE * PAGE_WORDS, 4))
              && memory[RESPONSE_PAGE * PAGE_WORDS] == CANARY && Commands(memory[..], clock)
  {
    hide Put, Published, Gather, SpanAt, Filled, WordsOf, ShortCommand, Repeat, Commands;
    memory, position := new Word[0], 0;
    if !Acceptable(file) {
      return Some(BadFileSize), memory, 0;
    }
    var payload := PayloadOf(file);
    memory := PrepareChained(payload);
    var header := [ShortCommand(|payload|)];
    if singleBuffer {
      if |payload| * 4 > 4096 - 8 {
        return Some(TooLongForOneBuffer), memory, 0;
      }
      SingleFill(memory[..], ShortCommand(|payload|), payload);
      Copy(memory, HEADER_PAGE * PAGE_WORDS + 1, [LOADER_RESPONSE_CLASS]);
      Copy(memory, HEADER_PAGE * PAGE_WORDS + 2, payload);
      header := [ShortCommand(|payload|), LOADER_RESPONSE_CLASS] + payload;
      PublishFilled(memory[..], clock, header, [], 0);
      Publish(memory, clock, |payload| + 2, 0, 0);
      position := 3;
      assert header + [] == header;
    } else {
      PublishFilled(memory[..], clock, header, payload, 1);
      Publish(memory, clock, 1, |payload|, 1);
      position := 4;
      assert payload[..|payload|] == payload;
    }
    error := None;
  }

  /** The pages before the rings are filled: command word and payload. */
  method PrepareChained(payload: seq<Word>) returns (memory: array<Word>)
    requires 1 <= |payload| <= PAGE_WORDS
    ensures fresh(memory) && memory.Length == 67 * PAGE_WORDS
    ensures Filled(memory[..], [ShortCommand(|payload|)], payload)
  {
    hide Put, Filled, ShortCommand, Repeat;
    memory := new Word[67 * PAGE_WORDS];
    Fill(memory, 0, RESPONSE_PAGE * PAGE_WORDS, 0);
    ghost var m := memory[..];
    Fill(memory, RESPONSE_PAGE * PAGE_WORDS, 3 * PAGE_WORDS, CANARY);
    AllCanaries(m);
    ChainedFill(memory[..], ShortCommand(|payload|), payload);
    Copy(memory, HEADER_PAGE * PAGE_WORDS, [ShortCommand(|payload|)]);
    Copy(memory, PAYLOAD_FIRST_PAGE * PAGE_WORDS, [0]);
    Copy(memory, PAYLOAD_FIRST_PAGE * PAGE_WORDS, payload);
  }

  lemma AllCanaries(m: Memory)
    requires |m| == 67 * PAGE_WORDS
    ensures var r := RESPONSE_PAGE * PAGE_WORDS;
            Put(m, r, Repeat(CANARY, 3 * PAGE_WORDS))[r..r + 1] == [CANARY]
  {}
}
