/** The hardware and kernel environment the transport driver acts on: a history
    of single steps, the state those steps leave behind, and the rules every
    step must respect. */
module Machine {
  import opened Common
  import opened Bits

  const DSP_COUNT: nat := 8
  const RING_COUNT: nat := 2
  const RING_PAGES: nat := 4
  const PAGE_SLOTS: nat := 64
  const RING_ENTRIES: nat := 1024

  /** Where the user-space programs map their pages for the device. */
  const TEST_IOVA: Address := 0x10000000

  /** Ring words checked by the cold precondition, and ring words cleared. */
  const CHECKED_WORDS: nat := 256
  const CLEARED_WORDS: nat := 160

  const DMA_CONTROL: nat := 0x2200
  const INTERRUPT_ENABLE: nat := 0x2204
  const INTERRUPT_ACK: nat := 0x2208
  const FPGA_REVISION: nat := 0x2218
  const NOTIFICATION_CONTROL: nat := 0x2220
  const EXTENDED_CAPABILITIES: nat := 0x2234

  const EXPECTED_FPGA_REVISION: Word := 0xa012dc0d
  const EXPECTED_CAPABILITIES: Word := 0x00300811
  const DMA_COLD_RESET: Word := 0x0001fe00
  const DMA_RESET_GLOBAL: Word := 0x0001fe01
  const DMA_GLOBAL_ONLY: Word := 0x00000001
  const DMA_ALL_DSPS: Word := 0x000001ff
  const ALL_ONES: Word := 0xffffffff

  /** The register bank of one DSP's command ring; the response ring follows
      0x40 bytes later. */
  function Bank(dsp: nat): nat {
    if dsp < 4 then 0x2000 + dsp * 0x80 else 0x5e00 + dsp * 0x80
  }

  function RingBase(dsp: nat, ring: nat): nat {
    Bank(dsp) + ring * 0x40
  }

  function PageRegister(dsp: nat, ring: nat, page: nat): nat {
    RingBase(dsp, ring) + page * 8
  }

  function ReadyOffset(dsp: nat): nat {
    if dsp < 4 then 0x01a4 + dsp * 0x800 else 0x21a4 + dsp * 0x800
  }

  /** Row-major position of a page in the three-dimensional page table. */
  function Slot(dsp: nat, ring: nat, page: nat): nat {
    dsp * 8 + ring * 4 + page
  }

  /** What a probe acquires and a removal gives back. */
  datatype Resource = Memory | DriverData | PciEnabled | Region | Bar | Name | Misc

  /** One step: a register access, a bus or sleep call, or a change of
      ownership; a user-space program maps its pages as one window. A read
      records the value the device returned. */
  datatype Event =
    | Write(offset: nat, value: Word)
    | Read(offset: nat, value: Word)
    | SetMaster
    | ClearMaster
    | Sleep
    | ZeroPages
    | AllocPage(slot: nat, address: Address)
    | FreePage(slot: nat)
    | Acquire(resource: Resource)
    | Release(resource: Resource)
    | MapWindow(dma: seq<Address>)
    | UnmapWindow
    | ResetDevice

  datatype History = Boot | Then(past: History, event: Event)

  /** What the device answers to a read, given everything that happened before.
      Reads are part of the history, so every sequence of answers is the answer
      sequence of some device: an unconstrained device is fully adversarial. */
  type Device = (History, nat) -> Word

  /** `regs` holds the last value written to each register. */
  datatype Hardware = Hardware(
    regs: map<nat, Word>, master: bool, pages: map<nat, Address>,
    held: set<Resource>, frees: nat)

  function Step(s: Hardware, e: Event): Hardware {
    match e
    case Write(offset, value) => s.(regs := s.regs[offset := value])
    case Read(_, _) => s
    case SetMaster => s.(master := true)
    case ClearMaster => s.(master := false)
    case Sleep => s
    case ZeroPages => s
    case AllocPage(slot, address) => s.(pages := s.pages[slot := address])
    case FreePage(slot) => s.(pages := s.pages - {slot})
    case Acquire(resource) => s.(held := s.held + {resource})
    case Release(resource) =>
      s.(held := s.held - {resource},
         frees := if resource == Memory then s.frees + 1 else s.frees)
    case MapWindow(dma) => s.(pages := map slot: nat | slot < |dma| :: dma[slot])
    case UnmapWindow => s.(pages := map[])
    case ResetDevice => s.(regs := map[])
  }

  function State(h: History): Hardware {
    match h
    case Boot => Hardware(map[], false, map[], {}, 0)
    case Then(past, event) => Step(State(past), event)
  }

  /** The last value written, or the value a cold device holds. */
  function Shadow(s: Hardware, offset: nat): Word {
    if offset in s.regs then s.regs[offset]
    else if offset == DMA_CONTROL then DMA_COLD_RESET
    else 0
  }

  predicate Cold(s: Hardware) {
    Shadow(s, DMA_CONTROL) == DMA_COLD_RESET
  }

  /** The words of every ring that software writes hold zero. */
  ghost predicate RingsClear(s: Hardware) {
    forall dsp, ring, word | 0 <= dsp < DSP_COUNT && 0 <= ring < RING_COUNT && 0 <= word < 10 ::
      RingWord(s, dsp, ring, word) == 0
  }

  function RingWord(s: Hardware, dsp: nat, ring: nat, word: nat): Word {
    Shadow(s, RingBase(dsp, ring) + word * 4)
  }

  predicate Enabled(control: Word, dsp: nat) {
    Bit(control, dsp + 1)
  }

  /** The DMA engine of `dsp` is enabled by the last DMA-control write. */
  predicate Live(s: Hardware, dsp: nat) {
    Enabled(Shadow(s, DMA_CONTROL), dsp)
  }

  /** The descriptor pair holds exactly the address of its allocated page. */
  predicate Holds(s: Hardware, dsp: nat, ring: nat, page: nat) {
    && Slot(dsp, ring, page) in s.pages
    && PageRegister(dsp, ring, page) in s.regs
    && PageRegister(dsp, ring, page) + 4 in s.regs
    && s.regs[PageRegister(dsp, ring, page)] == Low32(s.pages[Slot(dsp, ring, page)])
    && s.regs[PageRegister(dsp, ring, page) + 4] == High32(s.pages[Slot(dsp, ring, page)])
  }

  /** No enabled engine can reach anything but its own eight allocated pages. */
  ghost predicate Contained(s: Hardware) {
    forall dsp, ring, page |
      0 <= dsp < DSP_COUNT && Live(s, dsp) && 0 <= ring < RING_COUNT && 0 <= page < RING_PAGES ::
      Holds(s, dsp, ring, page)
  }

  ghost predicate AllPagesAllocated(s: Hardware) {
    forall slot | 0 <= slot < PAGE_SLOTS :: slot in s.pages
  }

  /** The rules for taking one step. */
  ghost predicate Legal(s: Hardware, e: Event) {
    match e
    case Write(_, _) => Bar in s.held
    case Read(_, _) => Bar in s.held
    case SetMaster => PciEnabled in s.held && AllPagesAllocated(s)
    case ClearMaster => PciEnabled in s.held && Cold(s)
    case Sleep => true
    case ZeroPages => AllPagesAllocated(s) && !s.master
    case AllocPage(slot, _) => Memory in s.held && slot < PAGE_SLOTS && slot !in s.pages
    case FreePage(slot) => slot in s.pages && Cold(s) && !s.master
    case Acquire(resource) =>
      resource !in s.held && (if resource == Memory then s.frees == 0 else Memory in s.held)
    case Release(resource) =>
      && resource in s.held
      && (resource == Bar ==> Cold(s) && !s.master)
      && (resource == Region || resource == PciEnabled ==> Bar !in s.held)
      && (resource == Memory ==> s.held == {Memory} && s.pages == map[])
    case MapWindow(dma) => Memory in s.held && s.pages == map[] && !s.master && |dma| == PAGE_SLOTS
    case UnmapWindow => s.held == {Memory} && Cold(s) && RingsClear(s) && !s.master
    case ResetDevice => {PciEnabled, Bar} <= s.held
  }

  /** Every step so far was legal and left DMA contained. */
  ghost predicate Safe(h: History) {
    h.Then? ==> Safe(h.past) && Legal(State(h.past), h.event) && Contained(State(h))
  }

  ghost predicate Prefix(p: History, h: History) {
    p == h || (h.Then? && Prefix(p, h.past))
  }

  /** Safety of a history is containment after every single step of it. */
  lemma {:induction false} SafeAtEveryPrefix(h: History)
    ensures Safe(h) <==> forall p | Prefix(p, h) && p.Then? ::
                           Legal(State(p.past), p.event) && Contained(State(p))
  {
    if h.Then? {
      SafeAtEveryPrefix(h.past);
      assert Prefix(h, h);
      forall p | Prefix(p, h.past)
        ensures Prefix(p, h)
      {}
    }
  }

  /** The register writes of a history, in order. */
  function Writes(h: History): seq<(nat, Word)> {
    match h
    case Boot => []
    case Then(past, Write(offset, value)) => Writes(past) + [(offset, value)]
    case Then(past, _) => Writes(past)
  }

  /** Ring registers of different rings never coincide, and none of them is a
      control register. */
  lemma RingsDoNotAlias(dsp: nat, ring: nat, at: nat, dsp': nat, ring': nat, at': nat)
    requires dsp < DSP_COUNT && ring < RING_COUNT && at < 0x40
    requires dsp' < DSP_COUNT && ring' < RING_COUNT && at' < 0x40
    ensures RingBase(dsp, ring) + at == RingBase(dsp', ring') + at'
            <==> dsp == dsp' && ring == ring' && at == at'
    ensures RingBase(dsp, ring) + at < 0x2200 || 0x6000 <= RingBase(dsp, ring) + at
  {
    assert 128 * dsp + 64 * ring + at == 128 * dsp' + 64 * ring' + at'
           ==> 2 * dsp + ring == 2 * dsp' + ring';
  }

  lemma EngineBits(dsp: nat)
    requires dsp < DSP_COUNT
    ensures !Bit(DMA_COLD_RESET, dsp + 1)
    ensures !Bit(DMA_RESET_GLOBAL, dsp + 1)
    ensures !Bit(DMA_GLOBAL_ONLY, dsp + 1)
    ensures Bit(DMA_ALL_DSPS, dsp + 1)
  {
    assert Pow2(1) == 2 && Pow2(9) == 512;
    BitOnes(1, dsp + 1);
    BitOnes(9, dsp + 1);
    UpperBits(255, 9, dsp + 1);
    assert DMA_RESET_GLOBAL == 255 * Pow2(9) + 1;
    UpperBitsPlusOne(255, 9, dsp + 1);
  }

  lemma {:induction false} UpperBits(m: nat, n: nat, k: nat)
    requires k < n
    ensures !Bit(m * Pow2(n), k)
  {
    assert m * Pow2(n) == 2 * (m * Pow2(n - 1));
    if k > 0 { UpperBits(m, n - 1, k - 1); }
  }

  lemma UpperBitsPlusOne(m: nat, n: nat, k: nat)
    requires 0 < k < n
    ensures !Bit(m * Pow2(n) + 1, k)
  {
    assert m * Pow2(n) == 2 * (m * Pow2(n - 1));
    UpperBits(m, n - 1, k - 1);
  }
}
