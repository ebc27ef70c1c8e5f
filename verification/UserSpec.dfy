/** What the user-space programs have in common: their pages in one mapped window,
    and how they open the device and give everything back. */
module UserSpec {
  import opened Common
  import opened Machine
  import opened TransportSpec

  const PAGE_BYTES: nat := 4096

  function FirstIova(dsp: nat, ring: nat): Address
    requires dsp < DSP_COUNT && ring < RING_COUNT
  {
    TEST_IOVA + (dsp * 8 + ring * 4) * PAGE_BYTES
  }

  /** The first `n` descriptor pairs of a ring whose pages are consecutive. */
  function PublishFrom(h: History, base: nat, first: Address, n: nat): History
    requires first + n * PAGE_BYTES <= ADDRESS_LIMIT
  {
    if n == 0 then h
    else
      var iova := first + (n - 1) * PAGE_BYTES;
      Then(Then(PublishFrom(h, base, first, n - 1),
                Write(base + (n - 1) * 8, Low32(iova))),
           Write(base + (n - 1) * 8 + 4, High32(iova)))
  }

  function WindowPages(): (dma: seq<Address>)
    ensures PageTable(dma)
  {
    seq(PAGE_SLOTS, i requires 0 <= i < PAGE_SLOTS => TEST_IOVA + i * PAGE_BYTES)
  }

  /** The system calls of a run that can fail. */
  datatype Call =
    | PrepareMemory | OpenContainer | OpenGroup | ConfigureIommu | MapDma
    | OpenDevice | ValidateDevice | MapBar | VfioReset | UnmapDma

  /** Everything outside the program, as functions of what has happened so far:
      register values, the words of the mapped memory (which the device may
      change at any time), pending signals and the fate of system calls. */
  datatype Environment = Environment(
    device: Device,
    memory: (History, nat) -> Word,
    pending: History -> bool,
    succeeds: (History, Call) -> bool)

  /** How far the opening of the device got. */
  datatype Opened = Opened(mapped: bool, open: bool, bar: bool, history: History)

  /** From mapping the window to mapping the BAR. */
  function Opening(env: Environment, h: History): (o: Opened)
    ensures (o.bar ==> o.open) && (o.open ==> o.mapped)
  {
    if !env.succeeds(h, MapDma) then Opened(false, false, false, h) else
    var h1 := Then(h, MapWindow(WindowPages()));
    if !env.succeeds(h1, OpenDevice) then Opened(true, false, false, h1) else
    var h2 := Then(Then(h1, Acquire(PciEnabled)), Acquire(Region));
    if !env.succeeds(h2, ValidateDevice) || !env.succeeds(h2, Call.MapBar) then Opened(true, true, false, h2) else
    Opened(true, true, true, Then(h2, Acquire(Bar)))
  }

  /** Bringing the engines down, and whether the rings are found restored. */
  function Restored(dev: Device, h: History): (bool, History) {
    var (zero, g) := Poll(dev, QuiesceWrites(h), RingWords, CHECKED_WORDS);
    if zero then Expect(dev, g, DMA_CONTROL, DMA_COLD_RESET) else (false, g)
  }

  /** The check behind a device reset. */
  function Recovering(dev: Device, h: History): (bool, History) {
    var (zero, h1) := Poll(dev, h, RingWords, CHECKED_WORDS);
    if !zero then (false, h1) else
    var (cold, h2) := Expect(dev, h1, DMA_CONTROL, DMA_COLD_RESET);
    if !cold then (false, h2) else
    Poll(dev, h2, ReadyWords, DSP_COUNT)
  }

  /** What a cleanup ends with. */
  datatype Cleaned = Cleaned(restored: bool, recovered: bool, unmapped: bool, history: History)

  /** Everything behind the cleanup label, for a run that has got this far. */
  function CleaningUp(env: Environment, o: Opened, startup: bool): Cleaned {
    var (restored, h1) := if startup then Restored(env.device, o.history) else (false, o.history);
    var (recovered, h2) :=
      if o.open && o.bar && env.succeeds(h1, VfioReset) then Recovering(env.device, Then(h1, ResetDevice))
      else (false, h1);
    var h3 := if o.bar then Then(h2, Release(Bar)) else h2;
    var h4 := if o.open then Then(Then(h3, Release(Region)), Release(PciEnabled)) else h3;
    if o.mapped && env.succeeds(h4, UnmapDma) then Cleaned(restored, recovered, true, Then(h4, UnmapWindow))
    else Cleaned(restored, recovered, false, h4)
  }
}
