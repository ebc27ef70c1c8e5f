/** What a run of the runtime loader does, as functions of what its environment
    answers. The imperative program is proved equal to these. */
module LoaderSpec {
  import opened Common
  import opened Bits
  import opened Machine
  import opened TransportSpec
  import opened TransportSafety
  import opened UserSpec
  import StartupProfile
  import LoaderChain

  const RESPONSE: nat := LoaderChain.RESPONSE_PAGE * LoaderChain.PAGE_WORDS
  const RESPONSE_WORDS: nat := 4
  const CANARY: Word := LoaderChain.CANARY
  const LOADER_RESPONSE_CLASS: Word := LoaderChain.LOADER_RESPONSE_CLASS
  const CONNECT_LIMIT: nat := 3000
  const POLL_LIMIT: nat := 150000
  const NO_PROGRESS_LIMIT: nat := 5000

  datatype Judgement = Judgement(
    connectsConsumed: bool,
    commandProgressSeen: bool,
    loaderConsumed: bool,
    responseConsumed: bool,
    responseWritten: bool,
    responseClassMatches: bool,
    readyAfter: bool,
    memoryBounded: bool)

  /** The loader's bring-up publishes position zero without reading an index. */
  function LoaderRing(h: History, dsp: nat, ring: nat): History
    requires dsp < DSP_COUNT && ring < RING_COUNT
  {
    var base := RingBase(dsp, ring);
    PublishFrom(Then(Then(h, Write(base + 0x24, 0)), Write(base + 0x20, 0)), base, FirstIova(dsp, ring), RING_PAGES)
  }

  function LoaderDsps(h: History, n: nat): History
    requires n <= DSP_COUNT
  {
    if n == 0 then h
    else
      Pow2Monotone(n + 1, 9);
      SmallPow2();
      Then(LoaderRing(LoaderRing(LoaderDsps(h, n - 1), n - 1, 0), n - 1, 1), Write(DMA_CONTROL, Pow2(n + 1) - 1))
  }

  function LoaderStartup(h: History): History {
    LoaderDsps(Prologue(h), DSP_COUNT)
  }

  /** The baseline gate: every check, in order, up to the first that fails. */
  function Gated(dev: Device, h: History): (bool, History) {
    var (revision, h1) := Expect(dev, h, FPGA_REVISION, EXPECTED_FPGA_REVISION);
    if !revision then (false, h1) else
    var (zero, h2) := Poll(dev, h1, RingWords, CHECKED_WORDS);
    if !zero then (false, h2) else
    var (ready, h3) := Poll(dev, h2, ReadyWords, DSP_COUNT);
    if !ready then (false, h3) else
    var (cold, h4) := Expect(dev, h3, DMA_CONTROL, DMA_COLD_RESET);
    if !cold then (false, h4) else
    Expect(dev, h4, INTERRUPT_ENABLE, 0)
  }

  /** What a setup ends with: how far the opening got, and whether the gate passed. */
  function SettingUp(env: Environment, h: History): (Opened, bool) {
    if !env.succeeds(h, OpenContainer) || !env.succeeds(h, OpenGroup) || !env.succeeds(h, ConfigureIommu)
    then (Opened(false, false, false, h), false) else
    var o := Opening(env, h);
    if !o.bar then (o, false) else
    var (passed, g) := Gated(env.device, o.history);
    (o.(history := g), passed)
  }

  // ---------- the connect commands ----------

  /** The interrupt shadow as a register value. */
  function Shadowed(n: nat): (w: Word)
    requires n <= DSP_COUNT
    ensures w == StartupProfile.ConnectShadow(n)
  {
    ConnectShadowFits(n);
    StartupProfile.ConnectShadow(n)
  }

  lemma {:induction false} ConnectShadowFits(n: nat)
    requires n <= DSP_COUNT
    ensures StartupProfile.ConnectShadow(n) < WORD_LIMIT
  {
    hide Or, Pow2;
    if n > 0 {
      ConnectShadowFits(n - 1);
      ShadowFits(StartupProfile.ConnectShadow(n - 1), 4 * (n - 1));
    }
  }

  lemma ShadowFits(shadow: Word, line: nat)
    requires line < 32
    ensures Or(shadow, Pow2(line)) < WORD_LIMIT
  {
    hide Or, Pow2;
    HalfWordPowers();
    Pow2Sum(16, 16);
    Pow2Sum(line, 32 - line);
    Pow2Monotone(line + 1, 32);
    TopBit(line);
    OrBelow(shadow, Pow2(line), 32);
  }

  lemma TopBit(line: nat)
    ensures Pow2(line) < Pow2(line + 1)
  {}

  /** Publishing a position of one ring. */
  function Positioned(h: History, dsp: nat, ring: nat, position: Word): History {
    Then(Then(h, Write(RingBase(dsp, ring) + 0x24, position)), Write(RingBase(dsp, ring) + 0x20, position))
  }

  /** The connect commands of the first n DSPs, each with its interrupt line. */
  function Connecting(h: History, n: nat): History
    requires n <= DSP_COUNT
  {
    if n == 0 then h
    else Then(Positioned(Connecting(h, n - 1), n - 1, 0, 1), Write(INTERRUPT_ENABLE, Shadowed(n)))
  }

  /** All connect commands, and the clock of the first DSP. */
  function Connected(h: History): History {
    Positioned(Connecting(h, DSP_COUNT), 0, 0, 2)
  }

  /** Reading the command indexes of the first n DSPs, all of them whatever they
      say: have the connects, and the clock of the first DSP, been consumed? */
  function Consumed(dev: Device, h: History, n: nat): (bool, History) {
    if n == 0 then (true, h)
    else
      var (before, g) := Consumed(dev, h, n - 1);
      var offset := RingBase(n - 1, 0) + 0x28;
      (before && dev(g, offset) == (if n == 1 then 2 else 1), Observe(dev, g, offset))
  }

  /** How the wait for the connects ends: whether they were consumed, and after how
      many turns. */
  datatype Awaited = Awaited(consumed: bool, turns: nat, history: History)

  function Awaiting(env: Environment, h: History, poll: nat): Awaited
    decreases CONNECT_LIMIT - poll
  {
    if poll >= CONNECT_LIMIT || env.pending(h) then Awaited(false, poll, h)
    else
      var (consumed, g) := Consumed(env.device, h, DSP_COUNT);
      if consumed then Awaited(true, poll + 1, g)
      else Awaiting(env, Then(g, Sleep), poll + 1)
  }

  // ---------- the transfer ----------

  /** The response position and then the command position, each followed by its
      interrupt line. */
  function Submitted(h: History, position: Word): History {
    ShadowFits(Shadowed(DSP_COUNT), 1);
    ShadowFits(Or(Shadowed(DSP_COUNT), Pow2(1)), 0);
    var response: Word := Or(Shadowed(DSP_COUNT), Pow2(1));
    var command: Word := Or(response, Pow2(0));
    var h1 := Then(Positioned(h, 0, 1, 1), Write(INTERRUPT_ENABLE, response));
    Then(Positioned(h1, 0, 0, position), Write(INTERRUPT_ENABLE, command))
  }

  const COMMAND_INDEX: nat := RingBase(0, 0) + 0x28
  const RESPONSE_INDEX: nat := RingBase(0, 1) + 0x28

  /** The history after reading both index registers of the first DSP. */
  function Indexed(dev: Device, h: History): History {
    Observe(dev, Observe(dev, h, COMMAND_INDEX), RESPONSE_INDEX)
  }

  function CommandIndex(dev: Device, h: History): Word {
    dev(h, COMMAND_INDEX)
  }

  function ResponseIndex(dev: Device, h: History): Word {
    dev(Observe(dev, h, COMMAND_INDEX), RESPONSE_INDEX)
  }

  /** How the bounded wait ends: whether the command index ever left the position of
      the connects, whether both positions were reached with a response in memory,
      and after how many turns. */
  datatype Waited = Waited(progress: bool, complete: bool, turns: nat, history: History)

  function Waiting(env: Environment, h: History, position: Word, poll: nat, progress: bool): Waited
    decreases POLL_LIMIT - poll
  {
    if poll >= POLL_LIMIT || env.pending(h) then Waited(progress, false, poll, h)
    else
      var g := Indexed(env.device, h);
      var seen := progress || CommandIndex(env.device, h) != 2;
      if CommandIndex(env.device, h) == position && ResponseIndex(env.device, h) == 1
         && env.memory(g, RESPONSE) != CANARY
      then Waited(seen, true, poll + 1, g)
      else if !seen && poll + 1 >= NO_PROGRESS_LIMIT then Waited(seen, false, poll + 1, g)
      else Waiting(env, Then(g, Sleep), position, poll + 1, seen)
  }

  /** Every word but those of the response is what it was in the snapshot. */
  ghost predicate ConfinedToResponse(env: Environment, h: History, snapshot: seq<Word>) {
    forall i | 0 <= i < |snapshot| && !(RESPONSE <= i < RESPONSE + RESPONSE_WORDS) ::
      env.memory(h, i) == snapshot[i]
  }

  /** The verdicts, and the moments they are about: `answered`, when the response is
      copied and the indexes are read, and `checked`, when the memory is compared. */
  datatype Verdict = Verdict(judgement: Judgement, success: bool, answered: History, checked: History)

  ghost function Judging(env: Environment, h: History, snapshot: seq<Word>, position: Word, progress: bool): Verdict {
    var answered := Indexed(env.device, h);
    var read := Indexed(env.device, answered);
    var (ready, checked) := Poll(env.device, read, ReadyWords, DSP_COUNT);
    var j := Judgement(
      true, progress,
      CommandIndex(env.device, answered) == position,
      ResponseIndex(env.device, answered) == 1,
      env.memory(read, RESPONSE) != CANARY,
      env.memory(answered, RESPONSE) / 0x10000 == LOADER_RESPONSE_CLASS / 0x10000,
      ready,
      ConfinedToResponse(env, checked, snapshot));
    Verdict(j, !env.pending(checked) && Favourable(j), answered, checked)
  }

  predicate Favourable(j: Judgement) {
    && j.connectsConsumed && j.loaderConsumed && j.responseConsumed && j.responseWritten
    && j.responseClassMatches && j.readyAfter && j.memoryBounded
  }

  // ---------- the run ----------

  /** A transfer: when the chain was handed over, how the wait for it ended, and the
      verdict. */
  datatype Transferred = Transferred(submitted: History, waited: Waited, verdict: Verdict)

  ghost function Transferring(env: Environment, h: History, snapshot: seq<Word>, position: Word): Transferred {
    var submitted := Submitted(h, position);
    var waited := Waiting(env, submitted, position, 0, false);
    Transferred(submitted, waited, Judging(env, waited.history, snapshot, position, waited.progress))
  }

  /** What lies between gate and cleanup; there is a transfer once the connects were
      consumed. */
  datatype Driven = Driven(connected: History, awaited: Awaited, transfer: Option<Transferred>)

  ghost function Driving(env: Environment, h: History, snapshot: seq<Word>, position: Word): Driven {
    var connected := Connected(LoaderStartup(h));
    var awaited := Awaiting(env, connected, 0);
    Driven(connected, awaited,
           if awaited.consumed then Some(Transferring(env, awaited.history, snapshot, position)) else None)
  }

  function LastMoment(d: Driven): History {
    if d.transfer.Some? then d.transfer.value.verdict.checked else d.awaited.history
  }

  predicate Delivered(d: Driven) {
    d.transfer.Some? && d.transfer.value.verdict.success
  }

  function JudgementOf(d: Driven): Judgement {
    if d.transfer.Some? then d.transfer.value.verdict.judgement
    else Judgement(false, false, false, false, false, false, false, false)
  }

  /** A whole run; `driven` is there once startup began. */
  datatype LoadResult = LoadResult(success: bool, driven: Option<Driven>, cleaned: Cleaned)

  ghost function LoadRun(env: Environment, snapshot: seq<Word>, position: Word): LoadResult {
    if !env.succeeds(Boot, PrepareMemory) then LoadResult(false, None, Cleaned(false, false, false, Boot)) else
    var (o, passed) := SettingUp(env, Then(Boot, Acquire(Memory)));
    if !passed then LoadResult(false, None, CleaningUp(env, o, false)) else
    var d := Driving(env, o.history, snapshot, position);
    var c := CleaningUp(env, o.(history := LastMoment(d)), true);
    LoadResult(Delivered(d) && c.restored && c.recovered && c.unmapped, Some(d), c)
  }
}
