/** What a run of the runtime loader guarantees in any environment: containment, the
    order of its moments, bounded waits, and what success means. */
module LoaderSoundness {
  import opened Common
  import opened Machine
  import opened TransportSpec
  import opened TransportSafety
  import opened UserSpec
  import opened UserSafety
  import opened TraceEquivalence
  import opened Extension
  import opened LoaderSpec
  import opened LoaderSafety

  // ---------- the reads of a history ----------

  /** The values a register was read with, in order. */
  function ReadsOf(h: History, offset: nat): seq<Word> {
    match h
    case Boot => []
    case Then(past, Read(o, value)) => if o == offset then ReadsOf(past, offset) + [value] else ReadsOf(past, offset)
    case Then(past, _) => ReadsOf(past, offset)
  }

  /** Some read of the command index was not the position the connects left. */
  predicate Progressed(seen: seq<Word>) {
    exists i | 0 <= i < |seen| :: seen[i] != 2
  }

  lemma {:induction false} ConsumedReads(dev: Device, h: History, n: nat, dsp: nat)
    requires n <= DSP_COUNT && dsp < DSP_COUNT
    ensures var offset := RingBase(dsp, 0) + 0x28;
            |ReadsOf(Consumed(dev, h, n).1, offset)| == |ReadsOf(h, offset)| + if dsp < n then 1 else 0
  {
    hide RingBase;
    if n > 0 {
      ConsumedReads(dev, h, n - 1, dsp);
      RingsDoNotAlias(n - 1, 0, 0x28, dsp, 0, 0x28);
    }
  }

  /** Every turn of the wait for the connects reads each command index once. */
  lemma {:induction false} AwaitingReads(env: Environment, h: History, poll: nat, dsp: nat)
    requires poll <= CONNECT_LIMIT && dsp < DSP_COUNT
    ensures var a, offset := Awaiting(env, h, poll), RingBase(dsp, 0) + 0x28;
            && |ReadsOf(a.history, offset)| == |ReadsOf(h, offset)| + (a.turns - poll)
            && poll <= a.turns <= CONNECT_LIMIT
            && (a.consumed || a.turns == CONNECT_LIMIT || env.pending(a.history))
    decreases CONNECT_LIMIT - poll
  {
    hide RingBase, Consumed;
    if poll < CONNECT_LIMIT && !env.pending(h) {
      ConsumedReads(env.device, h, DSP_COUNT, dsp);
      var (consumed, g) := Consumed(env.device, h, DSP_COUNT);
      if !consumed {
        AwaitingReads(env, Then(g, Sleep), poll + 1, dsp);
      }
    }
  }

  lemma IndexesDiffer()
    ensures COMMAND_INDEX != RESPONSE_INDEX
  {}

  lemma IndexedReads(dev: Device, h: History)
    ensures ReadsOf(Indexed(dev, h), COMMAND_INDEX) == ReadsOf(h, COMMAND_INDEX) + [CommandIndex(dev, h)]
    ensures ReadsOf(Then(Indexed(dev, h), Sleep), COMMAND_INDEX) == ReadsOf(Indexed(dev, h), COMMAND_INDEX)
  {
    IndexesDiffer();
    hide RingBase;
    var h1 := Observe(dev, h, COMMAND_INDEX);
    assert ReadsOf(h1, COMMAND_INDEX) == ReadsOf(h, COMMAND_INDEX) + [CommandIndex(dev, h)];
  }

  /** The reads of the command index made between two moments. */
  function ReadsSince(before: History, after: History): seq<Word>
    requires |ReadsOf(before, COMMAND_INDEX)| <= |ReadsOf(after, COMMAND_INDEX)|
  {
    ReadsOf(after, COMMAND_INDEX)[|ReadsOf(before, COMMAND_INDEX)|..]
  }

  /** The moment right after two reads that found both positions reached, with a
      response in memory. */
  ghost predicate Complete(env: Environment, h: History, position: Word) {
    exists g :: h == Indexed(env.device, g) && CommandIndex(env.device, g) == position
                && ResponseIndex(env.device, g) == 1 && env.memory(h, RESPONSE) != CANARY
  }

  function TurnLimit(progress: bool): nat {
    if progress then POLL_LIMIT else NO_PROGRESS_LIMIT
  }

  /** Every turn of the wait reads the command index once more; its progress flag is
      about those reads; it ends in time, and for a reason. */
  lemma {:induction false} WaitingReads(env: Environment, h: History, position: Word, poll: nat, progress: bool)
    requires poll <= POLL_LIMIT && (!progress ==> poll < NO_PROGRESS_LIMIT)
    ensures var w := Waiting(env, h, position, poll, progress);
            && ReadsOf(h, COMMAND_INDEX) <= ReadsOf(w.history, COMMAND_INDEX)
            && |ReadsSince(h, w.history)| == w.turns - poll
            && (w.progress <==> progress || Progressed(ReadsSince(h, w.history)))
            && poll <= w.turns <= TurnLimit(w.progress)
            && (w.complete ==> Complete(env, w.history, position))
            && (w.complete || w.turns == TurnLimit(w.progress) || env.pending(w.history))
    decreases POLL_LIMIT - poll
  {
    hide RingBase, Indexed, CommandIndex, ResponseIndex, ReadsOf;
    if poll < POLL_LIMIT && !env.pending(h) {
      var dev := env.device;
      var g, c := Indexed(dev, h), CommandIndex(dev, h);
      IndexedReads(dev, h);
      var seen := progress || c != 2;
      var done := c == position && ResponseIndex(dev, h) == 1 && env.memory(g, RESPONSE) != CANARY;
      if done || (!seen && poll + 1 >= NO_PROGRESS_LIMIT) {
        assert ReadsSince(h, g) == [c] + [];
        ProgressedCons(c, []);
        assert done ==> Complete(env, g, position);
      } else {
        var w := Waiting(env, Then(g, Sleep), position, poll + 1, seen);
        WaitingReads(env, Then(g, Sleep), position, poll + 1, seen);
        assert ReadsSince(h, w.history) == [c] + ReadsSince(Then(g, Sleep), w.history);
        ProgressedCons(c, ReadsSince(Then(g, Sleep), w.history));
      }
    }
  }

  lemma ProgressedCons(c: Word, rest: seq<Word>)
    ensures Progressed([c] + rest) <==> c != 2 || Progressed(rest)
  {
    var all := [c] + rest;
    assert all[0] == c;
    if i :| 0 <= i < |rest| && rest[i] != 2 {
      assert all[i + 1] == rest[i];
    }
    if Progressed(all) {
      var i :| 0 <= i < |all| && all[i] != 2;
      assert i > 0 ==> all[i] == rest[i - 1];
    }
  }

  // ---------- setting up ----------

  lemma GatedSettles(dev: Device, h: History)
    requires Settled(h, true, true, true)
    ensures var g := Gated(dev, h).1; Settled(g, true, true, true) && Writes(g) == Writes(h)
  {
    hide Settled, Poll, Writes;
    SettledRead(dev, h, FPGA_REVISION);
    var h1 := Observe(dev, h, FPGA_REVISION);
    SettledPoll(dev, h1, RingWords, CHECKED_WORDS);
    var h2 := Poll(dev, h1, RingWords, CHECKED_WORDS).1;
    SettledPoll(dev, h2, ReadyWords, DSP_COUNT);
    var h3 := Poll(dev, h2, ReadyWords, DSP_COUNT).1;
    SettledRead(dev, h3, DMA_CONTROL);
    SettledRead(dev, Observe(dev, h3, DMA_CONTROL), INTERRUPT_ENABLE);
  }

  /** Up to the gate nothing is written, and exactly what the flags say is held. */
  lemma SettingUpSettles(env: Environment, h: History)
    requires Settled(h, false, false, false)
    ensures var (o, passed) := SettingUp(env, h);
            && Settled(o.history, o.mapped, o.open, o.bar) && Writes(o.history) == Writes(h)
            && (passed ==> o.bar) && (o.bar ==> o.open) && (o.open ==> o.mapped)
  {
    hide Settled, Opening, Gated, Writes;
    OpeningSettles(env, h);
    if Opening(env, h).bar {
      GatedSettles(env.device, Opening(env, h).history);
    }
  }

  // ---------- the run ----------

  /** The wait for the connects read every command index once a turn, 3000 times at
      most, and gave up only at a signal or at that limit. */
  ghost predicate AwaitedInTime(env: Environment, before: History, a: Awaited) {
    && a.turns <= CONNECT_LIMIT
    && (forall dsp | 0 <= dsp < DSP_COUNT :: IndexReads(a.history, dsp) == IndexReads(before, dsp) + a.turns)
    && (a.consumed || a.turns == CONNECT_LIMIT || env.pending(a.history))
  }

  /** How often the command index of a DSP was read. */
  function IndexReads(h: History, dsp: nat): nat {
    |ReadsOf(h, RingBase(dsp, 0) + 0x28)|
  }

  /** The wait for the transfer read the command index once a turn, at most 150000
      times, 5000 when none of those reads showed progress; it ended complete, by a
      signal, or at exactly that limit. */
  ghost predicate WaitedInTime(env: Environment, t: Transferred, position: Word) {
    var w := t.waited;
    && ReadsOf(t.submitted, COMMAND_INDEX) <= ReadsOf(w.history, COMMAND_INDEX)
    && |ReadsSince(t.submitted, w.history)| == w.turns <= TurnLimit(w.progress)
    && (w.progress <==> Progressed(ReadsSince(t.submitted, w.history)))
    && (w.complete ==> Complete(env, w.history, position))
    && (w.complete || w.turns == TurnLimit(w.progress) || env.pending(w.history))
  }

  /** The moments of a transfer, one behind the other. */
  ghost predicate InOrder(d: Driven, t: Transferred) {
    && Prefix(d.connected, d.awaited.history) && Prefix(d.awaited.history, t.submitted)
    && Prefix(t.submitted, t.waited.history) && Prefix(t.waited.history, t.verdict.answered)
    && Prefix(t.verdict.answered, t.verdict.checked)
  }

  /** What is known of everything between gate and cleanup. */
  ghost predicate Orderly(env: Environment, position: Word, d: Driven) {
    && AwaitedInTime(env, d.connected, d.awaited)
    && (d.transfer.Some? <==> d.awaited.consumed)
    && (d.transfer.Some? ==> WaitedInTime(env, d.transfer.value, position) && InOrder(d, d.transfer.value))
  }

  lemma TransferKeeps(env: Environment, h: History, snapshot: seq<Word>, position: Word)
    requires Steady(h)
    ensures var t := Transferring(env, h, snapshot, position);
            && Steady(t.verdict.checked) && Writes(t.verdict.checked) == Writes(h) + TransferWrites(position)
            && WaitedInTime(env, t, position)
            && Extends(h, t.submitted) && Extends(t.submitted, t.waited.history)
            && Extends(t.waited.history, t.verdict.answered) && Extends(t.verdict.answered, t.verdict.checked)
  {
    hide Steady, Extends, Writes, Submitted, Waiting, Judging, TransferWrites, ReadsOf, Complete, Progressed;
    StartsOn(h);
    SubmittedKeeps(h, h, position);
    var s := Submitted(h, position);
    OnMeans(h, s);
    StartsOn(s);
    WaitingKeeps(env, s, s, position, 0, false);
    WaitingReads(env, s, position, 0, false);
    var w := Waiting(env, s, position, 0, false);
    OnMeans(s, w.history);
    StartsOn(w.history);
    JudgingKeeps(env, w.history, w.history, snapshot, position, w.progress);
    OnMeans(w.history, Judging(env, w.history, snapshot, position, w.progress).checked);
  }

  lemma StartsOn(h: History)
    requires Steady(h)
    ensures On(h, h)
  {}

  lemma AwaitKeeps(env: Environment, h: History)
    requires Steady(h)
    ensures var a := Awaiting(env, h, 0);
            Steady(a.history) && Extends(h, a.history) && Writes(a.history) == Writes(h) && AwaitedInTime(env, h, a)
  {
    hide Steady, Extends, Writes, Awaiting, ReadsOf, RingBase;
    StartsOn(h);
    AwaitingKeeps(env, h, h, 0);
    OnMeans(h, Awaiting(env, h, 0).history);
    forall dsp | 0 <= dsp < DSP_COUNT
      ensures IndexReads(Awaiting(env, h, 0).history, dsp) == IndexReads(h, dsp) + Awaiting(env, h, 0).turns
    {
      AwaitingReads(env, h, 0, dsp);
    }
    AwaitingReads(env, h, 0, 0);
  }

  lemma ConnectKeepsRun(h: History)
    requires Steady(h) && Writes(h) == []
    ensures var c := Connected(LoaderStartup(h));
            Steady(c) && Extends(h, c) && Writes(c) == ConnectedWrites()
  {
    hide Steady, Extends, Writes, LoaderStartup, Connected, StartWrites, ConnectWrites, PositionWrites, WindowPages;
    LoaderStartupKeeps(h);
    LoaderStartupWrites(h);
    StartupExtends(h);
    var s := LoaderStartup(h);
    StartsOn(s);
    ConnectedKeeps(s, s);
    OnMeans(s, Connected(s));
    ExtendsTransitive(h, s, Connected(s));
  }

  /** Everything between gate and cleanup: contained, in order and in time, with
      one of two lists of writes. */
  lemma DrivingKeeps(env: Environment, h: History, snapshot: seq<Word>, position: Word)
    requires Steady(h) && Writes(h) == []
    ensures var d := Driving(env, h, snapshot, position);
            && Steady(LastMoment(d)) && Orderly(env, position, d) && Prefix(h, LastMoment(d))
            && Writes(LastMoment(d)) + QuiesceList() == RunWrites(true, d.transfer.Some?, position)
  {
    hide Steady, Extends, Writes, LoaderStartup, Connected, Awaiting, Transferring, Prefix, AwaitedInTime;
    hide WaitedInTime, ConnectedWrites, TransferWrites, QuiesceList;
    var d := Driving(env, h, snapshot, position);
    ConnectKeepsRun(h);
    ExtendsPrefix(h, d.connected);
    AwaitKeeps(env, d.connected);
    ExtendsPrefix(d.connected, d.awaited.history);
    PrefixTransitive(h, d.connected, d.awaited.history);
    if d.awaited.consumed {
      var t := d.transfer.value;
      TransferKeeps(env, d.awaited.history, snapshot, position);
      ExtendsPrefix(d.awaited.history, t.submitted);
      ExtendsPrefix(t.submitted, t.waited.history);
      ExtendsPrefix(t.waited.history, t.verdict.answered);
      ExtendsPrefix(t.verdict.answered, t.verdict.checked);
      PrefixTransitive(h, d.awaited.history, t.submitted);
      PrefixTransitive(h, t.submitted, t.waited.history);
      PrefixTransitive(h, t.waited.history, t.verdict.answered);
      PrefixTransitive(h, t.verdict.answered, t.verdict.checked);
    } else {
      assert ConnectedWrites() + [] == ConnectedWrites();
    }
  }

  /** A run that passed its gate. */
  lemma StartedEnds(env: Environment, o: Opened, snapshot: seq<Word>, position: Word)
    requires o.mapped && o.open && o.bar && Settled(o.history, true, true, true) && Writes(o.history) == []
    ensures var d := Driving(env, o.history, snapshot, position);
            var c := CleaningUp(env, o.(history := LastMoment(d)), true);
            && Ended(c.history) && (c.unmapped ==> Settled(c.history, false, false, false))
            && Orderly(env, position, d) && Prefix(LastMoment(d), c.history)
            && Writes(c.history) == Writes(LastMoment(d)) + QuiesceList()
            && Writes(c.history) == RunWrites(true, d.transfer.Some?, position)
  {
    hide Settled, Driving, CleaningUp, Steady, Writes, Ended, QuiesceList, Orderly, LastMoment, RunWrites, Prefix;
    SettledIsSteady(o.history);
    DrivingKeeps(env, o.history, snapshot, position);
    var last := o.(history := LastMoment(Driving(env, o.history, snapshot, position)));
    CleaningSettles(env, last, true);
    CleaningPrefix(env, last, true);
    SettledEnds(CleaningUp(env, last, true).history, !CleaningUp(env, last, true).unmapped);
  }

  /** What a run guarantees. Every step keeps the rules and leaves DMA contained, the
      window is only unmapped from a cold device with cleared rings, and nothing but
      possibly the window stays held. The register writes are one of three fixed
      lists. The waits are bounded in reads that the history contains. The verdict is
      about moments of this very history, behind the whole transfer and before the
      first write of the cleanup. Success is a favourable verdict with everything
      undone. */
  ghost predicate Guaranteed(env: Environment, position: Word, r: LoadResult) {
    && Ended(r.cleaned.history)
    && (r.driven.None? ==> Writes(r.cleaned.history) == [] && !r.success)
    && (r.driven.Some? ==>
          var d := r.driven.value;
          && Orderly(env, position, d) && Prefix(LastMoment(d), r.cleaned.history)
          && Writes(r.cleaned.history) == Writes(LastMoment(d)) + QuiesceList()
          && Writes(r.cleaned.history) == RunWrites(true, d.transfer.Some?, position))
    && (r.success <==>
          && r.driven.Some? && Delivered(r.driven.value)
          && r.cleaned.restored && r.cleaned.recovered && r.cleaned.unmapped)
    && (r.success ==> Settled(r.cleaned.history, false, false, false))
  }

  /** Every run gives these guarantees, whatever its environment does. */
  lemma LoadIsSafe(env: Environment, snapshot: seq<Word>, position: Word)
    ensures Guaranteed(env, position, LoadRun(env, snapshot, position))
  {
    BootEnds();
    hide Settled, SettingUp, Driving, CleaningUp, Writes, Ended, Orderly, RunWrites, QuiesceList, Prefix;
    hide Delivered, LastMoment;
    var h0 := Then(Boot, Acquire(Memory));
    Acquired();
    SettingUpSettles(env, h0);
    var (o, passed) := SettingUp(env, h0);
    if passed {
      StartedEnds(env, o, snapshot, position);
    } else {
      RefusedEnds(env, o);
    }
  }

  /** What a delivered chain means: no signal, and at `answered` both positions
      reached with a response of the loader's class, at `checked` every word but the
      response unchanged, all DSPs ready in between. */
  lemma DeliveredMeans(env: Environment, h: History, snapshot: seq<Word>, position: Word)
    ensures var d := Driving(env, h, snapshot, position);
            Delivered(d) <==>
              && d.transfer.Some?
              && var answered, checked := d.transfer.value.verdict.answered, d.transfer.value.verdict.checked;
                 var read := Indexed(env.device, answered);
                 && !env.pending(checked)
                 && CommandIndex(env.device, answered) == position && ResponseIndex(env.device, answered) == 1
                 && env.memory(answered, RESPONSE) / 0x10000 == LOADER_RESPONSE_CLASS / 0x10000
                 && env.memory(read, RESPONSE) != CANARY
                 && Poll(env.device, read, ReadyWords, DSP_COUNT) == (true, checked)
                 && ConfinedToResponse(env, checked, snapshot)
  {
    hide LoaderStartup, Connected, Awaiting, Submitted, Waiting, Indexed, CommandIndex, ResponseIndex, Poll;
    hide ConfinedToResponse;
  }
}
