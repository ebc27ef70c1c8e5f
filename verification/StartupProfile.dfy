/** Interrupt and DMA start-up values derived from the device's capability words. */
module StartupProfile {
  import opened Common
  import opened Bits
  import Machine

  datatype Profile = Profile(
    modern: bool,
    dspCount: nat,
    family: Option<nat>,
    compressed: bool,
    extendedInterruptBank: bool,
    audioExtension: bool,
    mapping: seq<Option<nat>>,
    callbackShadow: nat,
    queryShadow: nat,
    dmaSequence: seq<nat>)

  /** The number a 32-bit word stands for in two's complement. */
  function Signed32(value: int): (s: int)
    ensures -0x80000000 <= s < 0x80000000
    ensures (s - value) % WORD_LIMIT == 0
  {
    var w := value % WORD_LIMIT;
    if w >= 0x80000000 then w - WORD_LIMIT else w
  }

  // ---------- interrupt vectors ----------

  /** The interrupt line of a logical vector; the compressed mapping drops the last
      vector of every five. */
  function Physical(compressed: bool, logical: nat): Option<nat> {
    if !compressed then Some(logical)
    else if logical % 5 == 4 then None
    else Some(logical / 5 * 4 + logical % 5)
  }

  /** The logical vector on a line of the compressed mapping. */
  function Logical(physical: nat): nat {
    physical / 4 * 5 + physical % 4
  }

  /** The compressed mapping is one-to-one between the vectors it keeps and all
      lines: four of each DSP. */
  lemma CompressionIsBijective(logical: nat, physical: nat, n: nat)
    ensures Physical(true, logical) == Some(physical) <==> logical == Logical(physical)
    ensures Physical(true, logical) == None <==> logical % 5 == 4
    ensures physical < 4 * n <==> Logical(physical) < 5 * n
  {
    var g, k := physical / 4, physical % 4;
    assert physical == 4 * g + k && Logical(physical) == 5 * g + k;
    assert (5 * g + k) / 5 == g && (5 * g + k) % 5 == k;
    var h, j := logical / 5, logical % 5;
    assert logical == 5 * h + j;
    if j < 4 {
      assert (4 * h + j) / 4 == h && (4 * h + j) % 4 == j;
    }
  }

  function Mapping(compressed: bool, count: nat): (m: seq<Option<nat>>)
    ensures |m| == count && forall l :: 0 <= l < count ==> m[l] == Physical(compressed, l)
  {
    if count == 0 then [] else Mapping(compressed, count - 1) + [Physical(compressed, count - 1)]
  }

  function WithLine(shadow: nat, line: Option<nat>): nat {
    match line
    case None => shadow
    case Some(k) => Or(shadow, Pow2(k))
  }

  /** The callback vectors of one DSP: its third, fourth and fifth. */
  function WithCallbacks(compressed: bool, shadow: nat, dsp: nat): nat {
    WithLine(WithLine(WithLine(shadow, Physical(compressed, 5 * dsp + 2)),
                      Physical(compressed, 5 * dsp + 3)),
             Physical(compressed, 5 * dsp + 4))
  }

  function Callbacks(compressed: bool, n: nat): nat {
    if n == 0 then 0 else WithCallbacks(compressed, Callbacks(compressed, n - 1), n - 1)
  }

  /** The first DSP's command and response vectors on top. */
  function QueryLines(compressed: bool, n: nat): nat {
    var c := Callbacks(compressed, n);
    if n == 0 then c else WithLine(WithLine(c, Physical(compressed, 0)), Physical(compressed, 1))
  }

  function DmaSequence(n: nat): (s: seq<nat>)
    ensures |s| == n + 1
  {
    if n == 0 then [1]
    else
      var before := DmaSequence(n - 1);
      before + [Or(before[n - 1], Pow2(n))]
  }

  // ---------- decoding ----------

  function DspCount(fpga: int, capabilities: int): nat {
    if Signed32(fpga) < 0 then capabilities % WORD_LIMIT / 0x100 % 0x100 else 4
  }

  predicate Compressed(fpga: int, capabilities: int) {
    Signed32(fpga) < 0 && DspCount(fpga, capabilities) > 4
  }

  lemma Masked(value: int)
    ensures Signed32(value % WORD_LIMIT) == Signed32(value)
  {}

  /** The number of DSPs is byte 1 of the capabilities of a modern device, and four on
      an older one; the mapping is compressed from five DSPs on. */
  lemma CapabilityFields(fpga: Word, low: nat, count: nat, high: nat)
    requires low < 0x100 && count < 0x100 && high < 0x10000
    ensures var capabilities := low + 0x100 * count + 0x10000 * high;
            && DspCount(fpga, capabilities) == (if fpga >= 0x80000000 then count else 4)
            && (Compressed(fpga, capabilities) <==> fpga >= 0x80000000 && count >= 5)
  {
    var capabilities := low + 0x100 * count + 0x10000 * high;
    assert capabilities / 0x100 == count + 0x100 * high;
    assert capabilities < WORD_LIMIT;
  }

  method Decode(fpgaRevision: int, extendedCapabilities: int) returns (p: Profile)
    ensures p.modern <==> Signed32(fpgaRevision) < 0
    ensures p.dspCount == DspCount(fpgaRevision, extendedCapabilities)
    ensures p.compressed <==> Compressed(fpgaRevision, extendedCapabilities)
    ensures p.family == if p.modern then Some(extendedCapabilities % WORD_LIMIT / 0x100000 % 0x40) else None
    ensures p.extendedInterruptBank == p.audioExtension ==
            (p.modern && Signed32(extendedCapabilities) < 0 && p.family != Some(6))
    ensures p.mapping == Mapping(p.compressed, 5 * p.dspCount)
    ensures p.callbackShadow == Callbacks(p.compressed, p.dspCount)
    ensures p.queryShadow == QueryLines(p.compressed, p.dspCount)
    ensures p.dmaSequence == DmaSequence(p.dspCount)
  {
    hide Callbacks, Or, Pow2, Physical, Signed32, Mapping, DmaSequence;
    DmaStep(0);
    Masked(fpgaRevision);
    Masked(extendedCapabilities);
    var fpga, capabilities := fpgaRevision % WORD_LIMIT, extendedCapabilities % WORD_LIMIT;
    var modern := Signed32(fpga) < 0;
    var dspCount: nat := if modern then capabilities / 0x100 % 0x100 else 4;
    var family := if modern then Some(capabilities / 0x100000 % 0x40) else None;
    var compressed := modern && dspCount > 4;
    var extended := modern && Signed32(capabilities) < 0 && family != Some(6);
    var audio := modern && Signed32(capabilities) < 0 && family != Some(6);

    MappingStep(compressed, 0);
    var mapping: seq<Option<nat>> := [];
    for logical := 0 to dspCount * 5
      invariant mapping == Mapping(compressed, logical)
    {
      var physical;
      if compressed {
        var withinGroup := logical % 5;
        physical := Some(logical / 5 * 4 + withinGroup);
        if withinGroup == 4 {
          physical := None;
        }
      } else {
        physical := Some(logical);
      }
      PhysicalIs(compressed, logical);
      MappingStep(compressed, logical);
      mapping := mapping + [physical];
    }

    var callbackShadow := 0;
    CallbackStep(compressed, 0);
    for dsp := 0 to dspCount
      invariant callbackShadow == Callbacks(compressed, dsp)
    {
      CallbackStep(compressed, dsp);
      for logical := dsp * 5 + 2 to dsp * 5 + 5
        invariant callbackShadow == CallbacksWithin(compressed, dsp, logical - 5 * dsp - 2)
      {
        var physical := mapping[logical];
        if physical.Some? {
          callbackShadow := Or(callbackShadow, Pow2(physical.value));
        }
      }
    }

    var queryShadow := callbackShadow;
    if dspCount != 0 {
      PhysicalIs(compressed, 0);
      PhysicalIs(compressed, 1);
      queryShadow := Or(queryShadow, Pow2(mapping[0].value));
      queryShadow := Or(queryShadow, Pow2(mapping[1].value));
    }

    var dmaSequence := [1];
    for dsp := 0 to dspCount
      invariant dmaSequence == DmaSequence(dsp)
    {
      DmaStep(dsp);
      dmaSequence := dmaSequence + [Or(dmaSequence[|dmaSequence| - 1], Pow2(dsp + 1))];
    }
    p := Profile(modern, dspCount, family, compressed, extended, audio, mapping, callbackShadow,
                 queryShadow, dmaSequence);
  }

  lemma MappingStep(compressed: bool, count: nat)
    ensures Mapping(compressed, 0) == []
    ensures Mapping(compressed, count + 1) == Mapping(compressed, count) + [Physical(compressed, count)]
  {}

  lemma DmaStep(n: nat)
    ensures DmaSequence(0) == [1]
    ensures DmaSequence(n + 1) == DmaSequence(n) + [Or(DmaSequence(n)[n], Pow2(n + 1))]
  {
    hide Or, Pow2;
  }

  lemma PhysicalIs(compressed: bool, logical: nat)
    ensures Physical(compressed, logical) ==
            if compressed then
              if logical % 5 == 4 then None else Some(logical / 5 * 4 + logical % 5)
            else Some(logical)
  {}

  /** The callback lines of the DSPs before `dsp` and the first k of its own. */
  function CallbacksWithin(compressed: bool, dsp: nat, k: nat): nat {
    if k == 0 then Callbacks(compressed, dsp)
    else WithLine(CallbacksWithin(compressed, dsp, k - 1), Physical(compressed, 5 * dsp + 1 + k))
  }

  lemma CallbackStep(compressed: bool, dsp: nat)
    ensures Callbacks(compressed, 0) == 0
    ensures CallbacksWithin(compressed, dsp, 0) == Callbacks(compressed, dsp)
    ensures CallbacksWithin(compressed, dsp, 3) == Callbacks(compressed, dsp + 1)
  {
    hide Or, Pow2, Physical;
    assert CallbacksWithin(compressed, dsp, 1)
        == WithLine(Callbacks(compressed, dsp), Physical(compressed, 5 * dsp + 2));
    assert CallbacksWithin(compressed, dsp, 2)
        == WithLine(CallbacksWithin(compressed, dsp, 1), Physical(compressed, 5 * dsp + 3));
  }

  // ---------- closed forms ----------

  lemma Doubles(n: nat)
    ensures Pow2(n + 1) == 2 * Pow2(n) && Pow2(n + 2) == 4 * Pow2(n) && Pow2(n + 3) == 8 * Pow2(n)
    ensures Pow2(n + 4) == 16 * Pow2(n) && Pow2(n + 5) == 32 * Pow2(n)
  {
    assert Pow2(n + 3) == 2 * Pow2(n + 2);
    assert Pow2(n + 5) == 2 * Pow2(n + 4);
  }

  lemma Lines(compressed: bool, dsp: nat)
    ensures var base := if compressed then 4 * dsp else 5 * dsp;
            && Physical(compressed, 5 * dsp + 2) == Some(base + 2)
            && Physical(compressed, 5 * dsp + 3) == Some(base + 3)
            && Physical(compressed, 5 * dsp + 4) == if compressed then None else Some(base + 4)
  {
    assert (5 * dsp + 2) / 5 == dsp && (5 * dsp + 3) / 5 == dsp;
    assert (5 * dsp + 2) % 5 == 2 && (5 * dsp + 3) % 5 == 3 && (5 * dsp + 4) % 5 == 4;
  }

  lemma GroupBits(shadow: nat, base: nat)
    requires shadow < Pow2(base)
    ensures Or(Or(shadow, Pow2(base + 2)), Pow2(base + 3)) == shadow + 12 * Pow2(base)
    ensures Or(shadow + 12 * Pow2(base), Pow2(base + 4)) == shadow + 28 * Pow2(base)
  {
    Doubles(base);
    hide Or, Pow2, Bit;
    BitsBelow(shadow, base, base + 2);
    OrClearBit(shadow, base + 2);
    BitsBelow(shadow + Pow2(base + 2), base + 3, base + 3);
    OrClearBit(shadow + Pow2(base + 2), base + 3);
    BitsBelow(shadow + 12 * Pow2(base), base + 4, base + 4);
    OrClearBit(shadow + 12 * Pow2(base), base + 4);
  }

  lemma CallbacksOfOne(compressed: bool, shadow: nat, dsp: nat)
    requires Below(compressed, dsp, shadow)
    ensures WithCallbacks(compressed, shadow, dsp) ==
            shadow + if compressed then 12 * Pow2(4 * dsp) else 28 * Pow2(5 * dsp)
  {
    hide Or, Pow2, Physical;
    Lines(compressed, dsp);
    GroupBits(shadow, if compressed then 4 * dsp else 5 * dsp);
  }

  /** Below which power of two the lines of n DSPs lie. */
  predicate Below(compressed: bool, n: nat, shadow: nat) {
    if compressed then shadow < Pow2(4 * n) else shadow < Pow2(5 * n)
  }

  /** The callback shadow in closed form, for every DSP count and both mappings. */
  lemma {:induction false} CallbackMask(compressed: bool, n: nat)
    ensures compressed ==> 15 * Callbacks(compressed, n) == 12 * (Pow2(4 * n) - 1)
    ensures !compressed ==> 31 * Callbacks(compressed, n) == 28 * (Pow2(5 * n) - 1)
    ensures Below(compressed, n, Callbacks(compressed, n))
  {
    NoCallbacks(compressed);
    hide Pow2, Callbacks;
    if n > 0 {
      CallbackMask(compressed, n - 1);
      NextMask(compressed, n - 1);
    }
  }

  lemma NextMask(compressed: bool, m: nat)
    requires Below(compressed, m, Callbacks(compressed, m))
    ensures compressed ==>
              Callbacks(compressed, m + 1) == Callbacks(compressed, m) + 12 * Pow2(4 * m)
              && Pow2(4 * (m + 1)) == 16 * Pow2(4 * m)
    ensures !compressed ==>
              Callbacks(compressed, m + 1) == Callbacks(compressed, m) + 28 * Pow2(5 * m)
              && Pow2(5 * (m + 1)) == 32 * Pow2(5 * m)
  {
    assert Callbacks(compressed, m + 1) == WithCallbacks(compressed, Callbacks(compressed, m), m);
    hide Pow2, WithCallbacks, Callbacks;
    CallbacksOfOne(compressed, Callbacks(compressed, m), m);
    Doubles(4 * m);
    Doubles(5 * m);
    assert 4 * (m + 1) == 4 * m + 4 && 5 * (m + 1) == 5 * m + 5;
  }

  lemma {:induction false} CallbacksDivide(compressed: bool, n: nat)
    ensures Callbacks(compressed, n) % 4 == 0
  {
    NoCallbacks(compressed);
    hide Pow2, Callbacks;
    if n > 0 {
      CallbacksDivide(compressed, n - 1);
      CallbackMask(compressed, n - 1);
      NextMask(compressed, n - 1);
      StaysMultiple(Callbacks(compressed, n - 1), 3 * Pow2(4 * (n - 1)));
      StaysMultiple(Callbacks(compressed, n - 1), 7 * Pow2(5 * (n - 1)));
    }
  }

  lemma StaysMultiple(x: nat, y: nat)
    requires x % 4 == 0
    ensures (x + 4 * y) % 4 == 0
  {}

  lemma NoCallbacks(compressed: bool)
    ensures Callbacks(compressed, 0) == 0 && Pow2(0) == 1 && Pow2(1) == 2
  {}

  /** The query shadow adds the first two lines and nothing else. */
  lemma QueryMask(compressed: bool, n: nat)
    ensures QueryLines(compressed, n) == if n == 0 then 0 else Callbacks(compressed, n) + 3
  {
    NoCallbacks(compressed);
    hide Callbacks, Pow2, Or, Physical;
    if n > 0 {
      CallbacksDivide(compressed, n);
      PhysicalIs(compressed, 0);
      PhysicalIs(compressed, 1);
      LowLines(Callbacks(compressed, n) / 4);
    }
  }

  lemma OrStep(a: nat, b: nat, x: nat, y: nat)
    requires a / 2 == x && b / 2 == y && a + b > 0
    ensures Or(a, b) == 2 * Or(x, y) + if a % 2 == 1 || b % 2 == 1 then 1 else 0
  {}

  lemma LowLines(q: nat)
    ensures Or(Or(4 * q, 1), 2) == 4 * q + 3
  {
    hide Or;
    OrZero(2 * q);
    OrZero(q);
    OrStep(4 * q, 1, 2 * q, 0);
    OrStep(2 * q, 1, q, 0);
    OrStep(4 * q + 1, 2, 2 * q, 1);
  }

  /** After DSP d the DMA shadow enables the common engine and DSPs 0 to d. */
  lemma {:induction false} DmaShadow(n: nat, k: nat)
    requires k <= n
    ensures DmaSequence(n)[k] == Pow2(k + 1) - 1
  {
    if k < n {
      DmaShadow(n - 1, k);
    } else if n > 0 {
      DmaShadow(n - 1, n - 1);
      hide Or, Pow2, Bit;
      BitsBelow(Pow2(n) - 1, n, n);
      OrClearBit(Pow2(n) - 1, n);
      Doubles(n);
    } else {
      assert Pow2(1) == 2;
    }
  }

  // ---------- the eight-DSP device ----------

  const CALLBACK_SHADOW: nat := 0xcccccccc
  const RESPONSE_SHADOW: nat := 0xccccccce
  const QUERY_SHADOW: nat := 0xcccccccf

  /** The constants of the query probe and of the driver are the derived values for
      the device they insist on. */
  lemma EightDsps()
    ensures DspCount(Machine.EXPECTED_FPGA_REVISION, Machine.EXPECTED_CAPABILITIES) == Machine.DSP_COUNT
    ensures Compressed(Machine.EXPECTED_FPGA_REVISION, Machine.EXPECTED_CAPABILITIES)
    ensures Callbacks(true, Machine.DSP_COUNT) == CALLBACK_SHADOW
    ensures QueryLines(true, Machine.DSP_COUNT) == QUERY_SHADOW
    ensures DmaSequence(Machine.DSP_COUNT)[Machine.DSP_COUNT] == Machine.DMA_ALL_DSPS
  {
    hide Callbacks, QueryLines, DmaSequence, Pow2;
    CallbackMask(true, 8);
    QueryMask(true, 8);
    DmaShadow(8, 8);
    HalfWordPowers();
    Doubles(31);
    NoCallbacks(true);
    Doubles(1);
    Doubles(5);
    Pow2Sum(5, 4);
  }

  /** The interrupt shadow once the first k DSPs have been sent their connect
      command. */
  function ConnectShadow(k: nat): nat {
    if k == 0 then CALLBACK_SHADOW else Or(ConnectShadow(k - 1), Pow2(4 * (k - 1)))
  }

  function ConnectWrites(k: nat): (s: seq<nat>)
    ensures |s| == k
  {
    if k == 0 then [] else ConnectWrites(k - 1) + [ConnectShadow(k)]
  }

  lemma {:induction false} ConnectWriteAt(k: nat, d: nat)
    requires d < k
    ensures ConnectWrites(k)[d] == ConnectShadow(d + 1)
  {
    hide ConnectShadow;
    if d < k - 1 {
      ConnectWriteAt(k - 1, d);
    }
  }

  method ConnectAll() returns (shadow: nat, writes: seq<nat>)
    ensures shadow == ConnectShadow(Machine.DSP_COUNT) && writes == ConnectWrites(Machine.DSP_COUNT)
  {
    hide Or, Pow2;
    writes := [];
    shadow := CALLBACK_SHADOW;
    for dsp := 0 to Machine.DSP_COUNT
      invariant shadow == ConnectShadow(dsp) && writes == ConnectWrites(dsp)
    {
      var physicalCommandBit := Pow2(dsp * 4);
      shadow := Or(shadow, physicalCommandBit);
      writes := writes + [shadow];
    }
  }

  /** The values written to the interrupt enable register by one query. */
  method InterruptWrites(connectFirst: bool, connectConsumed: bool) returns (writes: seq<nat>)
    ensures !connectFirst ==> writes == [CALLBACK_SHADOW + 2, QueryLines(true, Machine.DSP_COUNT)]
    ensures connectFirst ==>
              var s := ConnectShadow(Machine.DSP_COUNT);
              writes == ConnectWrites(Machine.DSP_COUNT) + [s]
                        + if connectConsumed then [Or(s, 2), Or(Or(s, 2), 1)] else []
  {
    hide Or, QueryLines, ConnectShadow, ConnectWrites;
    EightDsps();
    writes := [];
    var shadow := CALLBACK_SHADOW;
    if connectFirst {
      shadow, writes := ConnectAll();
      writes := writes + [shadow];
      if !connectConsumed {
        return;
      }
    }
    shadow := Or(shadow, 2);
    writes := writes + [if connectFirst then shadow else RESPONSE_SHADOW];
    shadow := Or(shadow, 1);
    writes := writes + [if connectFirst then shadow else QUERY_SHADOW];
  }

  /** Connecting sets the command line of each DSP in turn, the one the compressed
      mapping gives to its first vector, and clears none. */
  lemma {:induction false} ConnectLines(k: nat, line: nat)
    ensures Bit(ConnectShadow(k), line) <==>
            Bit(CALLBACK_SHADOW, line) || exists dsp :: 0 <= dsp < k && CommandLineOf(dsp) == line
  {
    hide Bit, Pow2, Or, Physical;
    if k > 0 {
      ConnectLines(k - 1, line);
      BitOr(ConnectShadow(k - 1), Pow2(4 * (k - 1)), line);
      BitPow2(4 * (k - 1), line);
      assert CommandLineOf(k - 1) == 4 * (k - 1);
    }
  }

  /** The line of a DSP's command vector, its first. */
  function CommandLineOf(dsp: nat): (line: nat)
    ensures Physical(true, 5 * dsp) == Some(line)
  {
    4 * dsp
  }

  /** What the d-th connect write enables: the callback lines and the command lines
      of DSPs 0 to d, no others. */
  lemma ConnectWriteLines(k: nat, d: nat, line: nat)
    requires d < k
    ensures Bit(ConnectWrites(k)[d], line) <==>
            Bit(CALLBACK_SHADOW, line) || exists dsp :: 0 <= dsp <= d && CommandLineOf(dsp) == line
  {
    hide Bit, ConnectShadow, ConnectWrites;
    ConnectWriteAt(k, d);
    ConnectLines(d + 1, line);
  }

  /** A query behind a connect leaves the query lines of the first DSP and the
      command lines of all enabled. */
  lemma QueryAfterConnect(line: nat)
    ensures Bit(Or(Or(ConnectShadow(Machine.DSP_COUNT), 2), 1), line) <==>
            Bit(QueryLines(true, Machine.DSP_COUNT), line) || Bit(ConnectShadow(Machine.DSP_COUNT), line)
  {
    QueryBits(line);
    hide Bit, Or, Pow2, ConnectShadow, QueryLines;
    var s := ConnectShadow(Machine.DSP_COUNT);
    BitOr(Or(s, 2), 1, line);
    BitOr(s, 2, line);
    ConnectLines(Machine.DSP_COUNT, line);
  }

  lemma QueryBits(line: nat)
    ensures Bit(QueryLines(true, Machine.DSP_COUNT), line) <==>
            Bit(CALLBACK_SHADOW, line) || Bit(1, line) || Bit(2, line)
  {
    hide Bit, Or, Pow2, Callbacks;
    NoCallbacks(true);
    PhysicalIs(true, 0);
    PhysicalIs(true, 1);
    EightDsps();
    BitOr(Or(CALLBACK_SHADOW, 1), 2, line);
    BitOr(CALLBACK_SHADOW, 1, line);
  }
}
