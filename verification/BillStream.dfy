/** The dword stream that replaces the tail of a Bill resource. */
module BillStream {
  import opened Common
  import opened Bytes
  import opened ModularPower
  import opened GeneratorPeriod

  function Complement(id: Word): Word {
    0xFFFFFFFF - id
  }

  function State(id: Word, k: nat): Word {
    if k == 0 then Complement(id) else Times(State(id, k - 1), MULTIPLIER)
  }

  function Stream(id: Word, dwords: nat): (s: seq<Byte>)
    ensures |s| == 4 * dwords
  {
    if dwords == 0 then [] else Stream(id, dwords - 1) + BE32(State(id, dwords - 1))
  }

  method ReplacementStream(id: Word, dwords: nat) returns (output: seq<Byte>)
    ensures output == Stream(id, dwords)
  {
    var value: Word := 0xFFFFFFFF - id;
    output := [];
    for i := 0 to dwords
      invariant value == State(id, i)
      invariant output == Stream(id, i)
    {
      output := output + BE32(value);
      value := (value * MULTIPLIER) % MODULUS;
    }
  }

  // ---------- the stream as powers of the multiplier ----------

  lemma {:induction false} StreamDword(id: Word, n: nat, k: nat)
    requires k < n
    ensures Stream(id, n)[4 * k..4 * k + 4] == BE32(State(id, k))
  {
    if k < n - 1 {
      StreamDword(id, n - 1, k);
      assert Stream(id, n)[4 * k..4 * k + 4] == Stream(id, n - 1)[4 * k..4 * k + 4];
    }
  }

  /** Dword k is the complemented id times 48271^k modulo 2^31 - 1; every dword
      but the first is already reduced. */
  lemma {:induction false} StateIsPower(id: Word, k: nat)
    ensures State(id, k) % MODULUS == Times(Complement(id), Power(MULTIPLIER, k))
    ensures k > 0 ==> State(id, k) < MODULUS
  {
    hide Times, Power, State;
    FirstState(id);
    if k == 0 {
      StartIsPower(Complement(id));
    } else {
      var s, g := Complement(id), Power(MULTIPLIER, k - 1);
      StateIsPower(id, k - 1);
      StateSteps(id, k);
      TimesReduces(State(id, k - 1), MULTIPLIER);
      TimesAssociates(s, g, MULTIPLIER);
    }
  }

  lemma StartIsPower(s: nat)
    ensures Times(s, Power(MULTIPLIER, 0)) == s % MODULUS
  {
    assert s * 1 == s;
  }

  lemma StateSteps(id: Word, k: nat)
    requires k > 0
    ensures State(id, k) == Times(State(id, k - 1), MULTIPLIER)
    ensures Power(MULTIPLIER, k) == Times(Power(MULTIPLIER, k - 1), MULTIPLIER)
  {}

  lemma {:induction false} StuckAtZero(id: Word, k: nat)
    requires Complement(id) % MODULUS == 0 && k > 0
    ensures State(id, k) == 0
  {
    hide State, Power;
    StateIsPower(id, k);
    TimesReduces(Complement(id), Power(MULTIPLIER, k));
    assert Times(0, Power(MULTIPLIER, k)) == 0;
  }

  /** Two reduced dwords agree exactly when their positions agree modulo the order. */
  lemma StatesAgree(id: Word, i: nat, j: nat)
    requires Complement(id) % MODULUS != 0
    requires i <= j && State(id, i) < MODULUS && State(id, j) < MODULUS
    ensures State(id, i) == State(id, j) <==> (j - i) % ORDER == 0
  {
    hide Power, Times, State;
    var t := EveryResidue(Complement(id) % MODULUS);
    StateAsPower(id, t, i);
    StateAsPower(id, t, j);
    PowersAgree(t + i, t + j);
  }

  lemma StateAsPower(id: Word, t: nat, k: nat)
    requires Power(MULTIPLIER, t) == Complement(id) % MODULUS
    ensures State(id, k) % MODULUS == Power(MULTIPLIER, t + k)
  {
    hide State, Power, Times;
    StateIsPower(id, k);
    TimesReduces(Complement(id), Power(MULTIPLIER, k));
    PowerSum(MULTIPLIER, t, k);
  }

  lemma FirstState(id: Word)
    ensures State(id, 0) == Complement(id)
  {}

  // ---------- the period ----------

  predicate Distinct(id: Word, n: nat) {
    forall i, j :: 0 <= i < j < n ==> Dword(id, n, i) != Dword(id, n, j)
  }

  function Dword(id: Word, n: nat, k: nat): seq<Byte>
    requires k < n
  {
    Stream(id, n)[4 * k..4 * k + 4]
  }

  /** How many leading dwords differ from one another. */
  function Period(id: Word): nat {
    var start := Complement(id);
    if start == 0 then 1
    else if start == MODULUS || start == 2 * MODULUS then 2
    else if start < MODULUS then ORDER
    else ORDER + 1
  }

  lemma DwordsDiffer(id: Word, n: nat, i: nat, j: nat)
    requires i < j < n
    ensures Dword(id, n, i) == Dword(id, n, j) <==> State(id, i) == State(id, j)
  {
    StreamDword(id, n, i);
    StreamDword(id, n, j);
    Words(State(id, i));
    Words(State(id, j));
  }

  lemma StatesDiffer(id: Word, i: nat, j: nat)
    requires i < j < Period(id)
    ensures State(id, i) != State(id, j)
  {
    hide State, Power, Times;
    FirstState(id);
    StateIsPower(id, j);
    StateIsPower(id, i);
    if Complement(id) % MODULUS == 0 {
      StuckAtZero(id, j);
    } else if i > 0 || Complement(id) < MODULUS {
      StatesAgree(id, i, j);
    }
  }

  /** Where the first repetition stands when the stream is longer than its period. */
  lemma FirstRepeat(id: Word) returns (i: nat, j: nat)
    ensures i < j == Period(id) && State(id, i) == State(id, j)
  {
    hide State, Power, Times;
    j := Period(id);
    FirstState(id);
    StateIsPower(id, j);
    if Complement(id) == 0 {
      i := 0;
      StuckAtZero(id, 1);
    } else if Complement(id) % MODULUS == 0 {
      i := 1;
      StuckAtZero(id, 1);
      StuckAtZero(id, 2);
    } else if Complement(id) < MODULUS {
      i := 0;
      StatesAgree(id, 0, ORDER);
    } else {
      i := 1;
      StateIsPower(id, 1);
      StatesAgree(id, 1, ORDER + 1);
    }
  }

  /** The dwords of a stream are pairwise distinct exactly up to the period. */
  lemma DistinctUpToPeriod(id: Word, n: nat)
    ensures Distinct(id, n) <==> n <= Period(id)
  {
    forall i, j | 0 <= i < j < n
      ensures Dword(id, n, i) == Dword(id, n, j) <==> State(id, i) == State(id, j)
    {
      DwordsDiffer(id, n, i, j);
    }
    if n <= Period(id) {
      forall i, j | 0 <= i < j < n
        ensures Dword(id, n, i) != Dword(id, n, j)
      {
        StatesDiffer(id, i, j);
      }
    } else {
      var i, j := FirstRepeat(id);
      assert Dword(id, n, i) == Dword(id, n, j);
    }
  }

  /** Three resource ids have a short stream; every other one yields at least
      2^31 - 2 distinct dwords. */
  lemma FullPeriod(id: Word)
    ensures (forall n: nat | n <= 2147483646 :: Distinct(id, n))
            <==> id != 0xFFFFFFFF && id != 0x80000000 && id != 0x00000001
  {
    hide Distinct;
    forall n: nat | n <= 2147483646
      ensures Distinct(id, n) <==> n <= Period(id)
    {
      DistinctUpToPeriod(id, n);
    }
    assert Distinct(id, 3) <==> 3 <= Period(id);
  }
}
