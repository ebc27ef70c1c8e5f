/** Result types and word sizes shared by every component. */
module Common {

  datatype Option<+T> = None | Some(value: T)

  datatype Result<+T, +E> = Ok(value: T) | Err(error: E)

  /** A result that continues what is already there. */
  function Prefixed<T, E>(front: seq<T>, rest: Result<seq<T>, E>): Result<seq<T>, E> {
    match rest
    case Ok(more) => Ok(front + more)
    case Err(e) => Err(e)
  }

  lemma NothingBefore<T, E>(r: Result<seq<T>, E>)
    ensures Prefixed([], r) == r
  {
    assert r.Ok? ==> [] + r.value == r.value;
  }

  const WORD_LIMIT: nat := 0x1_0000_0000

  const ADDRESS_LIMIT: nat := 0x1_0000_0000_0000_0000

  /** An unsigned 32-bit value: a register or one dword of memory. */
  type Word = n: nat | n < WORD_LIMIT

  /** A 64-bit bus address. */
  type Address = n: nat | n < ADDRESS_LIMIT

  function Low32(a: Address): Word {
    a % WORD_LIMIT
  }

  function High32(a: Address): Word {
    a / WORD_LIMIT
  }

  function Join32(low: Word, high: Word): Address {
    low + high * WORD_LIMIT
  }

  /** Splitting an address over two registers loses nothing, and two registers
      hold one address only. */
  lemma AddressRoundTrip(a: Address, low: Word, high: Word)
    ensures Join32(Low32(a), High32(a)) == a
    ensures Join32(low, high) == a <==> low == Low32(a) && high == High32(a)
  {
    assert (low + high * WORD_LIMIT) / WORD_LIMIT == high;
    assert (low + high * WORD_LIMIT) % WORD_LIMIT == low;
  }

  lemma SubSlice<T>(s: seq<T>, a: nat, b: nat, i: nat, j: nat)
    requires a <= b <= |s| && i <= j <= b - a
    ensures s[a..b][i..j] == s[a + i..a + j]
  {
    var inner, outer := s[a..b][i..j], s[a + i..a + j];
    assert |inner| == |outer|;
    forall k | 0 <= k < |inner|
      ensures inner[k] == outer[k]
    {
      assert inner[k] == s[a..b][i + k] == s[a + i + k];
    }
  }

  /** Three consecutive stretches of a sequence. */
  lemma Stretches<T>(s: seq<T>, at: nat, f: seq<T>, r: seq<T>, rest: seq<T>)
    requires at <= |s| && s[at..] == f + r + rest
    ensures |s| == at + |f| + |r| + |rest|
    ensures s[at..at + |f|] == f && s[at + |f|..at + |f| + |r|] == r && s[at + |f| + |r|..] == rest
  {
    SubSlice(s, at, |s|, 0, |f|);
    SubSlice(s, at, |s|, |f|, |f| + |r|);
    SubSlice(s, at, |s|, |f| + |r|, |s| - at);
  }

  lemma SmallQuotient(d: nat, k: int)
    requires 0 <= d * k < d
    ensures k == 0
  {}

  lemma Exact(d: nat, m: nat)
    requires d > 0
    ensures (d * m) % d == 0 && (d * m) / d == m
  {
    var x := d * m;
    var k := m - x / d;
    assert x == d * (x / d) + x % d;
    assert d * k == x % d;
    SmallQuotient(d, k);
  }
}
