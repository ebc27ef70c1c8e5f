/** Bytes and the fixed-width integers packed into them. */
module Bytes {
  import opened Common

  type Byte = b: nat | b < 256

  type Strings = seq<seq<Byte>>

  type Half = h: nat | h < 0x10000

  /** The number with the given base-256 digits, least significant first. */
  function FromDigits(a: nat, b: nat, c: nat, d: nat): nat {
    a + 256 * (b + 256 * (c + 256 * d))
  }

  function LE32(w: Word): (b: seq<Byte>)
    ensures |b| == 4
  {
    [w % 256, w / 256 % 256, w / 256 / 256 % 256, w / 256 / 256 / 256]
  }

  function FromLE32(b: seq<Byte>): Word
    requires |b| == 4
  {
    FromDigits(b[0], b[1], b[2], b[3])
  }

  function BE32(w: Word): (b: seq<Byte>)
    ensures |b| == 4
  {
    [w / 256 / 256 / 256, w / 256 / 256 % 256, w / 256 % 256, w % 256]
  }

  function FromBE32(b: seq<Byte>): Word
    requires |b| == 4
  {
    FromDigits(b[3], b[2], b[1], b[0])
  }

  function LE16(h: Half): (b: seq<Byte>)
    ensures |b| == 2
  {
    [h % 256, h / 256]
  }

  function FromLE16(b: seq<Byte>): Half
    requires |b| == 2
  {
    FromDigits(b[0], b[1], 0, 0)
  }

  lemma Digits(a: Byte, b: Byte, c: Byte, d: Byte)
    ensures LE32(FromDigits(a, b, c, d)) == [a, b, c, d]
  {
    var w := FromDigits(a, b, c, d);
    assert w / 256 == b + 256 * (c + 256 * d);
    assert w / 256 / 256 == c + 256 * d;
  }

  lemma WordBytes(b: seq<Byte>)
    requires |b| == 4
    ensures BE32(FromBE32(b)) == b && LE32(FromLE32(b)) == b
  {
    Digits(b[0], b[1], b[2], b[3]);
    Digits(b[3], b[2], b[1], b[0]);
    var w := FromBE32(b);
    assert LE32(w) == [b[3], b[2], b[1], b[0]];
    assert forall i :: 0 <= i < 4 ==> BE32(w)[i] == LE32(w)[3 - i] == b[i];
  }

  lemma Words(w: Word)
    ensures FromBE32(BE32(w)) == w && FromLE32(LE32(w)) == w
  {}

  lemma Halves(h: Half)
    ensures FromLE16(LE16(h)) == h
  {}

  lemma HalfBytes(b: seq<Byte>)
    requires |b| == 2
    ensures LE16(FromLE16(b)) == b
  {}
}
