/** Bytes, and 32-bit integers as four of them, the least significant byte first. */
module Octets {
  type byte = b: int | 0 <= b < 256
  type int32 = v: int | -0x8000_0000 <= v < 0x8000_0000

  function Word(b: seq<byte>): int32
    requires |b| == 4
  {
    var b0: int, b1: int, b2: int, b3: int := b[0], b[1], b[2], b[3];
    var u := b0 + 0x100 * b1 + 0x1_0000 * b2 + 0x100_0000 * b3;
    if u < 0x8000_0000 then u else u - 0x1_0000_0000
  }

  lemma SplitWord(u: nat)
    ensures u == u % 0x100 + 0x100 * (u / 0x100 % 0x100) + 0x1_0000 * (u / 0x1_0000 % 0x100)
              + 0x100_0000 * (u / 0x100_0000)
  {
    assert u / 0x1_0000 == u / 0x100 / 0x100;
    assert u / 0x100_0000 == u / 0x1_0000 / 0x100;
  }

  function WordBytes(v: int32): (b: seq<byte>)
    ensures |b| == 4 && Word(b) == v
  {
    var u := if v < 0 then v + 0x1_0000_0000 else v;
    var b: seq<byte> := [u % 0x100, u / 0x100 % 0x100, u / 0x1_0000 % 0x100, u / 0x100_0000];
    SplitWord(u);
    b
  }

  /** The four bytes of an integer, the least significant one first. */
  lemma BytesOf(v: int32)
    ensures var b := WordBytes(v);
      var b0: int, b1: int, b2: int, b3: int := b[0], b[1], b[2], b[3];
      v % 0x1_0000_0000 == b0 + 0x100 * b1 + 0x1_0000 * b2 + 0x100_0000 * b3
  {
    var b := WordBytes(v);
    var b0: int, b1: int, b2: int, b3: int := b[0], b[1], b[2], b[3];
    var u := b0 + 0x100 * b1 + 0x1_0000 * b2 + 0x100_0000 * b3;
    assert v == if u < 0x8000_0000 then u else u - 0x1_0000_0000;
  }

  /** An integer in memory, from its bytes. */
  lemma WordIs(b: seq<byte>)
    requires |b| == 4
    ensures var b0: int, b1: int, b2: int, b3: int := b[0], b[1], b[2], b[3];
      (Word(b) as int) % 0x1_0000_0000 == b0 + 0x100 * b1 + 0x1_0000 * b2 + 0x100_0000 * b3
  {
  }
}
