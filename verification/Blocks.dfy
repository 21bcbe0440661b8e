/** The disk blocks of xv6: BSIZE bytes, or WORDS integers. */
module Blocks {
  import opened Octets

  const BSIZE: nat := 512
  const WORDS: nat := 128

  type FBlk = s: seq<byte> | |s| == BSIZE witness seq(BSIZE, i => 0)

  function ZeroFBlk(): FBlk {
    seq(BSIZE, i => 0)
  }

  /** Entry k of a block that is read as an array of uint. */
  function Ptr(b: FBlk, k: int): int
    requires 0 <= k < WORDS
  {
    Word(b[4 * k..4 * k + 4])
  }

  function PutPtr(b: FBlk, k: int, v: int32): FBlk
    requires 0 <= k < WORDS
  {
    b[..4 * k] + WordBytes(v) + b[4 * k + 4..]
  }

  lemma PtrAfterPut(b: FBlk, k: nat, v: int32, j: nat)
    requires k < WORDS && j < WORDS
    ensures Ptr(PutPtr(b, k, v), j) == if j == k then v else Ptr(b, j)
  {
    var b' := PutPtr(b, k, v);
    if j == k {
      assert b'[4 * k..4 * k + 4] == WordBytes(v);
    } else {
      assert b'[4 * j..4 * j + 4] == b[4 * j..4 * j + 4];
    }
  }

  lemma ZeroPtr(j: nat)
    requires j < WORDS
    ensures Ptr(ZeroFBlk(), j) == 0
  {
  }

  /** Entry k is the k-th group of four bytes. */
  lemma PtrIs(b: FBlk, k: nat)
    requires k < WORDS
    ensures var b0: int, b1: int, b2: int, b3: int := b[4 * k], b[4 * k + 1], b[4 * k + 2], b[4 * k + 3];
      Ptr(b, k) % 0x1_0000_0000 == b0 + 0x100 * b1 + 0x1_0000 * b2 + 0x100_0000 * b3
  {
    WordIs(b[4 * k..4 * k + 4]);
    hide Word;
  }
}
