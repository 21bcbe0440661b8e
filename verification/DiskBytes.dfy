/** Raw access to a disk image: an array of bytes read and written in place, seen as blocks of
    BLOCK_SZ bytes and, inside a block, as little-endian 32-bit integers. */
module DiskBytes {
  import opened Octets

  const BLOCK_SZ: nat := 1024
  const ENTRIES: nat := 256

  const MAXBLOCKS: nat := 0x1f_ffff  // one block more, and the size in bytes is no int

  type Blk = s: seq<byte> | |s| == BLOCK_SZ witness seq(BLOCK_SZ, i => 0)

  function ZeroBlk(): Blk {
    seq(BLOCK_SZ, i => 0)
  }

  // ----- integers -----

  function Entry(b: Blk, k: int): int32
    requires 0 <= k < ENTRIES
  {
    Word(b[4 * k..4 * k + 4])
  }

  function PutEntry(b: Blk, k: int, v: int32): Blk
    requires 0 <= k < ENTRIES
  {
    b[..4 * k] + WordBytes(v) + b[4 * k + 4..]
  }

  lemma EntryAfterPut(b: Blk, k: nat, v: int32)
    requires k < ENTRIES
    ensures Entry(PutEntry(b, k, v), k) == v
    ensures forall j :: 0 <= j < ENTRIES && j != k ==> Entry(PutEntry(b, k, v), j) == Entry(b, j)
  {
    var b' := PutEntry(b, k, v);
    assert b'[4 * k..4 * k + 4] == WordBytes(v);
    forall j | 0 <= j < ENTRIES && j != k
      ensures Entry(b', j) == Entry(b, j)
    {
      assert b'[4 * j..4 * j + 4] == b[4 * j..4 * j + 4];
    }
  }

  lemma ZeroEntries()
    ensures forall j :: 0 <= j < ENTRIES ==> Entry(ZeroBlk(), j) == 0
  {
  }

  // ----- the image as a sequence of blocks -----

  ghost predicate IsImage(raw: array<byte>, n: nat) {
    raw.Length == n * BLOCK_SZ && n <= MAXBLOCKS
  }

  ghost function BlockAt(raw: array<byte>, b: nat): Blk
    requires (b + 1) * BLOCK_SZ <= raw.Length
    reads raw
  {
    raw[b * BLOCK_SZ..(b + 1) * BLOCK_SZ]
  }

  ghost function View(raw: array<byte>, n: nat): (v: seq<Blk>)
    requires IsImage(raw, n)
    ensures |v| == n
    reads raw
  {
    seq(n, b requires 0 <= b < n reads raw => BlockAt(raw, b))
  }

  /** read_int at word k of block b. */
  method ReadInt(raw: array<byte>, n: nat, b: nat, k: nat) returns (v: int32)
    requires IsImage(raw, n) && b < n && k < ENTRIES
    ensures v == Entry(View(raw, n)[b], k)
    ensures var p := b * 1024 + 4 * k;
      var b0: int, b1: int, b2: int, b3: int := raw[p], raw[p + 1], raw[p + 2], raw[p + 3];
      v % 0x1_0000_0000 == b0 + 0x100 * b1 + 0x1_0000 * b2 + 0x100_0000 * b3
  {
    var p := b * BLOCK_SZ + 4 * k;
    v := Word([raw[p], raw[p + 1], raw[p + 2], raw[p + 3]]);
    assert BlockAt(raw, b)[4 * k..4 * k + 4] == [raw[p], raw[p + 1], raw[p + 2], raw[p + 3]];
  }

  lemma OthersUntouched(before: seq<Blk>, raw: array<byte>, n: nat, b: nat, blk: Blk, was: seq<byte>)
    requires IsImage(raw, n) && b < n && |before| == n && |was| == raw.Length
    requires forall c :: 0 <= c < n ==> before[c] == was[c * BLOCK_SZ..(c + 1) * BLOCK_SZ]
    requires forall i :: 0 <= i < raw.Length && !(b * BLOCK_SZ <= i < (b + 1) * BLOCK_SZ) ==> raw[i] == was[i]
    requires BlockAt(raw, b) == blk
    ensures View(raw, n) == before[b := blk]
  {
    forall c | 0 <= c < n
      ensures View(raw, n)[c] == before[b := blk][c]
    {
      if c != b {
        assert c * BLOCK_SZ + BLOCK_SZ <= b * BLOCK_SZ || (b + 1) * BLOCK_SZ <= c * BLOCK_SZ;
        assert BlockAt(raw, c) == was[c * BLOCK_SZ..(c + 1) * BLOCK_SZ];
      }
    }
  }

  /** write_int at word k of block b. */
  method WriteInt(raw: array<byte>, n: nat, b: nat, k: nat, v: int32)
    requires IsImage(raw, n) && b < n && k < ENTRIES
    modifies raw
    ensures View(raw, n) == old(View(raw, n))[b := PutEntry(old(View(raw, n))[b], k, v)]
  {
    ghost var before, was := View(raw, n), raw[..];
    var p, w := b * BLOCK_SZ + 4 * k, WordBytes(v);
    raw[p], raw[p + 1], raw[p + 2], raw[p + 3] := w[0], w[1], w[2], w[3];
    assert BlockAt(raw, b) == PutEntry(before[b], k, v);
    OthersUntouched(before, raw, n, b, PutEntry(before[b], k, v), was);
  }

  /** memcpy of one whole block. */
  method WriteBlock(raw: array<byte>, n: nat, b: nat, buf: array<byte>)
    requires IsImage(raw, n) && b < n && buf.Length == BLOCK_SZ && buf != raw
    modifies raw
    ensures View(raw, n) == old(View(raw, n))[b := buf[..]]
  {
    ghost var before, was := View(raw, n), raw[..];
    forall i | 0 <= i < BLOCK_SZ {
      raw[b * BLOCK_SZ + i] := buf[i];
    }
    assert BlockAt(raw, b) == buf[..];
    OthersUntouched(before, raw, n, b, buf[..], was);
  }

  /** fwrite of the first k bytes of block b: the bytes are appended to the output. */
  method AppendBytes(raw: array<byte>, n: nat, b: nat, k: nat, out: seq<byte>) returns (out': seq<byte>)
    requires IsImage(raw, n) && b < n && k <= BLOCK_SZ
    ensures out' == out + View(raw, n)[b][..k]
  {
    out' := out + raw[b * BLOCK_SZ..b * BLOCK_SZ + k];
    assert raw[b * BLOCK_SZ..b * BLOCK_SZ + k] == BlockAt(raw, b)[..k];
  }
}
