/** The file system on disk: which block holds which inodes and which bits of the bitmap, and what their bytes
    are.  Two states with the same bytes have the same files. */
module FsLayout {
  import opened Blocks
  import opened Octets
  import opened FsSpec

  const BPB: nat := 4096    // bitmap bits in one block
  const IPB: nat := 8       // inodes in one block
  const DINODE: nat := 64   // bytes of one inode on disk

  /** The parts of the superblock that fs.c uses; nmeta is the first data block. */
  datatype Super = Super(inodestart: nat, bmapstart: nat, nmeta: nat)

  /** The bitmap block that covers block b. */
  function BBlock(sb: Super, b: nat): nat {
    b / BPB + sb.bmapstart
  }

  function IBlock(sb: Super, i: nat): nat {
    i / IPB + sb.inodestart
  }

  /** The state of the file system, with the inodes as iupdate has written them. */
  datatype Volume = Volume(fs: Fs, dinodes: map<nat, Inode>)

  /** The inode fits the fields of struct dinode. */
  predicate Small(ip: Inode) {
    ip.kind < 0x8000 && ip.nlink < 0x8000 && ip.ref == 0 && ip.size < 0x8000_0000 && |ip.addrs| == 13
  }

  /** There is a place on disk for every inode and every bit, and the regions lie one behind the other. */
  ghost predicate Laid(sb: Super, v: Volume, ninodes: nat) {
    && (forall i: nat :: i in v.dinodes <==> i < ninodes) && (forall i :: i in v.dinodes ==> Small(v.dinodes[i]))
    && |v.fs.bitmap| == |v.fs.blocks|
    && (forall i: nat :: i < ninodes ==> IBlock(sb, i) < sb.bmapstart)
    && (forall b: nat :: b < |v.fs.blocks| ==> BBlock(sb, b) < sb.nmeta)
    && sb.inodestart <= sb.bmapstart <= sb.nmeta <= |v.fs.blocks|
  }

  // ----- one inode -----

  function DinodeByte(ip: Inode, j: nat): byte
    requires Small(ip) && j < DINODE
  {
    if j == 0 then ip.kind % 0x100 else if j == 1 then ip.kind / 0x100
    else if j < 6 then 0
    else if j == 6 then ip.nlink % 0x100 else if j == 7 then ip.nlink / 0x100
    else if j < 12 then WordBytes(ip.size)[j - 8]
    else WordBytes(ip.addrs[(j - 12) / 4])[(j - 12) % 4]
  }

  function Short(lo: byte, hi: byte): nat {
    var a: nat, b: nat := lo, hi;
    a + 0x100 * b
  }

  /** The inode that the 64 bytes at offset o of a block stand for. */
  function DinodeAt(blk: FBlk, o: nat): Inode
    requires o + DINODE <= BSIZE
  {
    var size := Word(blk[o + 8..o + 12]);
    Inode(Short(blk[o], blk[o + 1]), Short(blk[o + 6], blk[o + 7]), 0, if size < 0 then 0 else size,
          seq(13, k requires 0 <= k < 13 => Word(blk[o + 12 + 4 * k..o + 16 + 4 * k])))
  }

  lemma ShortBack(v: nat)
    requires v < 0x8000
    ensures Short(v % 0x100, v / 0x100) == v
  {
  }

  lemma WordAt(blk: FBlk, at: nat, v: int32)
    requires at + 4 <= BSIZE && forall t: nat :: t < 4 ==> blk[at + t] == WordBytes(v)[t]
    ensures Word(blk[at..at + 4]) == v
  {
    assert blk[at..at + 4] == WordBytes(v);
  }

  /** The 64 bytes at offset o are those of the inode. */
  ghost predicate Encodes(ip: Inode, blk: FBlk, o: nat)
    requires Small(ip)
  {
    o + DINODE <= BSIZE && forall j: nat :: j < DINODE ==> blk[o + j] == DinodeByte(ip, j)
  }

  lemma FieldsBack(ip: Inode, blk: FBlk, o: nat)
    requires Small(ip) && Encodes(ip, blk, o)
    ensures Short(blk[o], blk[o + 1]) == ip.kind && Short(blk[o + 6], blk[o + 7]) == ip.nlink
    ensures Word(blk[o + 8..o + 12]) == ip.size
  {
    ShortBack(ip.kind);
    ShortBack(ip.nlink);
    assert blk[o + 0] == DinodeByte(ip, 0) && blk[o + 1] == DinodeByte(ip, 1);
    assert blk[o + 6] == DinodeByte(ip, 6) && blk[o + 7] == DinodeByte(ip, 7);
    hide Word, WordBytes;
    forall t: nat | t < 4
      ensures blk[o + 8 + t] == WordBytes(ip.size)[t]
    {
      assert blk[o + (8 + t)] == DinodeByte(ip, 8 + t);
    }
    WordAt(blk, o + 8, ip.size);
  }

  lemma AddrBytes(ip: Inode, k: nat)
    requires Small(ip) && k < 13
    ensures forall t: nat :: t < 4 ==> DinodeByte(ip, 12 + 4 * k + t) == WordBytes(ip.addrs[k])[t]
  {
    forall t: nat | t < 4
      ensures DinodeByte(ip, 12 + 4 * k + t) == WordBytes(ip.addrs[k])[t]
    {
      assert (4 * k + t) / 4 == k && (4 * k + t) % 4 == t;
    }
  }

  lemma AddrBack(ip: Inode, blk: FBlk, o: nat, k: nat)
    requires Small(ip) && Encodes(ip, blk, o) && k < 13
    ensures Word(blk[o + 12 + 4 * k..o + 16 + 4 * k]) == ip.addrs[k]
  {
    AddrBytes(ip, k);
    hide Word, WordBytes, DinodeByte;
    forall t: nat | t < 4
      ensures blk[o + 12 + 4 * k + t] == WordBytes(ip.addrs[k])[t]
    {
      assert blk[o + (12 + 4 * k + t)] == DinodeByte(ip, 12 + 4 * k + t);
    }
    WordAt(blk, o + 12 + 4 * k, ip.addrs[k]);
  }

  lemma DinodeBack(ip: Inode, blk: FBlk, o: nat)
    requires Small(ip) && Encodes(ip, blk, o)
    ensures DinodeAt(blk, o) == ip
  {
    FieldsBack(ip, blk, o);
    hide Word, Short, Encodes;
    var addrs := DinodeAt(blk, o).addrs;
    forall k: nat | k < 13
      ensures addrs[k] == ip.addrs[k]
    {
      AddrBack(ip, blk, o, k);
    }
    assert addrs == ip.addrs;
  }

  // ----- eight bits -----

  function Bit(x: bool): nat {
    if x then 1 else 0
  }

  predicate Marked(bitmap: seq<bool>, b: nat) {
    b < |bitmap| && bitmap[b]
  }

  function Two(n: nat): nat {
    if n == 0 then 1 else 2 * Two(n - 1)
  }

  /** n bits of the bitmap from block b on as a number, the lowest block in the lowest bit. */
  function Bits(bitmap: seq<bool>, b: nat, n: nat): (x: nat)
    ensures x < Two(n)
    decreases n
  {
    if n == 0 then 0 else Bit(Marked(bitmap, b)) + 2 * Bits(bitmap, b + 1, n - 1)
  }

  lemma EightBits()
    ensures Two(8) == 0x100
  {
  }

  /** Byte j of the n-th bitmap block. */
  function MapByte(bitmap: seq<bool>, n: nat, j: nat): byte
    requires j < BSIZE
  {
    EightBits();
    Bits(bitmap, 8 * (BSIZE * n + j), 8)
  }

  function BitOf(x: nat, t: nat): nat {
    if t == 0 then x % 2 else BitOf(x / 2, t - 1)
  }

  lemma {:induction false} BitBack(bitmap: seq<bool>, b: nat, n: nat, t: nat)
    requires t < n
    ensures BitOf(Bits(bitmap, b, n), t) == Bit(Marked(bitmap, b + t))
    decreases n
  {
    var rest := Bits(bitmap, b + 1, n - 1);
    assert Bits(bitmap, b, n) / 2 == rest;
    if t > 0 { BitBack(bitmap, b + 1, n - 1, t - 1); }
  }

  lemma {:induction false} BitsSame(bitmap: seq<bool>, other: seq<bool>, b: nat, n: nat)
    requires forall c: nat :: b <= c < b + n ==> Marked(bitmap, c) == Marked(other, c)
    ensures Bits(bitmap, b, n) == Bits(other, b, n)
    decreases n
  {
    if n > 0 { BitsSame(bitmap, other, b + 1, n - 1); }
  }

  // ----- the blocks of a volume -----

  ghost predicate AllSmall(dinodes: map<nat, Inode>) {
    forall i :: i in dinodes ==> Small(dinodes[i])
  }

  ghost function InodeBlock(dinodes: map<nat, Inode>, n: nat): FBlk
    requires AllSmall(dinodes)
  {
    seq(BSIZE, j requires 0 <= j < BSIZE =>
      var i := IPB * n + j / DINODE; if i in dinodes then DinodeByte(dinodes[i], j % DINODE) else 0)
  }

  ghost function MapBlock(bitmap: seq<bool>, n: nat): FBlk {
    seq(BSIZE, j requires 0 <= j < BSIZE => MapByte(bitmap, n, j))
  }

  /** What block b of the disk holds when it stands for this state; the log lies before the inodes. */
  ghost function Img(sb: Super, v: Volume, b: nat): FBlk
    requires AllSmall(v.dinodes) && sb.inodestart <= b < |v.fs.blocks|
  {
    if b < sb.bmapstart then InodeBlock(v.dinodes, b - sb.inodestart)
    else if b < sb.nmeta then MapBlock(v.fs.bitmap, b - sb.bmapstart)
    else v.fs.blocks[b]
  }

  /** Whatever differs between the two states lies in blocks of logged. */
  ghost predicate Covered(sb: Super, v: Volume, v': Volume, logged: set<nat>) {
    && |v'.fs.blocks| == |v.fs.blocks| && |v'.fs.bitmap| == |v.fs.bitmap| && v'.dinodes.Keys == v.dinodes.Keys
    && (forall b: nat :: b < |v.fs.blocks| && v'.fs.blocks[b] != v.fs.blocks[b] ==> b in logged)
    && (forall b: nat :: b < |v.fs.bitmap| && v'.fs.bitmap[b] != v.fs.bitmap[b] ==> BBlock(sb, b) in logged)
    && forall i :: i in v.dinodes && v'.dinodes[i] != v.dinodes[i] ==> IBlock(sb, i) in logged
  }

  lemma CoveredSelf(sb: Super, v: Volume, logged: set<nat>)
    ensures Covered(sb, v, v, logged)
  {
  }

  lemma CoveredTwice(sb: Super, v: Volume, v1: Volume, v2: Volume, logged1: set<nat>, logged2: set<nat>)
    requires Covered(sb, v, v1, logged1) && Covered(sb, v1, v2, logged2) && logged1 <= logged2
    ensures Covered(sb, v, v2, logged2)
  {
    hide BBlock, IBlock;
  }

  /** The four bytes from p on as an unsigned integer. */
  function UintAt(blk: FBlk, p: nat): nat
    requires p + 4 <= BSIZE
  {
    var b0: nat, b1: nat, b2: nat, b3: nat := blk[p], blk[p + 1], blk[p + 2], blk[p + 3];
    b0 + 0x100 * b1 + 0x1_0000 * b2 + 0x100_0000 * b3
  }

  lemma UintIs(blk: FBlk, p: nat, v: int32)
    requires p + 4 <= BSIZE && forall t: nat :: t < 4 ==> blk[p + t] == WordBytes(v)[t]
    ensures UintAt(blk, p) == v % 0x1_0000_0000
  {
    BytesOf(v);
    assert blk[p + 0] == WordBytes(v)[0] && blk[p + 1] == WordBytes(v)[1];
    assert blk[p + 2] == WordBytes(v)[2] && blk[p + 3] == WordBytes(v)[3];
  }

  lemma DinodeUints(ip: Inode, blk: FBlk, o: nat)
    requires Small(ip) && Encodes(ip, blk, o)
    ensures UintAt(blk, o + 8) == ip.size
    ensures forall k: nat :: k < 13 ==> UintAt(blk, o + 12 + 4 * k) == (ip.addrs[k] as int) % 0x1_0000_0000
  {
    hide WordBytes, UintAt;
    forall t: nat | t < 4
      ensures blk[o + 8 + t] == WordBytes(ip.size)[t]
    {
      assert blk[o + (8 + t)] == DinodeByte(ip, 8 + t);
    }
    UintIs(blk, o + 8, ip.size);
    forall k: nat | k < 13
      ensures UintAt(blk, o + 12 + 4 * k) == (ip.addrs[k] as int) % 0x1_0000_0000
    {
      AddrBytes(ip, k);
      forall t: nat | t < 4
        ensures blk[o + 12 + 4 * k + t] == WordBytes(ip.addrs[k])[t]
      {
        assert blk[o + (12 + 4 * k + t)] == DinodeByte(ip, 12 + 4 * k + t);
      }
      UintIs(blk, o + 12 + 4 * k, ip.addrs[k]);
    }
  }

  /** From byte o on: type, two numbers for devices, links, size and thirteen addresses, the least significant byte
      first. */
  predicate DinodeBytes(ip: Inode, blk: FBlk, o: nat)
    requires o + 64 <= BSIZE && |ip.addrs| == 13
  {
    var k0: nat, k1: nat, n0: nat, n1: nat := blk[o], blk[o + 1], blk[o + 6], blk[o + 7];
    && ip.kind == k0 + 0x100 * k1 && ip.nlink == n0 + 0x100 * n1
    && blk[o + 2] == blk[o + 3] == blk[o + 4] == blk[o + 5] == 0
    && UintAt(blk, o + 8) == ip.size
    && forall k: nat :: k < 13 ==> UintAt(blk, o + 12 + 4 * k) == (ip.addrs[k] as int) % 0x1_0000_0000
  }

  lemma DinodeIs(ip: Inode, blk: FBlk, o: nat)
    requires Small(ip) && Encodes(ip, blk, o)
    ensures DinodeBytes(ip, blk, o)
  {
    DinodeUints(ip, blk, o);
    hide UintAt;
    assert blk[o + 0] == DinodeByte(ip, 0) && blk[o + 1] == DinodeByte(ip, 1);
    assert blk[o + 2] == DinodeByte(ip, 2) && blk[o + 3] == DinodeByte(ip, 3);
    assert blk[o + 4] == DinodeByte(ip, 4) && blk[o + 5] == DinodeByte(ip, 5);
    assert blk[o + 6] == DinodeByte(ip, 6) && blk[o + 7] == DinodeByte(ip, 7);
  }

  lemma EncodedAt(dinodes: map<nat, Inode>, i: nat)
    requires AllSmall(dinodes) && i in dinodes
    ensures Encodes(dinodes[i], InodeBlock(dinodes, i / IPB), i % IPB * DINODE)
  {
    var blk, o := InodeBlock(dinodes, i / IPB), i % IPB * DINODE;
    hide DinodeByte;
    forall j: nat | j < DINODE
      ensures blk[o + j] == DinodeByte(dinodes[i], j)
    {
      assert (o + j) / DINODE == i % IPB && (o + j) % DINODE == j;
    }
  }

  /** Inode i is at byte 64 * (i % 8) of its block. */
  lemma DinodeOnDisk(sb: Super, v: Volume, ninodes: nat, i: nat)
    requires Laid(sb, v, ninodes) && i in v.dinodes
    ensures AllSmall(v.dinodes) && sb.inodestart <= i / 8 + sb.inodestart < |v.fs.blocks| && |v.dinodes[i].addrs| == 13
    ensures DinodeBytes(v.dinodes[i], Img(sb, v, i / 8 + sb.inodestart), 64 * (i % 8))
  {
    assert IBlock(sb, i) < sb.bmapstart && Small(v.dinodes[i]);
    hide DinodeByte, DinodeBytes, Encodes, InodeBlock;
    EncodedAt(v.dinodes, i);
    DinodeIs(v.dinodes[i], InodeBlock(v.dinodes, i / IPB), i % IPB * DINODE);
  }

  lemma EighthBit(x: nat, t: nat)
    requires t < 8
    ensures BitOf(x, t) == x / [1, 2, 4, 8, 16, 32, 64, 128][t] % 2
  {
  }

  lemma SplitBlockNumber(b: nat)
    ensures b % BPB / 8 < BSIZE && b == 8 * (BSIZE * (b / BPB) + b % BPB / 8) + b % 8
  {
    var r := b % BPB;
    assert b == BPB * (b / BPB) + r && r == 8 * (r / 8) + r % 8;
  }

  lemma MapByteIs(bitmap: seq<bool>, n: nat, j: nat)
    requires j < BSIZE
    ensures MapBlock(bitmap, n)[j] == Bits(bitmap, 8 * (BSIZE * n + j), 8)
  {
    hide Bits;
  }

  lemma MarkedAt(bitmap: seq<bool>, b: nat)
    ensures b % BPB / 8 < BSIZE
    ensures BitOf(MapBlock(bitmap, b / BPB)[b % BPB / 8], b % 8) == Bit(Marked(bitmap, b))
  {
    hide Bits, Marked, BitOf, MapBlock, Bit;
    SplitBlockNumber(b);
    var n, j, t := b / BPB, b % BPB / 8, b % 8;
    MapByteIs(bitmap, n, j);
    BitBack(bitmap, 8 * (BSIZE * n + j), 8, t);
  }

  /** The mark of block b is bit b % 8 of byte b / 8 of the bitmap, across its blocks. */
  lemma BitOnDisk(sb: Super, v: Volume, ninodes: nat, b: nat)
    requires Laid(sb, v, ninodes) && b < |v.fs.bitmap|
    ensures AllSmall(v.dinodes) && sb.inodestart <= b / 4096 + sb.bmapstart < |v.fs.blocks|
    ensures var x: int := Img(sb, v, b / 4096 + sb.bmapstart)[b % 4096 / 8];
      x / [1, 2, 4, 8, 16, 32, 64, 128][b % 8] % 2 == 1 <==> v.fs.bitmap[b]
  {
    assert BBlock(sb, b) < sb.nmeta;
    hide MapBlock, BitOf, InodeBlock;
    MarkedAt(v.fs.bitmap, b);
    EighthBit(MapBlock(v.fs.bitmap, b / BPB)[b % BPB / 8], b % 8);
  }

  /** The bitmap blocks that hold the bits in which the two bitmaps differ. */
  ghost function MapItems(sb: Super, m: seq<bool>, m': seq<bool>): set<nat>
    requires |m'| == |m|
  {
    set b: nat | b < |m| && m'[b] != m[b] :: BBlock(sb, b)
  }

  lemma NoBit(sb: Super, m: seq<bool>)
    ensures MapItems(sb, m, m) == {}
  {
  }

  lemma OneMoreBit(sb: Super, m: seq<bool>, m': seq<bool>, b: nat)
    requires |m'| == |m| && b < |m| && m'[b] == m[b]
    ensures MapItems(sb, m, m'[b := !m'[b]]) == MapItems(sb, m, m') + {BBlock(sb, b)}
  {
    var was, now := MapItems(sb, m, m'), MapItems(sb, m, m'[b := !m'[b]]);
    hide BBlock;
    forall x
      ensures x in now <==> x in was || x == BBlock(sb, b)
    {
      if x in now {
        var c: nat :| c < |m| && m'[b := !m'[b]][c] != m[c] && BBlock(sb, c) == x;
        assert c == b || m'[c] != m[c];
      }
      if x in was {
        var c: nat :| c < |m| && m'[c] != m[c] && BBlock(sb, c) == x;
        assert m'[b := !m'[b]][c] != m[c];
      }
      if x == BBlock(sb, b) { assert m'[b := !m'[b]][b] != m[b]; }
    }
  }

  /** Clearing bits and writing one inode: all of it lies in these blocks. */
  lemma FreedCovered(sb: Super, v: Volume, v': Volume, i: nat, logged: set<nat>)
    requires v'.fs.blocks == v.fs.blocks && |v'.fs.bitmap| == |v.fs.bitmap|
    requires i in v.dinodes && i in v'.dinodes && v'.dinodes == v.dinodes[i := v'.dinodes[i]]
    requires MapItems(sb, v.fs.bitmap, v'.fs.bitmap) + {IBlock(sb, i)} <= logged
    ensures Covered(sb, v, v', logged)
  {
    hide IBlock, BBlock;
    forall b: nat | b < |v.fs.bitmap| && v'.fs.bitmap[b] != v.fs.bitmap[b]
      ensures BBlock(sb, b) in logged
    {
      assert BBlock(sb, b) in MapItems(sb, v.fs.bitmap, v'.fs.bitmap);
    }
  }

  lemma InodesSame(sb: Super, v: Volume, v': Volume, logged: set<nat>, n: nat)
    requires Covered(sb, v, v', logged) && AllSmall(v.dinodes) && AllSmall(v'.dinodes) && n + sb.inodestart !in logged
    ensures InodeBlock(v'.dinodes, n) == InodeBlock(v.dinodes, n)
  {
    var x, y := InodeBlock(v'.dinodes, n), InodeBlock(v.dinodes, n);
    hide DinodeByte;
    forall j | 0 <= j < BSIZE
      ensures x[j] == y[j]
    {
      var i := IPB * n + j / DINODE;
      assert IBlock(sb, i) == n + sb.inodestart;
    }
  }

  lemma SameBitAt(sb: Super, v: Volume, v': Volume, logged: set<nat>, n: nat, c: nat)
    requires Covered(sb, v, v', logged) && n + sb.bmapstart !in logged && c / BPB == n
    ensures Marked(v'.fs.bitmap, c) == Marked(v.fs.bitmap, c)
  {
    assert BBlock(sb, c) == n + sb.bmapstart;
  }

  lemma MapSame(sb: Super, v: Volume, v': Volume, logged: set<nat>, n: nat)
    requires Covered(sb, v, v', logged) && n + sb.bmapstart !in logged
    ensures MapBlock(v'.fs.bitmap, n) == MapBlock(v.fs.bitmap, n)
  {
    var x, y := MapBlock(v'.fs.bitmap, n), MapBlock(v.fs.bitmap, n);
    hide Bits, Marked;
    forall j | 0 <= j < BSIZE
      ensures x[j] == y[j]
    {
      var b := 8 * (BSIZE * n + j);
      forall c: nat | b <= c < b + 8
        ensures Marked(v'.fs.bitmap, c) == Marked(v.fs.bitmap, c)
      {
        SameBitAt(sb, v, v', logged, n, c);
      }
      BitsSame(v'.fs.bitmap, v.fs.bitmap, b, 8);
    }
  }

  /** A block outside logged holds the same bytes in both states. */
  lemma CoveredImg(sb: Super, v: Volume, v': Volume, logged: set<nat>, b: nat)
    requires Covered(sb, v, v', logged) && AllSmall(v.dinodes) && AllSmall(v'.dinodes)
    requires sb.inodestart <= b < |v.fs.blocks| && b !in logged && sb.inodestart <= sb.bmapstart
    ensures Img(sb, v', b) == Img(sb, v, b)
  {
    if b < sb.bmapstart {
      InodesSame(sb, v, v', logged, b - sb.inodestart);
    } else if b < sb.nmeta {
      MapSame(sb, v, v', logged, b - sb.bmapstart);
    }
  }

  // ----- what the bytes mean -----

  /** On disk the two states are the same. */
  ghost predicate SameBytes(sb: Super, v: Volume, v': Volume) {
    && AllSmall(v.dinodes) && AllSmall(v'.dinodes) && |v'.fs.blocks| == |v.fs.blocks|
    && forall b: nat :: sb.inodestart <= b < |v.fs.blocks| ==> Img(sb, v', b) == Img(sb, v, b)
  }

  lemma SameInode(sb: Super, v: Volume, v': Volume, ninodes: nat, i: nat)
    requires Laid(sb, v, ninodes) && Laid(sb, v', ninodes) && SameBytes(sb, v, v') && i in v.dinodes
    ensures i in v'.dinodes && v'.dinodes[i] == v.dinodes[i]
  {
    hide Encodes, InodeBlock, MapBlock, DinodeByte;
    assert Img(sb, v', IBlock(sb, i)) == Img(sb, v, IBlock(sb, i));
    EncodedAt(v.dinodes, i);
    EncodedAt(v'.dinodes, i);
    DinodeBack(v.dinodes[i], InodeBlock(v.dinodes, i / IPB), i % IPB * DINODE);
    DinodeBack(v'.dinodes[i], InodeBlock(v'.dinodes, i / IPB), i % IPB * DINODE);
  }

  lemma SameMark(sb: Super, v: Volume, v': Volume, ninodes: nat, b: nat)
    requires Laid(sb, v, ninodes) && Laid(sb, v', ninodes) && SameBytes(sb, v, v') && b < |v.fs.bitmap|
    ensures v'.fs.bitmap[b] == v.fs.bitmap[b]
  {
    hide InodeBlock, MapBlock, BitOf;
    assert Img(sb, v', BBlock(sb, b)) == Img(sb, v, BBlock(sb, b));
    MarkedAt(v.fs.bitmap, b);
    MarkedAt(v'.fs.bitmap, b);
  }

  /** The bytes on disk determine the inodes, the bitmap and the data blocks. */
  lemma OneMeaning(sb: Super, v: Volume, v': Volume, ninodes: nat)
    requires Laid(sb, v, ninodes) && Laid(sb, v', ninodes) && SameBytes(sb, v, v')
    ensures v'.dinodes == v.dinodes && v'.fs.bitmap == v.fs.bitmap
              && v'.fs.blocks[sb.nmeta..] == v.fs.blocks[sb.nmeta..]
  {
    forall i | i in v.dinodes
      ensures i in v'.dinodes && v'.dinodes[i] == v.dinodes[i]
    {
      SameInode(sb, v, v', ninodes, i);
    }
    forall b: nat | b < |v.fs.bitmap|
      ensures v'.fs.bitmap[b] == v.fs.bitmap[b]
    {
      SameMark(sb, v, v', ninodes, b);
    }
    forall b: nat | sb.nmeta <= b < |v.fs.blocks|
      ensures v'.fs.blocks[b] == v.fs.blocks[b]
    {
      assert Img(sb, v', b) == Img(sb, v, b);
    }
  }
}
