/** balloc, bfree, bmap, readi, writei, itrunc, iput and iupdate of fs.c as code. */
module FsCode {
  import opened Collections
  import opened Blocks
  import opened Octets
  import opened FsLayout
  import opened FsSpec
  import opened FsWrite
  import opened FsSpace
  import opened FsTrunc

  const MAXOPBLOCKS: nat := 10
  const MAXWRITE: nat := 1536  // ((MAXOPBLOCKS - 1 - 1 - 2) / 2) * 512

  /** Bytes moved, return value -1, or a panic that stops the machine. */
  datatype IoResult = Moved(n: nat) | Failed | Panic

  function OnDisk(ip: Inode): Inode {
    ip.(ref := 0)
  }

  /** The inode blocks hold every inode as it is in memory; the reference count is not stored. */
  ghost predicate InSync(inodes: map<nat, Inode>, dinodes: map<nat, Inode>) {
    forall i :: i in inodes ==> i in dinodes && dinodes[i] == OnDisk(inodes[i])
  }

  lemma SyncKept(was: map<nat, Inode>, dwas: map<nat, Inode>, i: nat, inodes: map<nat, Inode>, dinodes: map<nat, Inode>)
    requires InSync(was, dwas) && i in inodes && inodes == was[i := inodes[i]]
    requires dinodes == dwas[i := OnDisk(inodes[i])] || (inodes == was && dinodes == dwas)
    ensures InSync(inodes, dinodes)
  {
  }

  lemma SyncAt(inodes: map<nat, Inode>, dinodes: map<nat, Inode>, i: nat)
    requires InSync(inodes, dinodes) && i in inodes
    ensures i in dinodes
  {
  }

  lemma SyncRef(was: map<nat, Inode>, i: nat, inodes: map<nat, Inode>, dinodes: map<nat, Inode>)
    requires InSync(was, dinodes) && i in was && i in inodes && inodes == was[i := was[i].(ref := inodes[i].ref)]
    ensures InSync(inodes, dinodes)
  {
  }

  function FreeInode(): Inode {
    Inode(0, 0, 0, 0, seq(13, i => 0))
  }

  function FreeInodes(n: nat): (m: map<nat, Inode>)
    ensures (forall i: nat :: i in m <==> i < n) && forall i :: i in m ==> m[i] == FreeInode()
  {
    if n == 0 then map[] else FreeInodes(n - 1)[n - 1 := FreeInode()]
  }

  lemma EmptyInv(s: Fs, nmeta: nat)
    requires |s.bitmap| == |s.blocks| < 0x8000_0000 && 0 < nmeta <= |s.blocks|
    requires forall b :: 0 <= b < |s.blocks| ==> (s.bitmap[b] <==> b < nmeta)
    requires forall i :: i in s.inodes ==> s.inodes[i] == FreeInode()
    ensures Inv(s, nmeta)
  {
    assert forall q: Place :: At(s, q) == 0;
  }

  lemma IndirectAddr(s: Fs, nmeta: nat, i: nat)
    requires Ownership(s, nmeta) && i in s.inodes
    ensures Sized(s) && s.inodes[i].addrs[12] == At(s, Place(i, 12)) && 0 <= s.inodes[i].addrs[12] < |s.blocks|
  {
    assert Place(i, 12).slot < SLOTS;
  }

  /** An entry of the indirect block. */
  lemma IndirectPtr(s: Fs, nmeta: nat, i: nat, k: nat)
    requires Ownership(s, nmeta) && i in s.inodes && k < NINDIRECT
    ensures Sized(s) && s.inodes[i].addrs[12] == At(s, Place(i, 12)) && 0 <= At(s, Place(i, k + 13))
    ensures s.inodes[i].addrs[12] == 0 ==> At(s, Place(i, k + 13)) == 0
    ensures s.inodes[i].addrs[12] != 0 ==>
              0 < s.inodes[i].addrs[12] < |s.blocks|
              && At(s, Place(i, k + 13)) == Ptr(s.blocks[s.inodes[i].addrs[12]], k)
  {
    IndirectAddr(s, nmeta, i);
    assert 0 <= At(s, Place(i, k + 13)) by { assert Place(i, k + 13).slot < SLOTS; }
  }

  lemma GrewParts(s: Fs, s': Fs, nmeta: nat, i: nat)
    requires Grew(s, s', nmeta, i)
    ensures Sized(s) && Sized(s') && Ownership(s', nmeta) && |s'.blocks| == |s.blocks| && i in s.inodes
        && i in s'.inodes
    ensures s.inodes[i].addrs[12] != 0 ==> s'.inodes[i].addrs[12] == s.inodes[i].addrs[12]
  {
    assert At(s, Place(i, 12)) == s.inodes[i].addrs[12];
    assert At(s', Place(i, 12)) == s'.inodes[i].addrs[12];
  }

  /** How much of the remaining n bytes lies in the block of offset off. */
  function Piece(n: nat, off: nat): nat {
    if n < BSIZE - off % BSIZE then n else BSIZE - off % BSIZE
  }

  lemma InvParts(s: Fs, nmeta: nat)
    requires Inv(s, nmeta)
    ensures Ownership(s, nmeta) && Sized(s)
  {
  }

  lemma ContentSize(s: Fs, i: nat)
    requires Sized(s) && i in s.inodes
    ensures |Content(s, i)| == s.inodes[i].size
  {
  }

  lemma ReadTurn(s: Fs, nmeta: nat, i: nat, j: nat)
    requires Inv(s, nmeta) && i in s.inodes && j < s.inodes[i].size
    ensures j / BSIZE < MAXFILE && At(s, Place(i, DataSlot(j / BSIZE))) != 0
  {
    assert Mapped(s, i);
    assert j / BSIZE * BSIZE <= j;
  }

  lemma PieceFits(n: nat, off: nat)
    ensures Piece(n, off) <= n && off % BSIZE + Piece(n, off) <= BSIZE
    ensures n > 0 ==> Piece(n, off) > 0
  {
  }

  lemma BlockIn(s: Fs, nmeta: nat, i: nat, j: nat)
    requires Ownership(s, nmeta) && j / BSIZE < MAXFILE && At(s, Place(i, DataSlot(j / BSIZE))) != 0
    ensures 0 < At(s, Place(i, DataSlot(j / BSIZE))) < |s.blocks|
  {
    hide At;
    assert Place(i, DataSlot(j / BSIZE)).slot < SLOTS;
  }

  lemma ContentByte(s: Fs, i: nat, j: nat)
    requires Sized(s) && i in s.inodes && j < s.inodes[i].size
    ensures Content(s, i)[j] == ByteAt(s, i, j)
  {
  }

  /** Bytes of one block lie side by side. */
  lemma SameBlock(s: Fs, i: nat, j: nat, k: nat)
    requires Sized(s) && j % BSIZE + k < BSIZE && 0 < At(s, Place(i, DataSlot(j / BSIZE))) < |s.blocks|
    ensures ByteAt(s, i, j + k) == s.blocks[At(s, Place(i, DataSlot(j / BSIZE)))][j % BSIZE + k]
  {
    assert (j + k) / BSIZE == j / BSIZE && (j + k) % BSIZE == j % BSIZE + k;
    hide At;
  }

  lemma SameSlice(c: seq<byte>, j: nat, b: seq<byte>, o: nat, m: nat)
    requires j + m <= |c| && o + m <= |b|
    requires forall t :: j <= t < j + m ==> c[t] == b[o + t - j]
    ensures c[j..j + m] == b[o..o + m]
  {
    var x, y := c[j..j + m], b[o..o + m];
    forall t | 0 <= t < m
      ensures x[t] == y[t]
    {
      assert x[t] == c[j + t];
    }
  }

  lemma ReadBytes(s: Fs, nmeta: nat, i: nat, j: nat, m: nat)
    requires Inv(s, nmeta) && i in s.inodes && j + m <= s.inodes[i].size && j < s.inodes[i].size
        && j % BSIZE + m <= BSIZE
    ensures 0 < At(s, Place(i, DataSlot(j / BSIZE))) < |s.blocks|
    ensures Content(s, i)[j..j + m] == s.blocks[At(s, Place(i, DataSlot(j / BSIZE)))][j % BSIZE..j % BSIZE + m]
  {
    hide Inv, Ownership, At, Content, ByteAt;
    InvParts(s, nmeta);
    ReadTurn(s, nmeta, i, j);
    BlockIn(s, nmeta, i, j);
    ContentSize(s, i);
    var b, c := At(s, Place(i, DataSlot(j / BSIZE))), Content(s, i);
    forall t | j <= t < j + m
      ensures c[t] == s.blocks[b][j % BSIZE + t - j]
    {
      ContentByte(s, i, t);
      SameBlock(s, i, j, t - j);
    }
    SameSlice(c, j, s.blocks[b], j % BSIZE, m);
  }

  lemma Joined(c: seq<byte>, a: nat, b: nat, e: nat)
    requires a <= b <= e <= |c|
    ensures c[a..e] == c[a..b] + c[b..e]
  {
  }

  /** The numbers from a on, n of them. */
  ghost function Interval(a: nat, n: nat): (r: set<nat>)
    ensures |r| <= n && forall x :: x in r <==> a <= x < a + n
  {
    if n == 0 then {} else Interval(a, n - 1) + {a + n - 1}
  }

  /** What truncation has not freed yet is marked as before. */
  lemma StillMarked(s: Fs, bitmap: seq<bool>, i: nat, n: nat, b: int)
    requires Sized(s) && Partly(s, bitmap, i, n) && 0 < b < |bitmap| && bitmap[b]
    ensures |bitmap| == |s.bitmap| && s.bitmap[b]
  {
  }

  /** The bitmap blocks are few. */
  lemma FewMapItems(sb: Super, m: seq<bool>, m': seq<bool>)
    requires |m'| == |m|
    ensures |MapItems(sb, m, m')| <= (|m| + BPB - 1) / BPB
  {
    var all := Interval(sb.bmapstart, (|m| + BPB - 1) / BPB);
    forall x | x in MapItems(sb, m, m')
      ensures x in all
    {
      var b: nat :| b < |m| && BBlock(sb, b) == x;
      assert b / BPB < (|m| + BPB - 1) / BPB;
    }
    SubsetSize(MapItems(sb, m, m'), all);
  }

  /** The reference count is not on disk. */
  lemma SameOnDisk(sb: Super, v: Volume, v1: Volume, v2: Volume, logged: set<nat>, changed: bool)
    requires v2.dinodes == v1.dinodes && v2.fs.blocks == v1.fs.blocks && v2.fs.bitmap == v1.fs.bitmap
    requires if changed then Covered(sb, v, v1, logged) else v1 == v
    ensures Covered(sb, v, v2, logged)
  {
    hide BBlock, IBlock;
  }

  lemma DirectAt(s: Fs, i: nat, n: nat)
    requires Sized(s) && i in s.inodes && n < 13
    ensures At(s, Place(i, n)) == s.inodes[i].addrs[n]
  {
  }

  lemma FewMapBlocks(now: set<nat>, before: set<nat>, maps: set<nat>, inode: nat, n: nat)
    requires now <= before + maps + {inode} && |maps| <= n
    ensures |now - before| <= n + 1
  {
    SubsetSize(now - before, maps + {inode});
    UnionSize(maps, {inode});
  }

  lemma WroteParts(s0: Fs, s: Fs, nmeta: nat, i: nat, off: nat, d: seq<byte>, tot: nat)
    requires Wrote(s0, s, nmeta, i, off, d, tot)
    ensures Ownership(s, nmeta) && Sized(s) && i in s.inodes && i in s0.inodes && s.inodes[i].size == s0.inodes[i].size
    ensures s.inodes == s0.inodes[i := s0.inodes[i].(addrs := s.inodes[i].addrs)]
    ensures (off + tot) / BSIZE <= MAXFILE
  {
  }

  lemma WrittenSlots(s: Fs, s1: Fs, nmeta: nat, i: nat, bn: nat, o: nat, d: seq<byte>, slots: set<nat>)
    requires Filled(s, s1, i, slots)
    requires Ownership(s1, nmeta) && bn < MAXFILE && o + |d| <= BSIZE && At(s1, Place(i, DataSlot(bn))) != 0
    ensures 0 < At(s1, Place(i, DataSlot(bn))) < |s1.blocks| && Filled(s, WriteAt(s1, i, bn, o, d), i, slots)
  {
    hide Filled, Ownership;
    WriteAtAt(s1, nmeta, i, bn, o, d, Place(i, 0));
    forall q: Place
      ensures At(WriteAt(s1, i, bn, o, d), q) == At(s1, q)
    {
      WriteAtAt(s1, nmeta, i, bn, o, d, q);
    }
    SameSlots(s, s1, WriteAt(s1, i, bn, o, d), i, slots);
  }

  /** What k turns of writei have logged: at most k data blocks, at most k bitmap blocks (one less when the
      first block was attached already), and what the indirect block costs. */
  ghost predicate Spent(now: set<nat>, before: set<nat>, data: set<nat>, maps: set<nat>, ind: set<nat>, k: nat,
                        first: bool) {
    && now <= before + data + maps + ind
    && |data| <= k && |maps| <= if first && k > 0 then k - 1 else k
  }

  predicate Turns(off: nat, n: nat, tot: nat, k: nat) {
    var r := off % BSIZE;
    if k == 0 then tot == 0
    else (k - 1) * BSIZE < tot + r <= k * BSIZE && (tot < n ==> tot + r == k * BSIZE)
  }

  /** The blocks of the first k turns have been paid for. */
  ghost predicate PaidTurns(s0: Fs, s: Fs, i: nat, off: nat, k: nat) {
    Sized(s0) && Sized(s) && Filled(s0, s, i, SlotsOf(off / BSIZE, off / BSIZE + k))
  }

  lemma BlockBefore(off: nat)
    requires off % BSIZE != 0
    ensures off > 0 && (off - 1) / BSIZE == off / BSIZE
  {
  }

  lemma WroteStart(s: Fs, nmeta: nat, i: nat, off: nat, d: seq<byte>)
    requires Inv(s, nmeta) && i in s.inodes && off <= s.inodes[i].size && off <= MAXFILE * BSIZE
    ensures Wrote(s, s, nmeta, i, off, d, 0)
  {
    WroteNothing(s, nmeta, i, off, d);
    if off % BSIZE != 0 {
      BlockBefore(off);
      ReadTurn(s, nmeta, i, off - 1);
    }
  }

  lemma CountStart(off: nat, n: nat, before: set<nat>, ind: set<nat>, first: bool)
    ensures Turns(off, n, 0, 0) && Spent(before, before, {}, {}, ind, 0, first)
  {
  }

  lemma PaidNone(s: Fs, i: nat, off: nat)
    requires Sized(s)
    ensures PaidTurns(s, s, i, off, 0)
  {
    NextBlock(off / BSIZE, off / BSIZE);
    FilledNone(s, i);
  }

  lemma StillAttached(s0: Fs, s: Fs, nmeta: nat, i: nat, off: nat, d: seq<byte>, tot: nat, bn: nat)
    requires Wrote(s0, s, nmeta, i, off, d, tot) && bn < MAXFILE
    ensures Sized(s) && Sized(s0) && (At(s0, Place(i, DataSlot(bn))) != 0 ==> At(s, Place(i, DataSlot(bn))) != 0)
  {
    hide At, ByteAt;
    assert DataSlot(bn) < SLOTS;
  }

  /** Whether the block of the next turn is attached already: so it is when the file had it before the call,
      in particular in a first turn that starts inside a block. */
  lemma WroteAttached(s0: Fs, s: Fs, nmeta: nat, i: nat, off: nat, d: seq<byte>, tot: nat, k: nat)
    returns (attached: bool)
    requires Inv(s0, nmeta) && Wrote(s0, s, nmeta, i, off, d, tot) && off + tot < MAXFILE * BSIZE
    requires off <= s0.inodes[i].size && Turns(off, |d|, tot, k)
    ensures Sized(s) && (attached <==> At(s, Place(i, DataSlot((off + tot) / BSIZE))) != 0)
    ensures off + tot < s0.inodes[i].size ==> attached
    ensures off % BSIZE != 0 && k == 0 ==> attached
  {
    WroteParts(s0, s, nmeta, i, off, d, tot);
    InvParts(s0, nmeta);
    attached := At(s, Place(i, DataSlot((off + tot) / BSIZE))) != 0;
    StillAttached(s0, s, nmeta, i, off, d, tot, (off + tot) / BSIZE);
    hide Inv, Ownership, Wrote, At;
    if off + tot < s0.inodes[i].size {
      ReadTurn(s0, nmeta, i, off + tot);
    } else if k == 0 && off % BSIZE != 0 {
      BlockBefore(off);
      ReadTurn(s0, nmeta, i, off - 1);
    }
  }

  /** The k-th turn is about the k-th block of the range. */
  lemma TurnBlock(off: nat, n: nat, tot: nat, k: nat)
    requires Turns(off, n, tot, k) && tot < n
    ensures (off + tot) / BSIZE == off / BSIZE + k <= (off + n - 1) / BSIZE
  {
    var lo, r := off / BSIZE, off % BSIZE;
    assert off == lo * BSIZE + r;
    if k > 0 {
      assert off + tot == (lo + k) * BSIZE;
    }
    assert (off + tot) / BSIZE == lo + k;
  }

  lemma PayTurn(s0: Fs, s: Fs, s': Fs, i: nat, off: nat, n: nat, tot: nat, k: nat, ok: bool)
    requires PaidTurns(s0, s, i, off, k) && Turns(off, n, tot, k) && tot < n
    requires var bn := (off + tot) / BSIZE;
      Sized(s) && if ok then Filled(s, s', i, SlotsOf(bn, bn + 1))
          else |FreeBlocks(s.bitmap)| < Need(s, i, SlotsOf(bn, bn + 1))
    ensures ok ==> PaidTurns(s0, s', i, off, k + 1)
    ensures !ok ==> Sized(s0) && |FreeBlocks(s0.bitmap)| < Need(s0, i, SlotsFor(off, n))
  {
    hide Filled, Need, FreeBlocks, SlotsOf, Turns, Sized;
    var lo := off / BSIZE;
    TurnBlock(off, n, tot, k);
    assert SlotsFor(off, n) == SlotsOf(lo, (off + n - 1) / BSIZE + 1);
    NextBlock(lo, lo + k);
    SlotsGrow(lo, lo + k + 1, (off + n - 1) / BSIZE + 1);
    if ok {
      FilledTwice(s0, s, s', i, SlotsOf(lo, lo + k), SlotsOf(lo + k, lo + k + 1));
    } else {
      ShortBefore(s0, s, i, SlotsOf(lo, lo + k), SlotsOf(lo + k, lo + k + 1), SlotsFor(off, n));
    }
  }

  lemma SpentNext(now: set<nat>, now': set<nat>, before: set<nat>, data: set<nat>, maps: set<nat>, ind: set<nat>,
                  ind': set<nat>, k: nat, first: bool, addr: nat, map_: nat, attached: bool)
    requires Spent(now, before, data, maps, ind, k, first) && ind <= ind' && now' <= now + {addr, map_} + ind'
    requires (attached ==> now' == now + {addr}) && (first && k == 0 ==> attached)
    ensures Spent(now', before, data + {addr}, if attached then maps else maps + {map_}, ind', k + 1, first)
  {
  }

  lemma TurnsNext(off: nat, n: nat, tot: nat, m: nat, k: nat)
    requires Turns(off, n, tot, k) && tot < n
    requires m == Piece(n - tot, off + tot)
    ensures Turns(off, n, tot + m, k + 1)
  {
    var r := off % BSIZE;
    if k > 0 {
      assert (off + tot) % BSIZE == 0 by {
        assert off + tot == (off / BSIZE + k) * BSIZE;
      }
    }
  }

  lemma LastTurn(off: nat, n: nat, k: nat)
    requires Turns(off, n, n, k)
    ensures k > 0 && n > 0 ==> (off + n - 1) / BSIZE + 1 == off / BSIZE + k
    ensures k == 0 ==> n == 0
  {
    var lo, r := off / BSIZE, off % BSIZE;
    assert off == lo * BSIZE + r;
    if k > 0 && n > 0 {
      assert (lo + k - 1) * BSIZE <= off + n - 1 < (lo + k) * BSIZE;
      assert (off + n - 1) / BSIZE == lo + k - 1;
    }
  }

  lemma PaidAll(s0: Fs, s: Fs, i: nat, off: nat, n: nat, k: nat)
    requires PaidTurns(s0, s, i, off, k) && Turns(off, n, n, k) && (k > 0 ==> n > 0)
    ensures Filled(s0, s, i, SlotsFor(off, n)) && Need(s0, i, SlotsFor(off, n)) <= |FreeBlocks(s0.bitmap)|
  {
    hide Filled, Need, FreeBlocks, SlotsOf;
    LastTurn(off, n, k);
    NextBlock(off / BSIZE, off / BSIZE);
    assert SlotsFor(off, n) == SlotsOf(off / BSIZE, off / BSIZE + k);
    FilledEnough(s0, s, i, SlotsFor(off, n));
  }

  /** All blocks are written and the size is set. */
  lemma WriteEnds(s0: Fs, s: Fs, nmeta: nat, i: nat, off: nat, d: seq<byte>, s': Fs)
    requires Inv(s0, nmeta) && Wrote(s0, s, nmeta, i, off, d, |d|) && off <= s0.inodes[i].size
    requires Filled(s0, s, i, SlotsFor(off, |d|)) && s' == WithSize(s, i, off + |d|, |d|)
    ensures Replaced(s0, s', nmeta, i, off, d) && Filled(s0, s', i, SlotsFor(off, |d|))
    ensures i in s'.inodes && s'.inodes == s0.inodes[i := s'.inodes[i]]
    ensures s'.inodes[i] == s0.inodes[i].(size := s'.inodes[i].size, addrs := s'.inodes[i].addrs)
  {
    hide Wrote, Replaced, Inv, SlotsFor, At;
    WroteParts(s0, s, nmeta, i, off, d, |d|);
    WroteAll(s0, s, nmeta, i, off, d, s');
    SizeOnly(s, i, s'.inodes[i].size, s');
    SameSlots(s0, s, s', i, SlotsFor(off, |d|));
  }

  /** Never more than four turns, and four only from the middle of a block. */
  lemma FewTurns(off: nat, n: nat, k: nat)
    requires Turns(off, n, n, k) && n <= MAXWRITE
    ensures k <= 4 && (off % BSIZE == 0 ==> k <= 3)
  {
  }

  /** Four data blocks, three bitmap blocks, the indirect block and its bitmap block, the inode block. */
  lemma Within(now: set<nat>, now': set<nat>, before: set<nat>, data: set<nat>, maps: set<nat>, ind: set<nat>,
               inode: set<nat>, off: nat, n: nat, k: nat)
    requires Spent(now, before, data, maps, ind, k, off % BSIZE != 0) && now' <= now + inode && |ind| <= 2
        && |inode| <= 1
    requires Turns(off, n, n, k)
    ensures n <= MAXWRITE ==> |now' - before| <= MAXOPBLOCKS
  {
    if n <= MAXWRITE { FewTurns(off, n, k); }
    var all := data + maps + ind + inode;
    SubsetSize(now' - before, all);
    UnionSize(data, maps);
    UnionSize(data + maps, ind);
    UnionSize(data + maps + ind, inode);
  }

  class FileSystem {
    const sb: Super
    var blocks: seq<FBlk>
    var bitmap: seq<bool>
    var inodes: map<nat, Inode>
    var dinodes: map<nat, Inode>  // what iupdate has written to the inode blocks
    var valid: set<nat>           // inodes whose in-memory copy has been read from disk
    ghost var ops: seq<set<nat>>  // what each finished operation has logged
    ghost var logged: set<nat>    // block numbers passed to log_write in this operation

    ghost function View(): Fs
      reads this
    {
      Fs(blocks, bitmap, inodes)
    }

    /** The file system as mkfs leaves it, before any file exists: only the metadata blocks are marked. */
    constructor (sb: Super, nblocks: nat, ninodes: nat)
      requires 0 < sb.nmeta <= nblocks < 0x8000_0000
      ensures this.sb == sb && |blocks| == nblocks && (forall i: nat :: i in inodes <==> i < ninodes)
      ensures Inv(View(), sb.nmeta) && InSync(inodes, dinodes) && ops == []
    {
      this.sb := sb;
      blocks := seq(nblocks, i => ZeroFBlk());
      bitmap := seq(nblocks, i => i < sb.nmeta);
      inodes := FreeInodes(ninodes);
      dinodes := FreeInodes(ninodes);
      valid, logged, ops := {}, {}, [];
      new;
      EmptyInv(View(), sb.nmeta);
    }

    /** The same with the inodes as they are on disk. */
    ghost function Vol(): Volume
      reads this
    {
      Volume(View(), dinodes)
    }

    /** False stands for panic("balloc: out of blocks"). */
    method Balloc() returns (ok: bool, addr: nat)
      requires |bitmap| == |blocks|
      modifies this`blocks, this`bitmap, this`logged
      ensures |blocks| == |bitmap| == old(|blocks|)
      ensures ok ==> addr < |blocks| && !old(bitmap)[addr] && forall b :: 0 <= b < addr ==> old(bitmap)[b]
      ensures ok ==> bitmap == old(bitmap)[addr := true] && blocks == old(blocks)[addr := ZeroFBlk()]
      ensures ok ==> logged == old(logged) + {BBlock(sb, addr), addr} && Covered(sb, old(Vol()), Vol(), logged)
      ensures !ok ==> View() == old(View()) && logged == old(logged) && forall b :: 0 <= b < |bitmap| ==> bitmap[b]
    {
      var b := 0;
      while b < |bitmap|
        invariant b % BPB == 0 && View() == old(View()) && logged == old(logged)
        invariant forall c :: 0 <= c < b && c < |bitmap| ==> bitmap[c]
      {
        var bi := 0;
        while bi < BPB && b + bi < |bitmap|
          invariant bi <= BPB && View() == old(View()) && logged == old(logged)
          invariant forall c :: 0 <= c < b + bi && c < |bitmap| ==> bitmap[c]
        {
          if !bitmap[b + bi] {
            addr := b + bi;
            bitmap := bitmap[addr := true];
            logged := logged + {BBlock(sb, addr)};
            blocks := blocks[addr := ZeroFBlk()];  // bzero
            logged := logged + {addr};
            return true, addr;
          }
          bi := bi + 1;
        }
        b := b + BPB;
      }
      return false, 0;
    }

    /** The log items that the indirect block of file i may cost. */
    ghost function IndirectItems(i: nat): (r: set<nat>)
      requires i in inodes && |inodes[i].addrs| == 13
      reads this
      ensures |r| <= 2
    {
      var x: int := inodes[i].addrs[12];
      if x > 0 then {x, BBlock(sb, x)} else {}
    }

    ghost function IndirectBlock(i: nat): (r: set<nat>)
      requires i in inodes && |inodes[i].addrs| == 13
      reads this
    {
      var x: int := inodes[i].addrs[12];
      if x > 0 then {x} else {}
    }

    /** A direct slot or the indirect slot of the inode; never negative. */
    method AddrOf(i: nat, slot: nat) returns (addr: nat)
      requires Ownership(View(), sb.nmeta) && i in inodes && slot < 13
      ensures addr == At(View(), Place(i, slot))
    {
      assert inodes[i].addrs[slot] == At(View(), Place(i, slot));
      addr := inodes[i].addrs[slot];
    }

    /** balloc, and the address stored in the empty pointer `slot` of file i. */
    method Fill(i: nat, slot: nat) returns (ok: bool, addr: nat)
      requires Ownership(View(), sb.nmeta) && i in inodes && slot < SLOTS && At(View(), Place(i, slot)) == 0
      requires slot >= 13 ==> inodes[i].addrs[12] != 0
      modifies this`blocks, this`bitmap, this`logged, this`inodes
      ensures ok ==> Grew(old(View()), View(), sb.nmeta, i) && 0 < addr == At(View(), Place(i, slot))
      ensures ok ==> inodes[i].addrs[12] == if slot == 12 then addr else old(inodes[i].addrs[12])
      ensures ok ==> forall q: Place :: q.slot < SLOTS && q != Place(i, slot) ==> At(View(), q) == old(At(View(), q))
      ensures ok ==> logged == old(logged) + {BBlock(sb, addr), addr} && |inodes[i].addrs| == 13
      ensures ok ==> Covered(sb, old(Vol()), Vol(), if slot >= 13 then logged + IndirectBlock(i) else logged)
      ensures Need(old(View()), i, {slot}) == 1 && (ok <==> |FreeBlocks(old(bitmap))| >= 1)
      ensures ok ==> Filled(old(View()), View(), i, {slot})
    {
      hide Filled, FreeBlocks, Need;
      ghost var s := View();
      NeedOne(s, i, slot);
      if slot >= 13 { IndirectOf(s, sb.nmeta, i); }
      ok, addr := Balloc();
      if !ok { NoneFree(bitmap); return; }
      TakeFree(s.bitmap, addr);
      AttachGrew(s, sb.nmeta, Place(i, slot), addr);
      if slot < 13 {
        var ip := inodes[i];
        inodes := inodes[i := ip.(addrs := ip.addrs[slot := addr])];
      } else {
        var ind := inodes[i].addrs[12];
        blocks := blocks[ind := PutPtr(blocks[ind], slot - 13, addr)];
        assert inodes == s.inodes;
      }
      assert View() == Attach(s, Place(i, slot), addr);
      FilledOne(s, View(), i, slot);
    }

    /** False stands for the panic of balloc. */
    method Bmap(i: nat, bn: nat) returns (ok: bool, addr: nat)
      requires Ownership(View(), sb.nmeta) && i in inodes && bn < MAXFILE
      modifies this`blocks, this`bitmap, this`logged, this`inodes
      ensures ok ==> Grew(old(View()), View(), sb.nmeta, i)
      ensures ok ==> addr == At(View(), Place(i, DataSlot(bn))) != 0
      ensures old(At(View(), Place(i, DataSlot(bn)))) != 0 ==> ok && View() == old(View()) && logged == old(logged)
      ensures ok ==> logged <= old(logged) + {BBlock(sb, addr), addr} + IndirectItems(i)
      ensures ok ==> old(logged) <= logged && Covered(sb, old(Vol()), Vol(), logged)
      ensures ok <==> |FreeBlocks(old(bitmap))| >= Need(old(View()), i, SlotsOf(bn, bn + 1))
      ensures ok ==> Filled(old(View()), View(), i, SlotsOf(bn, bn + 1))
    {
      hide Ownership, Grew, At, Filled, FreeBlocks, Need, SlotsOf, Ptr, Sized, Covered, BBlock;
      ghost var s, v := View(), Vol();
      CoveredSelf(sb, v, logged);
      GrewNot(s, sb.nmeta, i);
      IndirectAddr(s, sb.nmeta, i);
      if bn < NDIRECT {
        OneBlock(bn);
        FilledAlready(s, i, bn);
        addr := AddrOf(i, bn);
        ok := true;
        if addr == 0 {
          ok, addr := Fill(i, bn);
        }
      } else {
        var ind := AddrOf(i, 12);
        IndirectPtr(s, sb.nmeta, i, bn - NDIRECT);
        FilledAlready(s, i, 12);
        if ind == 0 {
          ok, ind := Fill(i, 12);
          if !ok {
            ShortIndirect(s, s, i, bn);
            return false, 0;
          }
        }
        ghost var s1, v1, logged1 := View(), Vol(), logged;
        GrewParts(s, s1, sb.nmeta, i);
        IndirectPtr(s1, sb.nmeta, i, bn - NDIRECT);
        addr, ok := Ptr(blocks[ind], bn - NDIRECT), true;
        FilledAlready(s1, i, bn + 1);
        if addr == 0 {
          ok, addr := Fill(i, bn + 1);
          if !ok {
            ShortIndirect(s, s1, i, bn);
            return false, 0;
          }
          logged := logged + {ind};
          CoveredTwice(sb, v, v1, Vol(), logged1, logged);
          GrewTwice(s, s1, View(), sb.nmeta, i);
        }
        FilledIndirect(s, s1, View(), i, bn);
      }
    }

    /** One turn of the loop of readi: bmap finds the block, which is attached already. */
    method ReadPiece(i: nat, pos: nat, left: nat) returns (d: seq<byte>)
      requires Inv(View(), sb.nmeta) && i in inodes && left > 0 && pos + left <= inodes[i].size
      modifies this`blocks, this`bitmap, this`logged, this`inodes
      ensures View() == old(View()) && logged == old(logged)
      ensures 0 < |d| <= left && d == Content(View(), i)[pos..pos + |d|]
    {
      hide Inv, Ownership, At, Content, Grew, ByteAt, Piece, FileSystem.IndirectItems;
      ghost var s := View();
      InvParts(s, sb.nmeta);
      ContentSize(s, i);
      ReadTurn(s, sb.nmeta, i, pos);
      var ok, addr := Bmap(i, pos / BSIZE);
      var o, m := pos % BSIZE, Piece(left, pos);
      PieceFits(left, pos);
      ReadBytes(s, sb.nmeta, i, pos, m);
      d := blocks[addr][o..o + m];
    }

    /** Regular files only; -1 for an offset past the end or a 32-bit overflow. */
    method Readi(i: nat, off: nat, n: nat) returns (res: IoResult, dst: seq<byte>)
      requires Inv(View(), sb.nmeta) && i in inodes && off < UINT && n < UINT
      modifies this`blocks, this`bitmap, this`logged, this`inodes
      ensures View() == old(View()) && logged == old(logged)
      ensures off > inodes[i].size || off + n >= UINT ==> res == Failed && dst == []
      ensures off <= inodes[i].size && off + n < UINT ==>
                res == Moved(|dst|) && |dst| == (if off + n > inodes[i].size then inodes[i].size - off else n)
                && dst == Content(View(), i)[off..off + |dst|]
    {
      hide Inv, Ownership, At, Content, ByteAt;
      dst := [];
      if off > inodes[i].size || off + n >= UINT {
        return Failed, dst;
      }
      InvParts(View(), sb.nmeta);
      ghost var s, c := View(), Content(View(), i);
      ContentSize(s, i);
      var n' := if off + n > inodes[i].size then inodes[i].size - off else n;
      var tot := 0;
      while tot < n'
        invariant tot <= n' && View() == s && logged == old(logged) && dst == c[off..off + tot]
      {
        var d := ReadPiece(i, off + tot, n' - tot);
        Joined(c, off, off + tot, off + tot + |d|);
        dst := dst + d;
        tot := tot + |d|;
      }
      res := Moved(n');
    }

    method Iupdate(i: nat)
      requires i in inodes
      modifies this`dinodes, this`logged
      ensures dinodes == old(dinodes)[i := OnDisk(inodes[i])] && logged == old(logged) + {IBlock(sb, i)}
      ensures i in dinodes && dinodes[i].kind == inodes[i].kind && dinodes[i].nlink == inodes[i].nlink
              && dinodes[i].size == inodes[i].size && dinodes[i].addrs == inodes[i].addrs
    {
      dinodes := dinodes[i := OnDisk(inodes[i])];
      logged := logged + {IBlock(sb, i)};
    }

    /** False stands for panic("freeing free block"). */
    method Bfree(b: nat) returns (ok: bool)
      requires b < |bitmap|
      modifies this`bitmap, this`logged
      ensures ok == old(bitmap)[b]
      ensures ok ==> bitmap == old(bitmap)[b := false] && logged == old(logged) + {BBlock(sb, b)}
      ensures ok ==> Covered(sb, old(Vol()), Vol(), logged)
      ensures !ok ==> bitmap == old(bitmap) && logged == old(logged)
    {
      if !bitmap[b] { return false; }
      bitmap := bitmap[b := false];
      logged := logged + {BBlock(sb, b)};
      return true;
    }

    /** The end of itrunc and of iput: a change of the inode that is written through. */
    method SetInode(i: nat, ip: Inode)
      requires i in inodes
      modifies this`inodes, this`dinodes, this`logged
      ensures inodes == old(inodes)[i := ip]
      ensures dinodes == old(dinodes)[i := OnDisk(ip)] && logged == old(logged) + {IBlock(sb, i)}
    {
      inodes := inodes[i := ip];
      Iupdate(i);
    }

    /** bfree of the block at a slot of the inode itself, and the slot set to 0. */
    method ClearSlot(i: nat, n: nat)
      requires i in inodes && n < |inodes[i].addrs|
      requires 0 < inodes[i].addrs[n] < |bitmap| && bitmap[inodes[i].addrs[n]]
      modifies this`bitmap, this`logged, this`inodes
      ensures bitmap == old(bitmap)[old(inodes)[i].addrs[n] := false]
      ensures i in inodes && inodes == old(inodes)[i := old(inodes)[i].(addrs := old(inodes)[i].addrs[n := 0])]
      ensures logged == old(logged) + {BBlock(sb, old(inodes)[i].addrs[n])} && Covered(sb, old(Vol()), Vol(), logged)
    {
      var freed := Bfree(inodes[i].addrs[n]);
      assert freed;
      var ip := inodes[i];
      inodes := inodes[i := ip.(addrs := ip.addrs[n := 0])];
    }

    /** Every block of the file is freed exactly once: bfree never panics. */
    method Itrunc(i: nat)
      requires Inv(View(), sb.nmeta) && i in inodes
      modifies this`bitmap, this`logged, this`inodes, this`dinodes
      ensures Truncated(old(View()), View(), i)
      ensures dinodes == old(dinodes)[i := OnDisk(inodes[i])] && |bitmap| == |old(bitmap)|
      ensures logged == old(logged) + MapItems(sb, old(bitmap), bitmap) + {IBlock(sb, i)}
      ensures old(i in dinodes) ==> Covered(sb, old(Vol()), Vol(), logged)
    {
      hide Inv, Ownership, At, Partly, MapItems, Covered, BBlock, IBlock;
      ghost var s := View();
      InvParts(s, sb.nmeta);
      PartlyNone(s, i);
      NoBit(sb, s.bitmap);
      assert s.inodes == s.inodes[i := s.inodes[i].(addrs := s.inodes[i].addrs)];
      for n := 0 to 12
        invariant Cleared(s, View(), i, n) && Partly(s, bitmap, i, n)
        invariant logged == old(logged) + MapItems(sb, s.bitmap, bitmap) && dinodes == old(dinodes)
      {
        FreeNext(s, sb.nmeta, bitmap, i, n);
        DirectAt(s, i, n);
        if inodes[i].addrs[n] != 0 {
          StillMarked(s, bitmap, i, n, inodes[i].addrs[n]);
          OneMoreBit(sb, s.bitmap, bitmap, inodes[i].addrs[n]);
          ClearSlot(i, n);
        }
      }
      SkipIndirect(s, bitmap, i);
      if inodes[i].addrs[12] != 0 {
        ghost var was := inodes;
        IndirectAddr(s, sb.nmeta, i);
        var ind: nat := inodes[i].addrs[12];
        for j := 0 to NINDIRECT
          invariant inodes == was && Cleared(s, View(), i, 12) && Partly(s, bitmap, i, 13 + j)
          invariant logged == old(logged) + MapItems(sb, s.bitmap, bitmap) && dinodes == old(dinodes)
        {
          IndirectPtr(s, sb.nmeta, i, j);
          FreeNext(s, sb.nmeta, bitmap, i, 13 + j);
          if Ptr(blocks[ind], j) != 0 {
            StillMarked(s, bitmap, i, 13 + j, Ptr(blocks[ind], j));
            OneMoreBit(sb, s.bitmap, bitmap, Ptr(blocks[ind], j));
            var freed := Bfree(Ptr(blocks[ind], j));
            assert freed;
          }
        }
        FreeIndirect(s, sb.nmeta, bitmap, i);
        StillMarked(s, bitmap, i, SLOTS, inodes[i].addrs[12]);
        OneMoreBit(sb, s.bitmap, bitmap, inodes[i].addrs[12]);
        ClearSlot(i, 12);
      } else {
        NoIndirect(s, bitmap, i);
      }
      ghost var v := View();
      SetInode(i, inodes[i].(size := 0));
      ClearedAll(s, v, i, View());
      if i in old(dinodes) { FreedCovered(sb, old(Vol()), Vol(), i, logged); }
    }

    /** No links and no other references: truncate and free. */
    method TruncAndFree(i: nat)
      requires Inv(View(), sb.nmeta) && i in inodes && inodes[i].ref == 1
      modifies this`bitmap, this`logged, this`inodes, this`dinodes
      ensures i in inodes && inodes[i].ref == 1 && Freed(old(View()), DropRef(View(), i), sb.nmeta, i)
      ensures old(InSync(inodes, dinodes)) ==> InSync(inodes, dinodes)
      ensures |bitmap| == |old(bitmap)| && logged == old(logged) + MapItems(sb, old(bitmap), bitmap) + {IBlock(sb, i)}
      ensures |logged - old(logged)| <= (|blocks| + BPB - 1) / BPB + 1
      ensures old(i in dinodes) ==> Covered(sb, old(Vol()), Vol(), logged)
    {
      hide Inv, Ownership, At, Content, Truncated, InSync, OwnedBy, Freed, MapItems, Covered, IBlock;
      ghost var s, d := View(), dinodes;
      InvParts(s, sb.nmeta);
      Itrunc(i);
      ghost var s1 := View();
      TruncatedParts(s, s1, i);
      SetInode(i, inodes[i].(kind := 0));
      FewMapItems(sb, s.bitmap, bitmap);
      FewMapBlocks(logged, old(logged), MapItems(sb, s.bitmap, bitmap), IBlock(sb, i), (|bitmap| + BPB - 1) / BPB);
      FreedAll(s, s1, sb.nmeta, i, DropRef(View(), i));
      if InSync(s.inodes, d) { SyncKept(s.inodes, d, i, inodes, dinodes); }
      if i in d { FreedCovered(sb, old(Vol()), Vol(), i, logged); }
    }

    /** Dropping a reference; the last one to an unlinked file frees the file and its inode. */
    method Iput(i: nat)
      requires Inv(View(), sb.nmeta) && i in inodes && inodes[i].ref > 0
      modifies this`bitmap, this`logged, this`inodes, this`dinodes, this`valid
      ensures Inv(View(), sb.nmeta) && i in inodes && inodes[i].ref == old(inodes)[i].ref - 1
      ensures old(InSync(inodes, dinodes)) ==> InSync(inodes, dinodes)
      ensures if old(i in valid && inodes[i].nlink == 0 && inodes[i].ref == 1)
              then Freed(old(View()), View(), sb.nmeta, i) && i !in valid && |bitmap| == |old(bitmap)|
                   && logged == old(logged) + MapItems(sb, old(bitmap), bitmap) + {IBlock(sb, i)}
                   && |logged - old(logged)| <= (|blocks| + BPB - 1) / BPB + 1
              else View() == DropRef(old(View()), i) && logged == old(logged) && valid == old(valid)
                   && dinodes == old(dinodes)
      ensures old(i in dinodes) ==> Covered(sb, old(Vol()), Vol(), logged)
    {
      hide Inv, Ownership, At, Content, InSync, OwnedBy, Freed, DropRef, MapItems, IBlock, Covered;
      ghost var s, last := View(), i in valid && inodes[i].nlink == 0 && inodes[i].ref == 1;
      InvParts(s, sb.nmeta);
      if i in valid && inodes[i].nlink == 0 {
        if inodes[i].ref == 1 {
          TruncAndFree(i);
          valid := valid - {i};
        }
      }
      ghost var s1 := View();
      inodes := inodes[i := inodes[i].(ref := inodes[i].ref - 1)];
      Dropped(s1, i, View());
      if last { FreedInv(s, View(), sb.nmeta, i); } else { InodeOnly(s, sb.nmeta, i, View()); }
      if InSync(s1.inodes, dinodes) { SyncRef(s1.inodes, i, inodes, dinodes); }
      if i in old(dinodes) { SameOnDisk(sb, old(Vol()), Volume(s1, dinodes), Vol(), logged, last); }
    }

    /** begin_op, as far as one operation can see: what it logs from now on is its own. */
    ghost method BeginOp()
      modifies this`logged
      ensures logged == {}
    {
      logged := {};
    }

    ghost method EndOp()
      modifies this`ops
      ensures ops == old(ops) + [logged]
    {
      ops := ops + [logged];
    }

    /** One turn: bmap, memmove, log_write. */
    method WriteTurnAt(ghost s0: Fs, i: nat, off: nat, src: seq<byte>, tot: nat, m: nat)
      returns (ok: bool, ghost addr: nat)
      requires Wrote(s0, View(), sb.nmeta, i, off, src, tot)
      requires 0 < m <= |src| - tot && (off + tot) % BSIZE + m <= BSIZE && off + |src| <= MAXFILE * BSIZE
      modifies this`blocks, this`bitmap, this`logged, this`inodes
      ensures ok ==> Wrote(s0, View(), sb.nmeta, i, off, src, tot + m)
      ensures ok ==>
                |old(inodes)[i].addrs| == 13 && i in inodes && |inodes[i].addrs| == 13
                && old(IndirectItems(i)) <= IndirectItems(i)
      ensures ok ==> logged <= old(logged) + {addr, BBlock(sb, addr)} + IndirectItems(i)
      ensures ok && old(At(View(), Place(i, DataSlot((off + tot) / BSIZE)))) != 0 ==>
                logged == old(logged) + {addr} && inodes == old(inodes)
      ensures ok ==> old(logged) <= logged && Covered(sb, old(Vol()), Vol(), logged)
      ensures var slots := SlotsOf((off + tot) / BSIZE, (off + tot) / BSIZE + 1);
        && (ok <==> |FreeBlocks(old(bitmap))| >= Need(old(View()), i, slots))
        && (ok ==> Filled(old(View()), View(), i, slots))
    {
      hide Wrote, Ownership, Grew, Filled, FreeBlocks, Need, SlotsOf;
      ghost var s, bn, o := View(), (off + tot) / BSIZE, (off + tot) % BSIZE;
      WroteParts(s0, s, sb.nmeta, i, off, src, tot);
      var b: nat;
      ok, b := Bmap(i, (off + tot) / BSIZE);
      addr := b;
      if !ok { return; }
      ghost var s1 := View();
      GrewParts(s, s1, sb.nmeta, i);
      WriteTurn(s0, s, s1, sb.nmeta, i, off, src, tot, m);
      blocks := blocks[b := Patch(blocks[b], (off + tot) % BSIZE, src[tot..tot + m])];
      logged := logged + {b};
      assert View() == WriteAt(s1, i, bn, o, src[tot..tot + m]);
      WrittenSlots(s, s1, sb.nmeta, i, bn, o, src[tot..tot + m], SlotsOf(bn, bn + 1));
    }

    /** The loop of writei; false stands for the panic of balloc. */
    method WriteBlocks(i: nat, off: nat, src: seq<byte>)
      returns (ok: bool, ghost data: set<nat>, ghost maps: set<nat>, ghost k: nat)
      requires Inv(View(), sb.nmeta) && i in inodes && off <= inodes[i].size && off + |src| <= MAXFILE * BSIZE
      modifies this`blocks, this`bitmap, this`logged, this`inodes
      ensures ok ==> Wrote(old(View()), View(), sb.nmeta, i, off, src, |src|)
      ensures ok ==>
                i in inodes && |inodes[i].addrs| == 13 && (off + |src| <= old(inodes)[i].size ==> inodes == old(inodes))
      ensures ok ==> old(logged) <= logged && Covered(sb, old(Vol()), Vol(), logged)
      ensures ok ==>
                Spent(logged, old(logged), data, maps, IndirectItems(i), k, off % BSIZE != 0)
                && Turns(off, |src|, |src|, k)
      ensures ok <==> |FreeBlocks(old(bitmap))| >= Need(old(View()), i, SlotsFor(off, |src|))
      ensures ok ==> Filled(old(View()), View(), i, SlotsFor(off, |src|))
    {
      hide Inv, Ownership, Wrote, At, Content, ByteAt, Turns, Spent, Piece, FileSystem.IndirectItems;
      hide Filled, FreeBlocks, Need, SlotsOf, SlotsFor, PaidTurns;
      ghost var s0, v0, n := View(), Vol(), |src|;
      CoveredSelf(sb, v0, logged);
      InvParts(s0, sb.nmeta);
      ghost var first := off % BSIZE != 0;
      data, maps, k := {}, {}, 0;
      WroteStart(s0, sb.nmeta, i, off, src);
      CountStart(off, n, logged, IndirectItems(i), first);
      PaidNone(s0, i, off);
      var tot := 0;
      ok := true;
      while tot < |src|
        invariant tot <= n && Wrote(s0, View(), sb.nmeta, i, off, src, tot) && dinodes == old(dinodes)
        invariant i in inodes && |inodes[i].addrs| == 13
        invariant off + n <= s0.inodes[i].size ==> inodes == s0.inodes
        invariant Spent(logged, old(logged), data, maps, IndirectItems(i), k, first)
        invariant Turns(off, n, tot, k)
        invariant old(logged) <= logged && Covered(sb, v0, Vol(), logged)
        invariant PaidTurns(s0, View(), i, off, k) && (k > 0 ==> tot > 0)
      {
        var m := Piece(|src| - tot, off + tot);
        PieceFits(|src| - tot, off + tot);
        ghost var s, v, now, ind, old_k := View(), Vol(), logged, IndirectItems(i), k;
        ghost var attached := WroteAttached(s0, s, sb.nmeta, i, off, src, tot, k);
        ghost var addr: nat;
        ok, addr := WriteTurnAt(s0, i, off, src, tot, m);
        PayTurn(s0, s, View(), i, off, n, tot, k, ok);
        if !ok { return; }
        CoveredTwice(sb, v0, v, Vol(), now, logged);
        SpentNext(now, logged, old(logged), data, maps, ind, IndirectItems(i), k, first, addr, BBlock(sb, addr),
            attached);
        data, maps, k := data + {addr}, if attached then maps else maps + {BBlock(sb, addr)}, k + 1;
        TurnsNext(off, n, tot, m, old_k);
        tot := tot + m;
      }
      PaidAll(s0, View(), i, off, n, k);
    }

    /** The end of writei: a write past the end moves the end. */
    method SetSize(i: nat, off: nat, n: nat)
      requires i in inodes
      modifies this`inodes, this`dinodes, this`logged
      ensures View() == WithSize(old(View()), i, off, n) && i in inodes && inodes == old(inodes)[i := inodes[i]]
      ensures n > 0 && off > old(inodes)[i].size ==>
                dinodes == old(dinodes)[i := OnDisk(inodes[i])] && logged == old(logged) + {IBlock(sb, i)}
      ensures !(n > 0 && off > old(inodes)[i].size) ==>
                inodes == old(inodes) && dinodes == old(dinodes) && logged == old(logged)
      ensures old(i in dinodes) ==> Covered(sb, old(Vol()), Vol(), logged)
    {
      if n > 0 && off > inodes[i].size {
        inodes := inodes[i := inodes[i].(size := off)];
        Iupdate(i);
      } else {
        assert inodes == inodes[i := inodes[i].(size := inodes[i].size)];
      }
    }

    method Writei(i: nat, off: nat, src: seq<byte>) returns (res: IoResult)
      requires Inv(View(), sb.nmeta) && i in inodes && off < UINT && |src| < UINT
      modifies this`blocks, this`bitmap, this`logged, this`inodes, this`dinodes
      ensures old(off > inodes[i].size) || off + |src| >= UINT || off + |src| > MAXFILE * BSIZE ==>
                res == Failed && View() == old(View()) && logged == old(logged) && dinodes == old(dinodes)
      ensures res == Failed ==> old(off > inodes[i].size) || off + |src| >= UINT || off + |src| > MAXFILE * BSIZE
      ensures res.Moved? ==> res.n == |src| && i in inodes && inodes == old(inodes)[i := inodes[i]]
      ensures res.Moved? ==>
                inodes[i] == old(inodes)[i].(size := inodes[i].size, addrs := inodes[i].addrs)
      ensures res.Moved? ==> Replaced(old(View()), View(), sb.nmeta, i, off, src)
      ensures res.Moved? && old(InSync(inodes, dinodes)) ==> InSync(inodes, dinodes)
      ensures res.Moved? && old(InSync(inodes, dinodes)) ==>
                old(logged) <= logged && Covered(sb, old(Vol()), Vol(), logged)
      ensures res.Moved? && |src| <= MAXWRITE ==> |logged - old(logged)| <= MAXOPBLOCKS
      ensures res != Failed ==>
                (res == Panic <==> |FreeBlocks(old(bitmap))| < Need(old(View()), i, SlotsFor(off, |src|)))
      ensures res.Moved? ==> Filled(old(View()), View(), i, SlotsFor(off, |src|))
    {
      hide Filled, FreeBlocks, Need, SlotsOf, SlotsFor, OnDisk, IBlock, Interval, Covered, BBlock;
      hide Inv, Ownership, Wrote, At, Content, ByteAt, Turns, Spent, Splice, Piece, WithSize, InSync, Replaced,
          FileSystem.IndirectItems;
      if off > inodes[i].size || off + |src| >= UINT {
        return Failed;
      }
      if off + |src| > MAXFILE * BSIZE {
        return Failed;
      }
      ghost var s0, v0, n := View(), Vol(), |src|;
      var ok;
      ghost var data, maps, k;
      ok, data, maps, k := WriteBlocks(i, off, src);
      if !ok { return Panic; }
      ghost var s, v, now, ind := View(), Vol(), logged, IndirectItems(i);
      WroteParts(s0, s, sb.nmeta, i, off, src, n);
      SetSize(i, off + |src|, |src|);
      WriteEnds(s0, s, sb.nmeta, i, off, src, View());
      Within(now, logged, old(logged), data, maps, ind,
             if n > 0 && off + n > s.inodes[i].size then {IBlock(sb, i)} else {}, off, n, k);
      if InSync(s0.inodes, old(dinodes)) {
        SyncAt(s0.inodes, old(dinodes), i);
        CoveredTwice(sb, v0, v, Vol(), now, logged);
        SyncKept(s0.inodes, old(dinodes), i, inodes, dinodes);
      }
      res := Moved(|src|);
    }
  }
}
