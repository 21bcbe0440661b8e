/** filewrite of file.c: a long write is cut into chunks that fit the log reservation of one operation. */
module FsFile {
  import opened Blocks
  import opened Octets
  import opened FsSpec
  import opened FsWrite
  import opened FsSpace
  import opened FsCode
  import opened FsLayout

  /** How many bytes of a write of n bytes at offset off reach a file of this size: all of them, or as many
      whole chunks as fit below the largest file size. */
  function Reached(size: nat, off: nat, n: nat): nat
    requires size <= MAXFILE * BSIZE
  {
    if off > size then 0
    else if off + n <= MAXFILE * BSIZE then n
    else (MAXFILE * BSIZE - off) / MAXWRITE * MAXWRITE
  }

  lemma ReachedBelow(size: nat, off: nat, n: nat)
    requires size <= MAXFILE * BSIZE
    ensures Reached(size, off, n) <= n
  {
  }

  /** Chunks start at multiples of MAXWRITE. */
  ghost predicate AtChunk(i: nat, n: nat) {
    i <= n && (i == n || i % MAXWRITE == 0)
  }

  lemma NextChunk(i: nat, n: nat, m: nat)
    requires AtChunk(i, n) && i < n && m == (if n - i > MAXWRITE then MAXWRITE else n - i)
    ensures AtChunk(i + m, n)
  {
  }

  /** The chunk that does not fit starts right behind the bytes that do. */
  lemma StopsHere(size: nat, off: nat, n: nat, i: nat, m: nat)
    requires off <= size <= MAXFILE * BSIZE && AtChunk(i, n) && i < n && off + i <= MAXFILE * BSIZE
    requires m == (if n - i > MAXWRITE then MAXWRITE else n - i) && off + i + m > MAXFILE * BSIZE
    ensures i == Reached(size, off, n)
  {
    var room, k := MAXFILE * BSIZE - off, i / MAXWRITE;
    assert i == k * MAXWRITE && k * MAXWRITE <= room < (k + 1) * MAXWRITE;
    assert room / MAXWRITE == k;
  }

  /** A chunk that fits is part of the bytes that do. */
  lemma FitsHere(size: nat, off: nat, n: nat, i: nat, m: nat)
    requires off <= size <= MAXFILE * BSIZE && AtChunk(i, n) && i < n
    requires m == (if n - i > MAXWRITE then MAXWRITE else n - i) && off + i + m <= MAXFILE * BSIZE
    ensures i + m <= Reached(size, off, n)
  {
    if off + n > MAXFILE * BSIZE {
      var room, k := MAXFILE * BSIZE - off, i / MAXWRITE;
      assert i + m == (k + 1) * MAXWRITE <= room;
      assert room / MAXWRITE >= k + 1;
    }
  }

  /** Out of blocks in the middle: there were too few for all the bytes that fit. */
  lemma ShortChunk(s0: Fs, s: Fs, ip: nat, off: nat, i: nat, m: nat, most: nat)
    requires Filled(s0, s, ip, SlotsFor(off, i)) && |FreeBlocks(s.bitmap)| < Need(s, ip, SlotsFor(off + i, m))
        && i + m <= most
    ensures |FreeBlocks(s0.bitmap)| < Need(s0, ip, SlotsFor(off, most))
  {
    SlotsJoin(off, i, m);
    SlotsMore(off, i + m, most);
    hide SlotsFor;
    ShortBefore(s0, s, ip, SlotsFor(off, i), SlotsFor(off + i, m), SlotsFor(off, most));
  }

  lemma ChunkSlots(s0: Fs, s: Fs, s': Fs, ip: nat, off: nat, i: nat, m: nat)
    requires Filled(s0, s, ip, SlotsFor(off, i)) && Filled(s, s', ip, SlotsFor(off + i, m))
    ensures Filled(s0, s', ip, SlotsFor(off, i + m))
  {
    SlotsJoin(off, i, m);
    FilledTwice(s0, s, s', ip, SlotsFor(off, i), SlotsFor(off + i, m));
  }

  lemma NoSlots(s: Fs, ip: nat, off: nat)
    requires Sized(s)
    ensures Filled(s, s, ip, SlotsFor(off, 0))
  {
    FilledNone(s, ip);
  }

  lemma ReplacedNothing(s: Fs, nmeta: nat, i: nat, off: nat)
    requires Inv(s, nmeta) && i in s.inodes && off <= s.inodes[i].size
    ensures Replaced(s, s, nmeta, i, off, [])
  {
    var c := Content(s, i);
    assert Splice(c, off, []) == c;
  }

  lemma SpliceTwice(c: seq<byte>, off: nat, d: seq<byte>, e: seq<byte>)
    requires off <= |c|
    ensures off + |d| <= |Splice(c, off, d)|
    ensures Splice(Splice(c, off, d), off + |d|, e) == Splice(c, off, d + e)
  {
    var x := Splice(c, off, d);
    assert x[..off + |d|] == c[..off] + d;
    if off + |d| + |e| < |x| {
      assert x[off + |d| + |e|..] == c[off + |d| + |e|..];
    }
  }

  /** Two writes one after the other are one write. */
  lemma ReplacedTwice(s0: Fs, s1: Fs, s2: Fs, nmeta: nat, i: nat, off: nat, d: seq<byte>, e: seq<byte>)
    requires Inv(s0, nmeta) && i in s0.inodes && off <= s0.inodes[i].size && Replaced(s0, s1, nmeta, i, off, d)
    requires i in s1.inodes && off + |d| <= s1.inodes[i].size && Replaced(s1, s2, nmeta, i, off + |d|, e)
    ensures Replaced(s0, s2, nmeta, i, off, d + e)
  {
    var c := Content(s0, i);
    assert Content(s1, i) == Splice(c, off, d);
    SpliceTwice(c, off, d, e);
    hide Inv, Content, Splice;
    forall k | k in s0.inodes && k != i
      ensures k in s2.inodes && s2.inodes[k] == s0.inodes[k] && Content(s2, k) == Content(s0, k)
    {
      assert k in s1.inodes;
    }
  }

  lemma ReplacedSize(s: Fs, s': Fs, nmeta: nat, i: nat, off: nat, d: seq<byte>)
    requires Inv(s, nmeta) && i in s.inodes && off <= s.inodes[i].size && Replaced(s, s', nmeta, i, off, d)
    ensures Inv(s', nmeta) && i in s'.inodes && off + |d| <= s'.inodes[i].size <= MAXFILE * BSIZE
  {
    assert |Content(s', i)| == |Splice(Content(s, i), off, d)|;
    assert Mapped(s', i);
  }

  lemma ChunkDone(s0: Fs, s: Fs, s': Fs, nmeta: nat, ip: nat, off: nat, src: seq<byte>, i: nat, m: nat)
    requires Inv(s0, nmeta) && ip in s0.inodes && off <= s0.inodes[ip].size && i + m <= |src|
    requires Inv(s, nmeta) && ip in s.inodes && off + i <= s.inodes[ip].size
    requires Replaced(s0, s, nmeta, ip, off, src[..i]) && Replaced(s, s', nmeta, ip, off + i, src[i..i + m])
    ensures Replaced(s0, s', nmeta, ip, off, src[..i + m])
    ensures Inv(s', nmeta) && ip in s'.inodes && off + i + m <= s'.inodes[ip].size <= MAXFILE * BSIZE
  {
    hide Inv, Replaced, Content, Splice;
    ReplacedSize(s, s', nmeta, ip, off + i, src[i..i + m]);
    ReplacedTwice(s0, s, s', nmeta, ip, off, src[..i], src[i..i + m]);
    assert src[..i] + src[i..i + m] == src[..i + m];
  }

  lemma ChunkOver(s0: Fs, s: Fs, s': Fs, nmeta: nat, ip: nat, off: nat, src: seq<byte>, i: nat, m: nat)
    requires AtChunk(i, |src|) && i < |src| && m == (if |src| - i > MAXWRITE then MAXWRITE else |src| - i)
    requires Filled(s0, s, ip, SlotsFor(off, i)) && Filled(s, s', ip, SlotsFor(off + i, m))
    requires Inv(s0, nmeta) && ip in s0.inodes && off <= s0.inodes[ip].size
    requires Inv(s, nmeta) && ip in s.inodes && off + i <= s.inodes[ip].size
    requires Replaced(s0, s, nmeta, ip, off, src[..i]) && Replaced(s, s', nmeta, ip, off + i, src[i..i + m])
    ensures AtChunk(i + m, |src|) && Filled(s0, s', ip, SlotsFor(off, i + m))
    ensures Replaced(s0, s', nmeta, ip, off, src[..i + m])
    ensures Inv(s', nmeta) && ip in s'.inodes && off + i + m <= s'.inodes[ip].size <= MAXFILE * BSIZE
  {
    hide Inv, Replaced, Content, Splice, Filled, SlotsFor;
    NextChunk(i, |src|, m);
    ChunkSlots(s0, s, s', ip, off, i, m);
    ChunkDone(s0, s, s', nmeta, ip, off, src, i, m);
  }

  /** One chunk is one operation: it logs few enough blocks, and whatever it changed lies in them. */
  ghost predicate ChunkOp(sb: Super, ip: nat, v: Volume, v': Volume, op: set<nat>) {
    && Covered(sb, v, v', op) && |op| <= MAXOPBLOCKS && InSync(v'.fs.inodes, v'.dinodes) && Inv(v'.fs, sb.nmeta)
    && ip in v.fs.inodes && ip in v'.fs.inodes && v'.fs.inodes == v.fs.inodes[ip := v'.fs.inodes[ip]]
    && v'.fs.inodes[ip] == v.fs.inodes[ip].(size := v'.fs.inodes[ip].size, addrs := v'.fs.inodes[ip].addrs)
  }

  /** The operations lead from each state to the next. */
  ghost predicate ChunkOps(sb: Super, ip: nat, vols: seq<Volume>, ops: seq<set<nat>>) {
    |vols| == |ops| + 1 && forall k: nat :: k < |ops| ==> ChunkOp(sb, ip, vols[k], vols[k + 1], ops[k])
  }

  lemma NextOp(sb: Super, ip: nat, vols: seq<Volume>, ops: seq<set<nat>>, v: Volume, op: set<nat>)
    requires ChunkOps(sb, ip, vols, ops) && ChunkOp(sb, ip, vols[|ops|], v, op)
    ensures ChunkOps(sb, ip, vols + [v], ops + [op])
  {
    hide ChunkOp;
  }

  /** How far k chunks get when most bytes are written. */
  function Upto(k: nat, most: nat): nat {
    if k * MAXWRITE < most then k * MAXWRITE else most
  }

  /** After k chunks the file has its old contents with the bytes of k chunks written over them. */
  ghost predicate ChunkStates(s0: Fs, vols: seq<Volume>, nmeta: nat, ip: nat, off: nat, src: seq<byte>, most: nat)
    requires Sized(s0) && ip in s0.inodes && off <= s0.inodes[ip].size && most <= |src|
  {
    forall k: nat :: k < |vols| ==> Replaced(s0, vols[k].fs, nmeta, ip, off, src[..Upto(k, most)])
  }

  lemma NextState(s0: Fs, vols: seq<Volume>, nmeta: nat, ip: nat, off: nat, src: seq<byte>, i: nat, m: nat, v: Volume)
    requires Sized(s0) && ip in s0.inodes && off <= s0.inodes[ip].size && i + m <= |src| && m <= MAXWRITE
    requires |vols| > 0 && ChunkStates(s0, vols, nmeta, ip, off, src, i) && i == (|vols| - 1) * MAXWRITE
    requires Replaced(s0, v.fs, nmeta, ip, off, src[..i + m])
    ensures ChunkStates(s0, vols + [v], nmeta, ip, off, src, i + m)
  {
    hide Replaced, Sized;
    forall k: nat | k <= |vols|
      ensures Upto(k, i + m) == if k < |vols| then Upto(k, i) else i + m
    {
    }
  }

  lemma SameState(s0: Fs, vols: seq<Volume>, nmeta: nat, ip: nat, off: nat, src: seq<byte>, i: nat, v: Volume)
    requires Sized(s0) && ip in s0.inodes && off <= s0.inodes[ip].size && i <= |src|
    requires |vols| > 0 && ChunkStates(s0, vols, nmeta, ip, off, src, i) && i == (|vols| - 1) * MAXWRITE
    requires v.fs == vols[|vols| - 1].fs
    ensures ChunkStates(s0, vols + [v], nmeta, ip, off, src, i)
  {
    hide Replaced, Sized;
    assert Upto(|vols|, i) == Upto(|vols| - 1, i) == i;
  }

  function Chunks(n: nat): nat {
    (n + MAXWRITE - 1) / MAXWRITE
  }

  /** How many chunks a write of n bytes tries when `reached` of them fit: all, or those that fit and one more. */
  function Tried(reached: nat, n: nat): nat {
    if reached == n then Chunks(n) else reached / MAXWRITE + 1
  }

  // ----- with other processes between the chunks -----

  /** The file system and the offset of the open file, as other processes have left them. */
  datatype Shared = Shared(blocks: seq<FBlk>, bitmap: seq<bool>, inodes: map<nat, Inode>, dinodes: map<nat, Inode>,
                           off: nat)

  function FsOf(x: Shared): Fs {
    Fs(x.blocks, x.bitmap, x.inodes)
  }

  ghost predicate Possible(x: Shared, nmeta: nat, ip: nat) {
    Inv(FsOf(x), nmeta) && ip in x.inodes && x.off < UINT
  }

  function Chunk(src: seq<byte>, k: nat): (c: seq<byte>)
    requires k < Chunks(|src|)
    ensures 0 < |c| <= MAXWRITE
  {
    if (k + 1) * MAXWRITE <= |src| then src[k * MAXWRITE..(k + 1) * MAXWRITE] else src[k * MAXWRITE..]
  }

  function VolOf(x: Shared): Volume {
    Volume(FsOf(x), x.dinodes)
  }

  /** The chunk c was written at the offset of that moment into the file as it was at that moment, as one operation,
      and the offset has moved behind it. */
  ghost predicate ChunkWritten(sb: Super, x: Shared, after: Shared, op: set<nat>, ip: nat, c: seq<byte>) {
    && Possible(x, sb.nmeta, ip) && Sized(FsOf(x)) && x.off <= x.inodes[ip].size
    && Replaced(FsOf(x), FsOf(after), sb.nmeta, ip, x.off, c) && after.off == x.off + |c|
    && |op| <= MAXOPBLOCKS && (InSync(x.inodes, x.dinodes) ==> ChunkOp(sb, ip, VolOf(x), VolOf(after), op))
  }

  /** So were the first chunks, one for each state in afters. */
  ghost predicate ChunksWritten(sb: Super, others: seq<Shared>, afters: seq<Shared>, ops: seq<set<nat>>, ip: nat,
                                src: seq<byte>)
    requires |afters| <= |others| == Chunks(|src|) && |afters| <= |ops|
  {
    forall k: nat :: k < |afters| ==> ChunkWritten(sb, others[k], afters[k], ops[k], ip, Chunk(src, k))
  }

  lemma OneMoreWritten(sb: Super, others: seq<Shared>, afters: seq<Shared>, ops: seq<set<nat>>, ip: nat, src: seq<byte>,
                       x: Shared, op: set<nat>)
    requires |afters| == |ops| < |others| == Chunks(|src|) && ChunksWritten(sb, others, afters, ops, ip, src)
    requires ChunkWritten(sb, others[|afters|], x, op, ip, Chunk(src, |afters|))
    ensures ChunksWritten(sb, others, afters + [x], ops + [op], ip, src)
  {
    hide ChunkWritten, Chunk, Chunks;
  }

  lemma OpsAfter(ops: seq<set<nat>>, was: seq<set<nat>>, op: set<nat>)
    requires |was| <= |ops| && ops[..|was|] == was
    ensures (ops + [op])[..|was|] == was && (ops + [op])[|was|..] == ops[|was|..] + [op]
  {
  }

  /** The chunk starts behind the end of the file or does not fit below the largest size. */
  ghost predicate Refused(x: Shared, ip: nat, c: seq<byte>) {
    ip in x.inodes && (x.off > x.inodes[ip].size || x.off + |c| > MAXFILE * BSIZE)
  }

  /** There are too few free blocks for the chunk. */
  ghost predicate TooFew(x: Shared, nmeta: nat, ip: nat, c: seq<byte>) {
    Possible(x, nmeta, ip) && Sized(FsOf(x)) && |FreeBlocks(x.bitmap)| < Need(FsOf(x), ip, SlotsFor(x.off, |c|))
  }

  lemma PossibleSized(x: Shared, nmeta: nat, ip: nat)
    requires Possible(x, nmeta, ip)
    ensures Sized(FsOf(x)) && Inv(FsOf(x), nmeta) && ip in x.inodes && x.off < UINT
  {
  }

  lemma ChunkIs(src: seq<byte>, k: nat, i: nat, m: nat)
    requires i == k * MAXWRITE < |src| && m == (if |src| - i > MAXWRITE then MAXWRITE else |src| - i)
    ensures k < Chunks(|src|) && src[i..i + m] == Chunk(src, k)
    ensures k + 1 < Chunks(|src|) ==> m == MAXWRITE && i + m < |src|
    ensures k + 1 == Chunks(|src|) ==> i + m == |src|
  {
  }

  lemma NoChunks(sb: Super, others: seq<Shared>, ip: nat, src: seq<byte>)
    requires |others| == Chunks(|src|)
    ensures (Chunks(|src|) == 0 <==> |src| == 0) && ChunksWritten(sb, others, [], [], ip, src)
  {
  }

  lemma SmallOffset(off: nat, n: nat)
    ensures off + n >= UINT ==> off + n > MAXFILE * BSIZE
  {
  }

  lemma WrittenIs(sb: Super, x: Shared, after: Shared, op: set<nat>, ip: nat, c: seq<byte>)
    requires Possible(x, sb.nmeta, ip) && Sized(FsOf(x)) && x.off <= x.inodes[ip].size
    requires Replaced(FsOf(x), FsOf(after), sb.nmeta, ip, x.off, c) && after.off == x.off + |c|
    requires |op| <= MAXOPBLOCKS && (InSync(x.inodes, x.dinodes) ==> ChunkOp(sb, ip, VolOf(x), VolOf(after), op))
    ensures ChunkWritten(sb, x, after, op, ip, c)
  {
    hide Inv, Replaced, Sized, ChunkOp, InSync;
  }

  lemma ReplacedIs(s: Fs, s': Fs, nmeta: nat, i: nat, off: nat, d: seq<byte>)
    requires Sized(s) && i in s.inodes && off <= s.inodes[i].size && Replaced(s, s', nmeta, i, off, d)
    ensures Inv(s', nmeta)
  {
    hide Inv, Sized, Content, Splice;
  }

  /** A refused chunk changes nothing. */
  lemma RefusedOp(sb: Super, ip: nat, v: Volume, op: set<nat>)
    requires op == {} && ip in v.fs.inodes && InSync(v.fs.inodes, v.dinodes) && Inv(v.fs, sb.nmeta)
    ensures ChunkOp(sb, ip, v, v, op)
  {
    CoveredSelf(sb, v, op);
    hide Covered, InSync, Inv;
    assert v.fs.inodes == v.fs.inodes[ip := v.fs.inodes[ip]];
  }

  lemma ChunkStart(n: nat)
    ensures AtChunk(0, n) && Chunks(0) == 0
  {
  }

  lemma ReachedNone(size: nat, off: nat, n: nat)
    requires size <= MAXFILE * BSIZE
    ensures off > size ==> Reached(size, off, n) == 0
  {
  }

  lemma ReachedAll(size: nat, off: nat, n: nat)
    requires size <= MAXFILE * BSIZE
    ensures off + n <= MAXFILE * BSIZE && off <= size ==> Reached(size, off, n) == n
    ensures n == 0 && off > size ==> Reached(size, off, n) == n
  {
  }

  lemma SizeBound(s: Fs, nmeta: nat, i: nat)
    requires Inv(s, nmeta) && i in s.inodes
    ensures s.inodes[i].size <= MAXFILE * BSIZE
  {
    assert Mapped(s, i);
  }

  lemma NoOps(sb: Super, ip: nat, vols: seq<Volume>)
    requires |vols| == 1
    ensures ChunkOps(sb, ip, vols, [])
  {
  }

  lemma FirstState(v: Volume, nmeta: nat, ip: nat, off: nat, src: seq<byte>)
    requires Sized(v.fs) && ip in v.fs.inodes && off <= v.fs.inodes[ip].size && Replaced(v.fs, v.fs, nmeta, ip, off, [])
    ensures ChunkStates(v.fs, [v], nmeta, ip, off, src, 0) && src[..0] == []
  {
    hide Replaced;
  }

  lemma ChunkOpParts(sb: Super, ip: nat, v: Volume, v': Volume, op: set<nat>)
    requires ChunkOp(sb, ip, v, v', op)
    ensures InSync(v'.fs.inodes, v'.dinodes)
  {
  }

  lemma CountChunks(n: nat, k: nat, i: nat, m: nat)
    requires i == k * MAXWRITE < n && m == (if n - i > MAXWRITE then MAXWRITE else n - i)
    ensures k < Chunks(n) && i / MAXWRITE == k && (i + m == n ==> k + 1 == Chunks(n))
    ensures i + m == n || i + m == (k + 1) * MAXWRITE
  {
  }

  lemma NoMoreWritten(sb: Super, others: seq<Shared>, afters: seq<Shared>, ops: seq<set<nat>>, ip: nat, src: seq<byte>,
                      op: set<nat>)
    requires |afters| == |ops| <= |others| == Chunks(|src|) && ChunksWritten(sb, others, afters, ops, ip, src)
    ensures ChunksWritten(sb, others, afters, ops + [op], ip, src)
  {
    hide ChunkWritten, Chunk, Chunks;
  }

  // ----- filewrite -----

  class OpenFile {
    const ip: nat
    const writable: bool
    var off: nat

    constructor (ip: nat, writable: bool)
      ensures this.ip == ip && this.writable == writable && off == 0
    {
      this.ip := ip;
      this.writable := writable;
      off := 0;
    }

    /** The file system and the offset are those of x. */
    ghost predicate Here(fs: FileSystem, x: Shared)
      reads this, fs
    {
      fs.View() == FsOf(x) && off == x.off
    }

    /** One turn of the loop, from begin_op to end_op. */
    method WriteOne(fs: FileSystem, d: seq<byte>) returns (r: IoResult)
      requires Inv(fs.View(), fs.sb.nmeta) && ip in fs.inodes && off < UINT && 0 < |d| <= MAXWRITE
      modifies this`off, fs
      ensures r == Failed <==> old(off > fs.inodes[ip].size) || old(off) + |d| > MAXFILE * BSIZE
      ensures r == Failed ==> off == old(off) && fs.Vol() == old(fs.Vol())
      ensures r == Panic ==> fs.ops == old(fs.ops) && |FreeBlocks(old(fs.bitmap))| <
                             Need(old(fs.View()), ip, SlotsFor(old(off), |d|))
      ensures r.Moved? ==> r.n == |d| && off == old(off) + |d| && ip in fs.inodes
                           && Replaced(old(fs.View()), fs.View(), fs.sb.nmeta, ip, old(off), d)
                           && Filled(old(fs.View()), fs.View(), ip, SlotsFor(old(off), |d|))
      ensures r != Panic ==> fs.ops == old(fs.ops) + [fs.logged] && |fs.logged| <= MAXOPBLOCKS
      ensures r != Panic && old(InSync(fs.inodes, fs.dinodes)) ==>
                ChunkOp(fs.sb, ip, old(fs.Vol()), fs.Vol(), fs.logged)
    {
      hide Inv, Replaced, Content, Sized, Filled, FreeBlocks, Need, SlotsFor, Covered, InSync;
      ghost var v := fs.Vol();
      InvParts(v.fs, fs.sb.nmeta);
      SmallOffset(off, |d|);
      fs.BeginOp();
      assert fs.Vol() == v;
      r := fs.Writei(ip, off, d);
      if r == Panic { return; }
      if r.Moved? { off := off + r.n; }
      ghost var did := fs.logged;
      fs.EndOp();
      assert did - {} == did;
      if r.Moved? {
        ReplacedIs(v.fs, fs.View(), fs.sb.nmeta, ip, old(off), d);
      } else if InSync(v.fs.inodes, v.dinodes) {
        RefusedOp(fs.sb, ip, v, did);
      }
    }

    /** Inodes only; n is negative or the length of src.  Panic stands for the panic of balloc: the panic for a
        short write is never reached.  vols are the states between the chunks. */
    method FileWrite(fs: FileSystem, src: seq<byte>, n: int) returns (res: IoResult, ghost vols: seq<Volume>)
      requires Inv(fs.View(), fs.sb.nmeta) && ip in fs.inodes && off < UINT && |src| == if n < 0 then 0 else n
      modifies this`off, fs
      ensures !writable || n < 0 ==>
                res == Failed && off == old(off) && fs.Vol() == old(fs.Vol()) && fs.ops == old(fs.ops)
      ensures writable && n >= 0 && res != Panic ==>
                var size := old(fs.inodes[ip].size);
                size <= MAXFILE * BSIZE
                && off == old(off) + Reached(size, old(off), n) && Reached(size, old(off), n) <= n
                && (res == if Reached(size, old(off), n) == n then Moved(n) else Failed)
                && (old(off) <= size ==>
                    Replaced(old(fs.View()), fs.View(), fs.sb.nmeta, ip, old(off), src[..Reached(size, old(off), n)]))
                && (old(off) > size ==> fs.View() == old(fs.View()))
      ensures writable && n >= 0 ==>
                var size := old(fs.inodes[ip].size);
                size <= MAXFILE * BSIZE
                && (res == Panic <==>
                      old(off) <= size
                      && |FreeBlocks(old(fs.bitmap))| < Need(old(fs.View()), ip,
                      SlotsFor(old(off), Reached(size, old(off), n))))
                && (res != Panic && old(off) <= size ==>
                    Filled(old(fs.View()), fs.View(), ip, SlotsFor(old(off), Reached(size, old(off), n))))
      ensures |fs.ops| >= |old(fs.ops)| && fs.ops[..|old(fs.ops)|] == old(fs.ops)
      ensures writable && n >= 0 && res != Panic ==>
                var size := old(fs.inodes[ip].size);
                size <= MAXFILE * BSIZE
                && |fs.ops| - |old(fs.ops)| == Tried(Reached(size, old(off), n), n) == |vols| - 1
                && (old(off) <= size ==> ChunkStates(old(fs.View()), vols, fs.sb.nmeta, ip, old(off), src,
                                                     Reached(size, old(off), n)))
      ensures writable && n >= 0 && res == Panic ==> |fs.ops| - |old(fs.ops)| < Chunks(n)
      ensures |vols| > 0 && vols[0] == old(fs.Vol()) && (res != Panic ==> vols[|vols| - 1] == fs.Vol())
      ensures old(InSync(fs.inodes, fs.dinodes)) ==> ChunkOps(fs.sb, ip, vols, fs.ops[|old(fs.ops)|..])
    {
      hide Inv, Replaced, Content, AtChunk, Reached, Sized, Filled, FreeBlocks, Need, SlotsFor, InSync, ChunkOp,
        ChunkOps, ChunkStates, Chunks;
      vols := [fs.Vol()];
      ghost var was := fs.ops;
      assert was[|was|..] == [];
      NoOps(fs.sb, ip, vols);
      if !writable { return Failed, vols; }
      if n < 0 { return Failed, vols; }
      ghost var s0, start, size, synced := fs.View(), off, fs.inodes[ip].size, InSync(fs.inodes, fs.dinodes);
      SizeBound(s0, fs.sb.nmeta, ip);
      InvParts(s0, fs.sb.nmeta);
      ReachedBelow(size, off, n);
      ChunkStart(n);
      if off <= size {
        ReplacedNothing(s0, fs.sb.nmeta, ip, off);
        FirstState(vols[0], fs.sb.nmeta, ip, off, src);
      }
      NoSlots(s0, ip, off);
      var i := 0;
      while i < n
        invariant AtChunk(i, n) && 0 <= i <= n && off == start + i && ip in fs.inodes && Inv(fs.View(), fs.sb.nmeta)
        invariant if start <= size then Replaced(s0, fs.View(), fs.sb.nmeta, ip, start, src[..i])
            && off <= fs.inodes[ip].size
                  else i == 0 && fs.View() == s0
        invariant start <= size ==> off <= MAXFILE * BSIZE && Filled(s0, fs.View(), ip, SlotsFor(start, i))
        invariant |was| <= |fs.ops| && fs.ops[..|was|] == was && |vols| == |fs.ops| - |was| + 1
        invariant i == n || i == (|vols| - 1) * MAXWRITE
        invariant i == n ==> |vols| - 1 == Chunks(n)
        invariant vols[0] == old(fs.Vol()) && vols[|vols| - 1] == fs.Vol()
        invariant start <= size ==> ChunkStates(s0, vols, fs.sb.nmeta, ip, start, src, i)
        invariant synced ==> InSync(fs.inodes, fs.dinodes) && ChunkOps(fs.sb, ip, vols, fs.ops[|was|..])
      {
        var n1 := n - i;
        if n1 > MAXWRITE { n1 := MAXWRITE; }
        ghost var s, ops := fs.View(), fs.ops;
        CountChunks(n, |vols| - 1, i, n1);
        var r := WriteOne(fs, src[i..i + n1]);
        if r == Panic {
          FitsHere(size, start, n, i, n1);
          ShortChunk(s0, s, ip, start, i, n1, Reached(size, start, n));
          return Panic, vols;
        }
        OpsAfter(ops, was, fs.logged);
        if synced {
          NextOp(fs.sb, ip, vols, ops[|was|..], fs.Vol(), fs.logged);
          ChunkOpParts(fs.sb, ip, vols[|vols| - 1], fs.Vol(), fs.logged);
        }
        if r == Failed {
          if start <= size {
            StopsHere(size, start, n, i, n1);
            FilledEnough(s0, s, ip, SlotsFor(start, i));
            SameState(s0, vols, fs.sb.nmeta, ip, start, src, i, fs.Vol());
          }
          ReachedNone(size, start, n);
          vols := vols + [fs.Vol()];
          return Failed, vols;
        }
        ChunkOver(s0, s, fs.View(), fs.sb.nmeta, ip, start, src, i, n1);
        NextState(s0, vols, fs.sb.nmeta, ip, start, src, i, n1, fs.Vol());
        vols := vols + [fs.Vol()];
        i := i + n1;
      }
      ReachedAll(size, start, n);
      if start <= size { FilledEnough(s0, fs.View(), ip, SlotsFor(start, n)); }
      res := Moved(n);
    }

    /** filewrite when other processes do anything they like between two chunks: others[k] is what the k-th chunk
        finds, and afters[k] what it leaves behind.  Each chunk on its own is one write to the file, and one operation,
        and moves the offset behind itself; the call fails or panics exactly when a chunk does. */
    method FileWriteShared(fs: FileSystem, src: seq<byte>, n: int, others: seq<Shared>)
      returns (res: IoResult, ghost afters: seq<Shared>)
      requires |src| == if n < 0 then 0 else n
      requires |others| == Chunks(|src|) && forall x :: x in others ==> Possible(x, fs.sb.nmeta, ip)
      modifies this`off, fs
      ensures !writable || n < 0 ==> res == Failed && afters == [] && off == old(off) && fs.Vol() == old(fs.Vol())
                                     && fs.ops == old(fs.ops)
      ensures |afters| <= |others| && |fs.ops| >= |old(fs.ops)| && fs.ops[..|old(fs.ops)|] == old(fs.ops)
      ensures writable && n >= 0 ==>
                |fs.ops| - |old(fs.ops)| == |afters| + if res == Failed then 1 else 0
      ensures |afters| <= |fs.ops| - |old(fs.ops)|
      ensures ChunksWritten(fs.sb, others, afters, fs.ops[|old(fs.ops)|..], ip, src)
      ensures res.Moved? <==> writable && n >= 0 && |afters| == |others|
      ensures res.Moved? ==> res.n == n
      ensures res.Moved? && afters != [] ==> Here(fs, afters[|afters| - 1])
      ensures res == Failed && writable && n >= 0 ==>
                |afters| < |others| && Refused(others[|afters|], ip, Chunk(src, |afters|))
                && Here(fs, others[|afters|])
      ensures res == Panic ==> |afters| < |others| && TooFew(others[|afters|], fs.sb.nmeta, ip, Chunk(src, |afters|))
    {
      hide Inv, Replaced, Content, Sized, Filled, FreeBlocks, Need, SlotsFor, InSync, Chunk, Chunks, Possible, ChunkOp,
        ChunkWritten, ChunksWritten;
      ghost var was := fs.ops;
      assert was[|was|..] == [];
      NoChunks(fs.sb, others, ip, src);
      afters := [];
      if !writable || n < 0 { return Failed, afters; }
      var i, k := 0, 0;
      while i < n
        invariant i == n || i == k * MAXWRITE < n
        invariant k == |afters| <= |others| && (i < n ==> k < |others|) && (i == n ==> k == |others|)
        invariant |was| + k == |fs.ops| && fs.ops[..|was|] == was
        invariant ChunksWritten(fs.sb, others, afters, fs.ops[|was|..], ip, src)
        invariant afters != [] ==> Here(fs, afters[k - 1])
      {
        var x := others[k];
        assert x in others;
        PossibleSized(x, fs.sb.nmeta, ip);
        fs.blocks, fs.bitmap, fs.inodes, fs.dinodes, off := x.blocks, x.bitmap, x.inodes, x.dinodes, x.off;
        var n1 := n - i;
        if n1 > MAXWRITE { n1 := MAXWRITE; }
        ChunkIs(src, k, i, n1);
        ghost var ops := fs.ops;
        assert fs.Vol() == VolOf(x);
        var r := WriteOne(fs, src[i..i + n1]);
        if r == Panic { return Panic, afters; }
        OpsAfter(ops, was, fs.logged);
        if r == Failed {
          NoMoreWritten(fs.sb, others, afters, ops[|was|..], ip, src, fs.logged);
          return Failed, afters;
        }
        ghost var after := Shared(fs.blocks, fs.bitmap, fs.inodes, fs.dinodes, off);
        WrittenIs(fs.sb, x, after, fs.logged, ip, Chunk(src, k));
        OneMoreWritten(fs.sb, others, afters, ops[|was|..], ip, src, after, fs.logged);
        afters := afters + [after];
        i, k := i + n1, k + 1;
      }
      res := Moved(n);
    }
  }
}
