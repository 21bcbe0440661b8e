/** Inodes, block pointers and the free-block bitmap of fs.c, as values.  The blocks are those that
    the buffer cache shows; the log (LogSpec) is what makes groups of changes to them atomic. */
module FsSpec {
  import opened Blocks
  import opened Octets

  const NDIRECT: nat := 12
  const NINDIRECT: nat := WORDS
  const MAXFILE: nat := 140
  const UINT: nat := 0x1_0000_0000

  // ----- the state -----

  /** struct inode; addrs[0..12) are direct, addrs[12] is the indirect block.  kind 0 is a free inode. */
  datatype Inode = Inode(kind: nat, nlink: nat, ref: nat, size: nat, addrs: seq<int32>)

  datatype Fs = Fs(blocks: seq<FBlk>, bitmap: seq<bool>, inodes: map<nat, Inode>)

  /** A pointer of inode i: slots 0..11 are direct, 12 is the indirect block, 13.. are its entries. */
  datatype Place = Place(i: nat, slot: nat)

  const SLOTS: nat := 13 + NINDIRECT

  predicate Sized(s: Fs) {
    && |s.bitmap| == |s.blocks| < 0x8000_0000
    && forall i :: i in s.inodes ==> |s.inodes[i].addrs| == 13
  }

  /** The blocks of the disk are 0 .. |blocks|; an address 0 means that no block is attached. */
  function At(s: Fs, p: Place): int
    requires Sized(s)
  {
    if p.i !in s.inodes then 0
    else
      var addrs := s.inodes[p.i].addrs;
      if p.slot < 13 then addrs[p.slot]
      else if p.slot < SLOTS && 0 < addrs[12] < |s.blocks| then Ptr(s.blocks[addrs[12]], p.slot - 13)
      else 0
  }

  /** The slot that holds file block bn. */
  function DataSlot(bn: nat): nat {
    if bn < NDIRECT then bn else bn + 1
  }

  ghost predicate Owned(s: Fs, b: int)
    requires Sized(s)
  {
    exists p: Place :: p.slot < SLOTS && At(s, p) == b
  }

  /** Ownership: every attached block belongs to exactly one pointer, lies in the data area and is marked;
      the bitmap marks nothing else but the metadata. */
  ghost predicate Ownership(s: Fs, nmeta: nat) {
    && Sized(s) && 0 < nmeta <= |s.blocks|
    && (forall p: Place :: p.slot < SLOTS && At(s, p) != 0 ==> nmeta <= At(s, p) < |s.blocks|)
    && (forall p: Place, q: Place :: p.slot < SLOTS && q.slot < SLOTS && p != q && At(s, p) != 0 ==>
        At(s, p) != At(s, q))
    && (forall b :: 0 <= b < |s.blocks| ==> (s.bitmap[b] <==> b < nmeta || Owned(s, b)))
  }

  /** Every block below the file size is attached. */
  ghost predicate Mapped(s: Fs, i: nat)
    requires Sized(s)
  {
    i in s.inodes ==>
      && s.inodes[i].size <= MAXFILE * BSIZE
      && forall bn: nat :: bn * BSIZE < s.inodes[i].size ==> At(s, Place(i, DataSlot(bn))) != 0
  }

  ghost predicate Inv(s: Fs, nmeta: nat) {
    Ownership(s, nmeta) && forall i :: i in s.inodes ==> Mapped(s, i)
  }

  // ----- file contents -----

  /** Byte j of file i, wherever a block is attached. */
  function ByteAt(s: Fs, i: nat, j: nat): byte
    requires Sized(s)
  {
    var b := At(s, Place(i, DataSlot(j / BSIZE)));
    if 0 < b < |s.blocks| then s.blocks[b][j % BSIZE] else 0
  }

  /** The file as the byte sequence that its users see. */
  function Content(s: Fs, i: nat): (c: seq<byte>)
    requires Sized(s) && i in s.inodes
    ensures |c| == s.inodes[i].size
  {
    seq(s.inodes[i].size, j requires 0 <= j => ByteAt(s, i, j))
  }

  /** Overwriting and extending a byte sequence. */
  function Splice(c: seq<byte>, off: nat, d: seq<byte>): seq<byte>
    requires off <= |c|
  {
    c[..off] + d + if off + |d| < |c| then c[off + |d|..] else []
  }

  // ----- attaching a new block -----

  /** balloc has marked and zeroed b; its address is then stored at p. */
  function Attach(s: Fs, p: Place, b: int32): Fs
    requires Sized(s) && p.i in s.inodes && p.slot < SLOTS && 0 < b < |s.blocks|
    requires p.slot >= 13 ==> 0 < s.inodes[p.i].addrs[12] < |s.blocks|
  {
    var s1 := s.(blocks := s.blocks[b := ZeroFBlk()], bitmap := s.bitmap[b := true]);
    var ip := s.inodes[p.i];
    if p.slot < 13 then s1.(inodes := s.inodes[p.i := ip.(addrs := ip.addrs[p.slot := b])])
    else s1.(blocks := s1.blocks[ip.addrs[12] := PutPtr(s1.blocks[ip.addrs[12]], p.slot - 13, b)])
  }

  ghost predicate CanAttach(s: Fs, nmeta: nat, p: Place, b: int32) {
    && Ownership(s, nmeta) && p.i in s.inodes && p.slot < SLOTS && At(s, p) == 0
    && nmeta <= b < |s.blocks| && !s.bitmap[b]
    && (p.slot >= 13 ==> s.inodes[p.i].addrs[12] != 0)
  }

  lemma IndirectOf(s: Fs, nmeta: nat, i: nat)
    requires Ownership(s, nmeta) && i in s.inodes && s.inodes[i].addrs[12] != 0
    ensures nmeta <= s.inodes[i].addrs[12] < |s.blocks| && s.inodes[i].addrs[12] == At(s, Place(i, 12))
  {
    assert At(s, Place(i, 12)) == s.inodes[i].addrs[12];
  }

  /** Only the pointer p changes. */
  lemma AttachAt(s: Fs, nmeta: nat, p: Place, b: int32, q: Place)
    requires CanAttach(s, nmeta, p, b) && q.slot < SLOTS
    ensures (p.slot >= 13 ==> 0 < s.inodes[p.i].addrs[12] < |s.blocks|) && Sized(Attach(s, p, b))
    ensures At(Attach(s, p, b), q) == if q == p then b else At(s, q)
  {
    if p.slot >= 13 { IndirectOf(s, nmeta, p.i); }
    var s' := Attach(s, p, b);
    if q.i in s.inodes && q.slot >= 13 {
      if s.inodes[q.i].addrs[12] != 0 {
        IndirectOf(s, nmeta, q.i);
        var x := s.inodes[q.i].addrs[12];
        assert Owned(s, x) && x != b;
        if q.i == p.i && p.slot >= 13 {
          PtrAfterPut(s.blocks[x], p.slot - 13, b, q.slot - 13);
        } else if p.slot >= 13 {
          assert At(s, Place(q.i, 12)) != At(s, Place(p.i, 12));
        }
      } else if q.i == p.i && p.slot == 12 {
        ZeroPtr(q.slot - 13);
      }
    }
  }

  lemma AttachBitmap(s: Fs, nmeta: nat, p: Place, b: int32)
    requires CanAttach(s, nmeta, p, b) && (p.slot >= 13 ==> 0 < s.inodes[p.i].addrs[12] < |s.blocks|)
    ensures var s' := Attach(s, p, b);
      Sized(s') && |s'.blocks| == |s.blocks| && s'.bitmap == s.bitmap[b := true] && s'.inodes.Keys == s.inodes.Keys
  {
  }

  /** Attaching keeps the ownership discipline. */
  lemma AttachKeeps(s: Fs, nmeta: nat, p: Place, b: int32)
    requires CanAttach(s, nmeta, p, b)
    ensures (p.slot >= 13 ==> 0 < s.inodes[p.i].addrs[12] < |s.blocks|) && Ownership(Attach(s, p, b), nmeta)
  {
    AttachAt(s, nmeta, p, b, p);
    var s' := Attach(s, p, b);
    hide Attach, At;
    forall q: Place | q.slot < SLOTS
      ensures At(s', q) == if q == p then b else At(s, q)
    {
      AttachAt(s, nmeta, p, b, q);
    }
    forall q: Place, r: Place | q.slot < SLOTS && r.slot < SLOTS && q != r && At(s', q) != 0
      ensures At(s', q) != At(s', r)
    {
      if q == p && At(s, r) != 0 { assert Owned(s, At(s, r)); }
      if r == p { assert Owned(s, At(s, q)); }
    }
    AttachBitmap(s, nmeta, p, b);
    forall c | 0 <= c < |s'.blocks|
      ensures s'.bitmap[c] <==> c < nmeta || Owned(s', c)
    {
      if Owned(s, c) {
        var q: Place :| q.slot < SLOTS && At(s, q) == c;
        if c != 0 { assert At(s', q) == c; }
      }
      if Owned(s', c) {
        var q: Place :| q.slot < SLOTS && At(s', q) == c;
        assert c == b || At(s, q) == c;
      }
      assert At(s', p) == b;
    }
  }

  // ----- what attaching and writing do to the bytes of all files -----

  lemma SlotRange(j: nat)
    requires j < MAXFILE * BSIZE
    ensures DataSlot(j / BSIZE) < SLOTS && DataSlot(j / BSIZE) != 12
  {
  }

  /** A data block is never an index block. */
  lemma DataIsNoIndex(s: Fs, nmeta: nat, q: Place, i: nat)
    requires Ownership(s, nmeta) && q.slot < SLOTS && q.slot != 12 && At(s, q) != 0 && i in s.inodes
    ensures At(s, q) != s.inodes[i].addrs[12] && nmeta <= At(s, q) < |s.blocks|
  {
    assert At(s, Place(i, 12)) == s.inodes[i].addrs[12];
  }

  /** Attaching a zeroed block changes no byte of any file: there was nothing there, and it read as zero. */
  lemma AttachBytes(s: Fs, nmeta: nat, p: Place, b: int32, i: nat, j: nat)
    requires CanAttach(s, nmeta, p, b) && j < MAXFILE * BSIZE
    ensures (p.slot >= 13 ==> 0 < s.inodes[p.i].addrs[12] < |s.blocks|) && Sized(Attach(s, p, b))
    ensures ByteAt(Attach(s, p, b), i, j) == ByteAt(s, i, j)
  {
    SlotRange(j);
    var q := Place(i, DataSlot(j / BSIZE));
    AttachAt(s, nmeta, p, b, q);
    if At(s, q) != 0 {
      DataIsNoIndex(s, nmeta, q, p.i);
      assert Owned(s, At(s, q));
    } else if q == p && p.slot >= 13 {
      IndirectOf(s, nmeta, p.i);
      assert Owned(s, s.inodes[p.i].addrs[12]);
    }
  }

  /** Bytes o.. of a block, replaced. */
  function Patch(b: FBlk, o: nat, d: seq<byte>): FBlk
    requires o + |d| <= BSIZE
  {
    b[..o] + d + b[o + |d|..]
  }

  function WriteAt(s: Fs, i: nat, bn: nat, o: nat, d: seq<byte>): Fs
    requires Sized(s) && o + |d| <= BSIZE && 0 < At(s, Place(i, DataSlot(bn))) < |s.blocks|
  {
    var b := At(s, Place(i, DataSlot(bn)));
    s.(blocks := s.blocks[b := Patch(s.blocks[b], o, d)])
  }

  lemma WriteAtAt(s: Fs, nmeta: nat, i: nat, bn: nat, o: nat, d: seq<byte>, q: Place)
    requires Ownership(s, nmeta) && bn < MAXFILE && o + |d| <= BSIZE && At(s, Place(i, DataSlot(bn))) != 0
    ensures 0 < At(s, Place(i, DataSlot(bn))) < |s.blocks| && Sized(WriteAt(s, i, bn, o, d))
    ensures At(WriteAt(s, i, bn, o, d), q) == At(s, q)
  {
    if q.i in s.inodes {
      DataIsNoIndex(s, nmeta, Place(i, DataSlot(bn)), q.i);
    } else {
      assert At(s, Place(i, DataSlot(bn))) != 0 ==> nmeta <= At(s, Place(i, DataSlot(bn))) < |s.blocks|;
    }
  }

  lemma SamePointers(s: Fs, s': Fs, nmeta: nat)
    requires Ownership(s, nmeta) && Sized(s') && |s'.blocks| == |s.blocks| && s'.bitmap == s.bitmap
    requires forall q: Place :: At(s', q) == At(s, q)
    ensures Ownership(s', nmeta)
  {
    hide At;
    forall b | 0 <= b < |s.blocks|
      ensures Owned(s', b) <==> Owned(s, b)
    {
      if Owned(s, b) {
        var q: Place :| q.slot < SLOTS && At(s, q) == b;
        assert At(s', q) == b;
      }
      if Owned(s', b) {
        var q: Place :| q.slot < SLOTS && At(s', q) == b;
        assert At(s, q) == b;
      }
    }
  }

  lemma WriteAtKeeps(s: Fs, nmeta: nat, i: nat, bn: nat, o: nat, d: seq<byte>)
    requires Ownership(s, nmeta) && bn < MAXFILE && o + |d| <= BSIZE && At(s, Place(i, DataSlot(bn))) != 0
    ensures 0 < At(s, Place(i, DataSlot(bn))) < |s.blocks| && Ownership(WriteAt(s, i, bn, o, d), nmeta)
  {
    WriteAtAt(s, nmeta, i, bn, o, d, Place(i, 0));
    var s' := WriteAt(s, i, bn, o, d);
    forall q: Place
      ensures At(s', q) == At(s, q)
    {
      WriteAtAt(s, nmeta, i, bn, o, d, q);
    }
    SamePointers(s, s', nmeta);
  }

  /** The bytes written change; every other byte of every file stays. */
  lemma WriteAtBytes(s: Fs, nmeta: nat, i: nat, bn: nat, o: nat, d: seq<byte>, k: nat, j: nat)
    requires Ownership(s, nmeta) && bn < MAXFILE && o + |d| <= BSIZE && At(s, Place(i, DataSlot(bn))) != 0
    requires j < MAXFILE * BSIZE
    ensures 0 < At(s, Place(i, DataSlot(bn))) < |s.blocks| && Sized(WriteAt(s, i, bn, o, d))
    ensures ByteAt(WriteAt(s, i, bn, o, d), k, j) ==
            if k == i && bn * BSIZE + o <= j < bn * BSIZE + o + |d| then d[j - bn * BSIZE - o] else ByteAt(s, k, j)
  {
    SlotRange(j);
    var q := Place(k, DataSlot(j / BSIZE));
    WriteAtAt(s, nmeta, i, bn, o, d, q);
    assert j == j / BSIZE * BSIZE + j % BSIZE;
    if q != Place(i, DataSlot(bn)) {
      assert At(s, q) == 0 || At(s, q) != At(s, Place(i, DataSlot(bn)));
    }
  }
}
