/** What a write does to a file, block by block: the lemmas behind writei. */
module FsWrite {
  import opened Blocks
  import opened Octets
  import opened FsSpec

  // ----- what allocation inside one file changes -----

  /** s' has more blocks attached to file i than s, and is otherwise the same to every reader. */
  ghost predicate Grew(s: Fs, s': Fs, nmeta: nat, i: nat) {
    && Ownership(s, nmeta) && Ownership(s', nmeta) && |s'.blocks| == |s.blocks|
    && i in s.inodes && i in s'.inodes
    && s'.inodes == s.inodes[i := s.inodes[i].(addrs := s'.inodes[i].addrs)]
    && (forall k, j :: 0 <= j < MAXFILE * BSIZE ==> ByteAt(s', k, j) == ByteAt(s, k, j))
    && (forall q: Place :: q.slot < SLOTS && At(s, q) != 0 ==> At(s', q) == At(s, q))
  }

  lemma AttachGrew(s: Fs, nmeta: nat, p: Place, b: int32)
    requires CanAttach(s, nmeta, p, b)
    ensures (p.slot >= 13 ==> 0 < s.inodes[p.i].addrs[12] < |s.blocks|) && Grew(s, Attach(s, p, b), nmeta, p.i)
    ensures At(Attach(s, p, b), p) == b
    ensures forall q: Place :: q.slot < SLOTS && q != p ==> At(Attach(s, p, b), q) == At(s, q)
  {
    AttachKeeps(s, nmeta, p, b);
    AttachAt(s, nmeta, p, b, p);
    AttachBitmap(s, nmeta, p, b);
    var s' := Attach(s, p, b);
    forall k, j | 0 <= j < MAXFILE * BSIZE
      ensures ByteAt(s', k, j) == ByteAt(s, k, j)
    {
      AttachBytes(s, nmeta, p, b, k, j);
    }
    forall q: Place | q.slot < SLOTS
      ensures At(s', q) == if q == p then b else At(s, q)
    {
      AttachAt(s, nmeta, p, b, q);
    }
    if p.slot < 13 {
      assert s'.inodes == s.inodes[p.i := s.inodes[p.i].(addrs := s'.inodes[p.i].addrs)];
    } else {
      assert s'.inodes[p.i].addrs == s.inodes[p.i].addrs;
      assert s'.inodes == s.inodes[p.i := s.inodes[p.i].(addrs := s'.inodes[p.i].addrs)];
    }
  }

  lemma GrewTwice(s: Fs, s1: Fs, s2: Fs, nmeta: nat, i: nat)
    requires Grew(s, s1, nmeta, i) && Grew(s1, s2, nmeta, i)
    ensures Grew(s, s2, nmeta, i)
  {
    hide At, ByteAt;
    assert s2.inodes == s.inodes[i := s.inodes[i].(addrs := s2.inodes[i].addrs)];
    forall q: Place | q.slot < SLOTS && At(s, q) != 0
      ensures At(s2, q) == At(s, q)
    {
      assert At(s1, q) == At(s, q);
    }
  }

  lemma GrewNot(s: Fs, nmeta: nat, i: nat)
    requires Ownership(s, nmeta) && i in s.inodes
    ensures Grew(s, s, nmeta, i)
  {
  }

  // ----- what a partial write has changed -----

  /** The first `tot` bytes of d have been written to file i at offset off. */
  ghost predicate Wrote(s0: Fs, s: Fs, nmeta: nat, i: nat, off: nat, d: seq<byte>, tot: nat) {
    && tot <= |d| && off + tot <= MAXFILE * BSIZE
    && Ownership(s0, nmeta) && Ownership(s, nmeta) && |s.blocks| == |s0.blocks|
    && i in s0.inodes && i in s.inodes
    && s.inodes == s0.inodes[i := s0.inodes[i].(addrs := s.inodes[i].addrs)]
    && (forall k, j :: 0 <= j < MAXFILE * BSIZE ==>
          ByteAt(s, k, j) == if k == i && off <= j < off + tot then d[j - off] else ByteAt(s0, k, j))
    && (forall q: Place :: q.slot < SLOTS && At(s0, q) != 0 ==> At(s, q) == At(s0, q))
    && (forall bn :: off / BSIZE <= bn && bn * BSIZE < off + tot ==> At(s, Place(i, DataSlot(bn))) != 0)
  }

  lemma BlockOf(off: nat, bn: nat)
    ensures off / BSIZE <= bn && bn * BSIZE < off ==> bn == off / BSIZE
    ensures off % BSIZE == 0 ==> !(off / BSIZE <= bn && bn * BSIZE < off)
  {
  }

  lemma WroteNothing(s: Fs, nmeta: nat, i: nat, off: nat, d: seq<byte>)
    requires Ownership(s, nmeta) && i in s.inodes && off <= MAXFILE * BSIZE
    ensures off % BSIZE == 0 ==> Wrote(s, s, nmeta, i, off, d, 0)
    ensures At(s, Place(i, DataSlot(off / BSIZE))) != 0 ==> Wrote(s, s, nmeta, i, off, d, 0)
  {
    forall bn: nat | off / BSIZE <= bn && bn * BSIZE < off
      ensures bn == off / BSIZE
    {
      BlockOf(off, bn);
    }
    assert s.inodes == s.inodes[i := s.inodes[i].(addrs := s.inodes[i].addrs)];
  }

  /** One turn of the loop of writei: bmap, then memmove into the block. */
  lemma WriteTurn(s0: Fs, s: Fs, s1: Fs, nmeta: nat, i: nat, off: nat, d: seq<byte>, tot: nat, m: nat)
    requires Wrote(s0, s, nmeta, i, off, d, tot) && Grew(s, s1, nmeta, i)
    requires 0 < m <= |d| - tot && (off + tot) % BSIZE + m <= BSIZE && off + |d| <= MAXFILE * BSIZE
    requires At(s1, Place(i, DataSlot((off + tot) / BSIZE))) != 0
    ensures var bn, o := (off + tot) / BSIZE, (off + tot) % BSIZE;
      0 < At(s1, Place(i, DataSlot(bn))) < |s1.blocks|
          && Wrote(s0, WriteAt(s1, i, bn, o, d[tot..tot + m]), nmeta, i, off, d, tot + m)
  {
    var bn, o, e := (off + tot) / BSIZE, (off + tot) % BSIZE, d[tot..tot + m];
    assert bn < MAXFILE;
    WriteAtKeeps(s1, nmeta, i, bn, o, e);
    var s2 := WriteAt(s1, i, bn, o, e);
    forall q: Place
      ensures At(s2, q) == At(s1, q)
    {
      WriteAtAt(s1, nmeta, i, bn, o, e, q);
    }
    forall k, j | 0 <= j < MAXFILE * BSIZE
      ensures ByteAt(s2, k, j) == if k == i && off <= j < off + tot + m then d[j - off] else ByteAt(s0, k, j)
    {
      WriteAtBytes(s1, nmeta, i, bn, o, e, k, j);
      assert ByteAt(s1, k, j) == ByteAt(s, k, j);
      assert bn * BSIZE + o == off + tot;
    }
    forall c: nat | off / BSIZE <= c && c * BSIZE < off + tot + m
      ensures At(s2, Place(i, DataSlot(c))) != 0
    {
      if c != bn {
        assert c * BSIZE < off + tot;
        assert c < MAXFILE;
        assert At(s, Place(i, DataSlot(c))) != 0;
      }
    }
    assert s2.inodes == s0.inodes[i := s0.inodes[i].(addrs := s2.inodes[i].addrs)];
  }

  /** A write of n bytes that ends at `end` moves the end of the file. */
  function WithSize(s: Fs, i: nat, end: nat, n: nat): Fs
    requires i in s.inodes
  {
    var ip := s.inodes[i];
    s.(inodes := s.inodes[i := ip.(size := if n > 0 && end > ip.size then end else ip.size)])
  }

  /** File i had its bytes from off on replaced by d, growing when d reaches past the end; every other file
      and the invariant are kept. */
  ghost predicate Replaced(s0: Fs, s': Fs, nmeta: nat, i: nat, off: nat, d: seq<byte>)
    requires Sized(s0) && i in s0.inodes && off <= s0.inodes[i].size
  {
    && Inv(s', nmeta) && s'.inodes.Keys == s0.inodes.Keys && |s'.blocks| == |s0.blocks|
    && Content(s', i) == Splice(Content(s0, i), off, d)
    && forall k :: k in s0.inodes && k != i ==>
         k in s'.inodes && s'.inodes[k] == s0.inodes[k] && Content(s', k) == Content(s0, k)
  }

  lemma SizeOnly(s: Fs, i: nat, size: nat, s': Fs)
    requires Sized(s) && i in s.inodes && s' == s.(inodes := s.inodes[i := s.inodes[i].(size := size)])
    ensures Sized(s') && (forall q: Place :: At(s', q) == At(s, q)) && forall k, j: nat ::
              ByteAt(s', k, j) == ByteAt(s, k, j)
  {
    forall q: Place
      ensures At(s', q) == At(s, q)
    {
    }
  }

  lemma WroteMapped(s0: Fs, s: Fs, nmeta: nat, i: nat, off: nat, d: seq<byte>, s': Fs)
    requires Wrote(s0, s, nmeta, i, off, d, |d|) && off <= s0.inodes[i].size && Mapped(s0, i) && Sized(s')
    requires i in s'.inodes && s'.inodes[i].size == if |d| > 0 && off + |d| > s0.inodes[i].size then off + |d|
        else s0.inodes[i].size
    requires forall q: Place :: At(s', q) == At(s, q)
    ensures Mapped(s', i)
  {
    hide At, ByteAt;
    forall bn: nat | bn * BSIZE < s'.inodes[i].size
      ensures At(s', Place(i, DataSlot(bn))) != 0
    {
      assert bn < MAXFILE;
      if bn * BSIZE < s0.inodes[i].size {
        assert At(s0, Place(i, DataSlot(bn))) != 0;
      } else {
        assert off / BSIZE <= bn;
        assert At(s, Place(i, DataSlot(bn))) != 0;
      }
    }
  }

  lemma WroteContent(s0: Fs, s: Fs, nmeta: nat, i: nat, off: nat, d: seq<byte>, s': Fs)
    requires Wrote(s0, s, nmeta, i, off, d, |d|) && off <= s0.inodes[i].size && Mapped(s0, i) && Sized(s')
    requires i in s'.inodes && s'.inodes[i].size == if |d| > 0 && off + |d| > s0.inodes[i].size then off + |d|
        else s0.inodes[i].size
    requires forall k, j: nat :: ByteAt(s', k, j) == ByteAt(s, k, j)
    ensures Content(s', i) == Splice(Content(s0, i), off, d)
  {
    hide At, ByteAt;
    var c, c' := Splice(Content(s0, i), off, d), Content(s', i);
    forall j | 0 <= j < |c'|
      ensures c'[j] == c[j]
    {
      assert c'[j] == ByteAt(s, i, j);
    }
  }

  lemma OtherFile(s0: Fs, s': Fs, nmeta: nat, i: nat, k: nat)
    requires Inv(s0, nmeta) && Sized(s') && k in s0.inodes && k in s'.inodes && k != i && s'.inodes[k] == s0.inodes[k]
    requires forall j :: 0 <= j < MAXFILE * BSIZE ==> ByteAt(s', k, j) == ByteAt(s0, k, j)
    requires forall q: Place :: q.slot < SLOTS && At(s0, q) != 0 ==> At(s', q) == At(s0, q)
    ensures Mapped(s', k) && Content(s', k) == Content(s0, k)
  {
    assert Mapped(s0, k);
    forall bn: nat | bn * BSIZE < s'.inodes[k].size
      ensures At(s', Place(k, DataSlot(bn))) != 0
    {
      assert bn < MAXFILE;
      assert At(s0, Place(k, DataSlot(bn))) != 0;
    }
  }

  /** The whole write, with the size as writei leaves it. */
  lemma WroteAll(s0: Fs, s: Fs, nmeta: nat, i: nat, off: nat, d: seq<byte>, s': Fs)
    requires Inv(s0, nmeta) && Wrote(s0, s, nmeta, i, off, d, |d|) && off <= s0.inodes[i].size
    requires s' == WithSize(s, i, off + |d|, |d|)
    ensures Replaced(s0, s', nmeta, i, off, d)
  {
    SizeOnly(s, i, s'.inodes[i].size, s');
    hide At, ByteAt;
    SamePointers(s, s', nmeta);
    WroteMapped(s0, s, nmeta, i, off, d, s');
    WroteContent(s0, s, nmeta, i, off, d, s');
    forall k | k in s0.inodes && k != i
      ensures Mapped(s', k) && Content(s', k) == Content(s0, k)
    {
      OtherFile(s0, s', nmeta, i, k);
    }
  }
}
