/** Truncating a file: the lemmas behind itrunc and iput. */
module FsTrunc {
  import opened Blocks
  import opened Octets
  import opened FsSpec

  /** The blocks attached to file i: data blocks and the indirect block. */
  ghost predicate OwnedBy(s: Fs, i: nat, b: int)
    requires Sized(s)
  {
    exists slot: nat :: slot < SLOTS && At(s, Place(i, slot)) == b
  }

  /** s' is s after itrunc(i): the file is empty, its blocks are free, nothing else has changed. */
  ghost predicate Truncated(s: Fs, s': Fs, i: nat)
    requires Sized(s) && i in s.inodes
  {
    && Sized(s') && s'.blocks == s.blocks && i in s'.inodes
    && s'.inodes == s.inodes[i := s.inodes[i].(size := 0, addrs := s'.inodes[i].addrs)]
    && (forall k :: 0 <= k < 13 ==> s'.inodes[i].addrs[k] == 0)
    && (forall b :: 0 < b < |s.blocks| ==> s'.bitmap[b] == (s.bitmap[b] && !OwnedBy(s, i, b)))
    && (|s.blocks| > 0 ==> s'.bitmap[0] == s.bitmap[0])
  }

  lemma TruncatedAt(s: Fs, s': Fs, nmeta: nat, i: nat, q: Place)
    requires Ownership(s, nmeta) && i in s.inodes && Truncated(s, s', i)
    ensures At(s', q) == if q.i == i then 0 else At(s, q)
  {
  }

  lemma FreedNotOwned(s: Fs, s': Fs, nmeta: nat, i: nat, slot: nat)
    requires Ownership(s, nmeta) && Sized(s') && slot < SLOTS && At(s, Place(i, slot)) != 0
    requires forall q: Place :: At(s', q) == if q.i == i then 0 else At(s, q)
    ensures nmeta <= At(s, Place(i, slot)) < |s.blocks| && s.bitmap[At(s, Place(i, slot))]
    ensures !Owned(s', At(s, Place(i, slot)))
  {
    hide At;
    var b := At(s, Place(i, slot));
    assert Owned(s, b);
    forall q: Place | q.slot < SLOTS
      ensures At(s', q) != b
    {
      if q.i != i && At(s, q) != 0 {
        assert At(s, q) != At(s, Place(i, slot));
      }
    }
  }

  lemma OthersStillOwned(s: Fs, s': Fs, i: nat, b: int)
    requires Sized(s) && Sized(s') && b > 0 && !OwnedBy(s, i, b)
    requires forall q: Place :: At(s', q) == if q.i == i then 0 else At(s, q)
    ensures Owned(s', b) <==> Owned(s, b)
  {
    hide At;
    if Owned(s', b) {
      var q: Place :| q.slot < SLOTS && At(s', q) == b;
      assert At(s, q) == b;
    }
    if Owned(s, b) {
      var q: Place :| q.slot < SLOTS && At(s, q) == b;
      assert At(s, Place(q.i, q.slot)) == b;
      assert OwnedBy(s, q.i, b);
      assert At(s', q) == b;
    }
  }

  lemma TruncatedFiles(s: Fs, s': Fs, nmeta: nat, i: nat)
    requires Inv(s, nmeta) && i in s.inodes && Truncated(s, s', i)
    requires forall q: Place :: At(s', q) == if q.i == i then 0 else At(s, q)
    ensures forall k :: k in s'.inodes ==> Mapped(s', k)
    ensures forall k :: k in s.inodes && k != i ==> k in s'.inodes && Content(s', k) == Content(s, k)
  {
    forall k | k in s.inodes && k != i
      ensures Mapped(s', k) && Content(s', k) == Content(s, k)
    {
      assert Mapped(s, k);
      forall bn: nat | bn * BSIZE < s'.inodes[k].size
        ensures At(s', Place(k, DataSlot(bn))) != 0
      {
        assert At(s, Place(k, DataSlot(bn))) != 0;
      }
    }
  }

  /** Truncation returns exactly the blocks of this file and keeps every other file as it was. */
  lemma TruncatedKeeps(s: Fs, s': Fs, nmeta: nat, i: nat)
    requires Inv(s, nmeta) && i in s.inodes && Truncated(s, s', i)
    ensures Inv(s', nmeta)
    ensures forall b :: 0 <= b < |s.blocks| ==> (s.bitmap[b] && !s'.bitmap[b] <==> b > 0 && OwnedBy(s, i, b))
    ensures forall k :: k in s.inodes && k != i ==> k in s'.inodes && Content(s', k) == Content(s, k)
    ensures Content(s', i) == []
  {
    forall q: Place
      ensures At(s', q) == if q.i == i then 0 else At(s, q)
    {
      TruncatedAt(s, s', nmeta, i, q);
    }
    hide At, ByteAt;
    forall b | 0 <= b < |s.blocks|
      ensures b > 0 && OwnedBy(s, i, b) ==> nmeta <= b && s.bitmap[b] && !Owned(s', b)
      ensures b > 0 && !OwnedBy(s, i, b) ==> (Owned(s', b) <==> Owned(s, b))
    {
      if b > 0 && OwnedBy(s, i, b) {
        var slot: nat :| slot < SLOTS && At(s, Place(i, slot)) == b;
        FreedNotOwned(s, s', nmeta, i, slot);
      } else if b > 0 {
        OthersStillOwned(s, s', i, b);
      }
    }
    TruncatedFiles(s, s', nmeta, i);
  }

  // ----- the loops of itrunc -----

  /** Block b hangs from one of the data slots below n of file i. */
  ghost predicate Hit(s: Fs, i: nat, b: int, n: nat)
    requires Sized(s)
  {
    exists slot: nat :: slot < n && slot != 12 && At(s, Place(i, slot)) == b
  }

  /** The bitmap once the data slots below n have been freed. */
  ghost predicate Partly(s: Fs, bitmap: seq<bool>, i: nat, n: nat)
    requires Sized(s)
  {
    && |bitmap| == |s.bitmap| && (|bitmap| > 0 ==> bitmap[0] == s.bitmap[0])
    && forall b :: 0 < b < |bitmap| ==> bitmap[b] == (s.bitmap[b] && !Hit(s, i, b, n))
  }

  ghost predicate AllFreed(s: Fs, bitmap: seq<bool>, i: nat)
    requires Sized(s)
  {
    && |bitmap| == |s.bitmap| && (|bitmap| > 0 ==> bitmap[0] == s.bitmap[0])
    && forall b :: 0 < b < |bitmap| ==> bitmap[b] == (s.bitmap[b] && !OwnedBy(s, i, b))
  }

  /** In v the pointers 0 .. n of file i are empty, the others are as in s. */
  ghost predicate Cleared(s: Fs, v: Fs, i: nat, n: nat)
    requires Sized(s) && i in s.inodes && n <= 13
  {
    && i in v.inodes && v.inodes == s.inodes[i := s.inodes[i].(addrs := v.inodes[i].addrs)] && |v.inodes[i].addrs| == 13
    && v.blocks == s.blocks && |v.bitmap| == |v.blocks|
    && (forall k :: 0 <= k < n ==> v.inodes[i].addrs[k] == 0)
    && forall k :: n <= k < 13 ==> v.inodes[i].addrs[k] == s.inodes[i].addrs[k]
  }

  lemma ClearedAll(s: Fs, v: Fs, i: nat, s': Fs)
    requires Sized(s) && i in s.inodes && Cleared(s, v, i, 13) && AllFreed(s, v.bitmap, i)
    requires s' == v.(inodes := v.inodes[i := v.inodes[i].(size := 0)])
    ensures Truncated(s, s', i)
  {
    hide OwnedBy;
    assert s'.inodes == s.inodes[i := s.inodes[i].(size := 0, addrs := s'.inodes[i].addrs)];
  }

  lemma PartlyNone(s: Fs, i: nat)
    requires Sized(s)
    ensures Partly(s, s.bitmap, i, 0)
  {
  }

  lemma HitNext(s: Fs, i: nat, b: int, n: nat)
    requires Sized(s) && n != 12
    ensures Hit(s, i, b, n + 1) <==> Hit(s, i, b, n) || At(s, Place(i, n)) == b
  {
    hide At;
    if Hit(s, i, b, n + 1) && !Hit(s, i, b, n) {
      var slot: nat :| slot < n + 1 && slot != 12 && At(s, Place(i, slot)) == b;
      assert slot == n;
    }
  }

  /** Freeing the next data slot: its block is marked, so bfree does not panic. */
  lemma FreeNext(s: Fs, nmeta: nat, bitmap: seq<bool>, i: nat, n: nat)
    requires Ownership(s, nmeta) && Partly(s, bitmap, i, n) && n < SLOTS && n != 12
    ensures var a := At(s, Place(i, n));
      if a == 0 then Partly(s, bitmap, i, n + 1)
      else 0 < a < |bitmap| && bitmap[a] && Partly(s, bitmap[a := false], i, n + 1)
  {
    var a, bitmap' := At(s, Place(i, n)), bitmap;
    assert a != 0 ==> nmeta <= a < |s.blocks| && s.bitmap[a] && !Hit(s, i, a, n) by {
      if a != 0 {
        assert Owned(s, a);
        forall slot: nat | slot < n && slot != 12
          ensures At(s, Place(i, slot)) != a
        {
          assert Place(i, slot) != Place(i, n);
        }
      }
    }
    hide At, Ownership;
    if a != 0 { bitmap' := bitmap[a := false]; }
    forall b | 0 < b < |bitmap|
      ensures bitmap'[b] == (s.bitmap[b] && !Hit(s, i, b, n + 1))
    {
      HitNext(s, i, b, n);
    }
  }

  /** Slot 12 is not a data slot. */
  lemma SkipIndirect(s: Fs, bitmap: seq<bool>, i: nat)
    requires Sized(s) && Partly(s, bitmap, i, 12)
    ensures Partly(s, bitmap, i, 13)
  {
    hide At;
    forall b | 0 < b < |bitmap|
      ensures Hit(s, i, b, 13) <==> Hit(s, i, b, 12)
    {
      if Hit(s, i, b, 13) {
        var slot: nat :| slot < 13 && slot != 12 && At(s, Place(i, slot)) == b;
        assert slot < 12;
      }
    }
  }

  /** Without an indirect block there is nothing above slot 12. */
  lemma NoIndirect(s: Fs, bitmap: seq<bool>, i: nat)
    requires Sized(s) && i in s.inodes && s.inodes[i].addrs[12] == 0 && Partly(s, bitmap, i, 13)
    ensures AllFreed(s, bitmap, i)
  {
    forall b | 0 < b < |bitmap|
      ensures Hit(s, i, b, 13) <==> OwnedBy(s, i, b)
    {
      if OwnedBy(s, i, b) {
        var slot: nat :| slot < SLOTS && At(s, Place(i, slot)) == b;
        assert slot < 12;
      }
    }
  }

  /** The indirect block is freed last; it is still marked, and with it every block of the file is free. */
  lemma FreeIndirect(s: Fs, nmeta: nat, bitmap: seq<bool>, i: nat)
    requires Ownership(s, nmeta) && i in s.inodes && s.inodes[i].addrs[12] != 0 && Partly(s, bitmap, i, SLOTS)
    ensures var a := s.inodes[i].addrs[12];
      0 < a < |bitmap| && bitmap[a] && AllFreed(s, bitmap[a := false], i)
  {
    var a := s.inodes[i].addrs[12];
    IndirectOf(s, nmeta, i);
    assert Owned(s, a);
    assert !Hit(s, i, a, SLOTS) by {
      forall slot: nat | slot < SLOTS && slot != 12
        ensures At(s, Place(i, slot)) != a
      {
        assert Place(i, slot) != Place(i, 12);
      }
    }
    hide At, Ownership;
    forall b | 0 < b < |bitmap|
      ensures OwnedBy(s, i, b) <==> Hit(s, i, b, SLOTS) || b == a
    {
      if OwnedBy(s, i, b) {
        var slot: nat :| slot < SLOTS && At(s, Place(i, slot)) == b;
        assert slot != 12 ==> Hit(s, i, b, SLOTS);
      }
      assert At(s, Place(i, 12)) == a;
    }
  }

  lemma TruncatedParts(s: Fs, s': Fs, i: nat)
    requires Sized(s) && i in s.inodes && Truncated(s, s', i)
    ensures Sized(s') && |s'.blocks| == |s.blocks| && i in s'.inodes && s'.inodes == s.inodes[i := s'.inodes[i]]
    ensures s'.inodes[i].ref == s.inodes[i].ref && s'.inodes[i].nlink == s.inodes[i].nlink
  {
  }

  /** A change of an inode that leaves its size and its pointers alone changes no file. */
  lemma InodeOnly(s: Fs, nmeta: nat, i: nat, s': Fs)
    requires Inv(s, nmeta) && i in s.inodes && i in s'.inodes
    requires s' == s.(inodes := s.inodes[i := s'.inodes[i]])
    requires s'.inodes[i].size == s.inodes[i].size && s'.inodes[i].addrs == s.inodes[i].addrs
    ensures Inv(s', nmeta) && Sized(s) && Sized(s')
    ensures forall k :: k in s.inodes ==> k in s'.inodes && Content(s', k) == Content(s, k)
  {
    forall q: Place
      ensures At(s', q) == At(s, q)
    {
    }
    SamePointers(s, s', nmeta);
    hide At;
    forall k | k in s.inodes
      ensures Mapped(s', k) && Content(s', k) == Content(s, k)
    {
      assert Mapped(s, k);
    }
  }

  function DropRef(s: Fs, i: nat): Fs
    requires i in s.inodes && s.inodes[i].ref > 0
  {
    s.(inodes := s.inodes[i := s.inodes[i].(ref := s.inodes[i].ref - 1)])
  }

  /** File i is gone: its inode is free and exactly its blocks are unmarked; every other file is as before. */
  ghost predicate Freed(s: Fs, s': Fs, nmeta: nat, i: nat)
    requires Sized(s) && i in s.inodes
  {
    && Inv(s', nmeta) && s'.inodes.Keys == s.inodes.Keys && s'.blocks == s.blocks
    && s'.inodes[i] == s.inodes[i].(kind := 0, size := 0, ref := s'.inodes[i].ref, addrs := s'.inodes[i].addrs)
    && (forall k :: 0 <= k < 13 ==> s'.inodes[i].addrs[k] == 0)
    && (forall b :: 0 <= b < |s.blocks| ==> (s.bitmap[b] && !s'.bitmap[b] <==> b > 0 && OwnedBy(s, i, b)))
    && (forall b :: 0 <= b < |s.blocks| ==> (s'.bitmap[b] ==> s.bitmap[b]))
    && forall k :: k in s.inodes && k != i ==> s'.inodes[k] == s.inodes[k] && Content(s', k) == Content(s, k)
  }

  lemma FreedAll(s: Fs, s1: Fs, nmeta: nat, i: nat, s': Fs)
    requires Inv(s, nmeta) && i in s.inodes && Truncated(s, s1, i) && i in s'.inodes
    requires s' == s1.(inodes := s1.inodes[i := s1.inodes[i].(kind := 0, ref := s'.inodes[i].ref)])
    ensures Freed(s, s', nmeta, i)
  {
    TruncatedKeeps(s, s1, nmeta, i);
    InodeOnly(s1, nmeta, i, s');
    hide Inv, Ownership, At, Content, OwnedBy;
    assert s'.inodes.Keys == s.inodes.Keys;
  }

  lemma FreedInv(s: Fs, s': Fs, nmeta: nat, i: nat)
    requires Sized(s) && i in s.inodes && Freed(s, s', nmeta, i)
    ensures Inv(s', nmeta)
  {
  }

  lemma Dropped(s: Fs, i: nat, s': Fs)
    requires i in s.inodes && s.inodes[i].ref > 0
    requires s' == s.(inodes := s.inodes[i := s.inodes[i].(ref := s.inodes[i].ref - 1)])
    ensures s' == DropRef(s, i)
  {
  }
}
