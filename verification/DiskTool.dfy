/** The walkers that rebuild the bitmap of an image, and the test for an inode. */
module DiskTool {
  import opened Octets
  import opened DiskBytes
  import opened DiskTree
  import opened DiskPlace
  import opened DiskFiles

  // ----- rebuilding the bitmap -----

  method Mark(bitmap: array<bool>, b: nat)
    requires b < bitmap.Length
    modifies bitmap
    ensures Used(bitmap) == old(Used(bitmap)) + {b}
  {
    bitmap[b] := true;
  }

  lemma MarkNext(kids: seq<Tree>, j: nat)
    requires j < |kids|
    ensures FootAll(kids[..j + 1]) == FootAll(kids[..j]) + Foot(kids[j])
  {
    assert kids[..j + 1][..j] == kids[..j];
  }

  ghost predicate Walkable(raw: array<byte>, n: nat, bitmap: array<bool>, t: Tree, h: nat)
    reads raw
  {
    IsImage(raw, n) && bitmap.Length == n && Stored(View(raw, n), t) && Shape(t, h)
  }

  /** What the walker meets at entry i of an index block. */
  lemma WalkStep(v: seq<Blk>, t: Tree, h: nat, i: nat)
    requires Stored(v, t) && Shape(t, h) && h > 0 && i <= |t.kids| && i < ENTRIES
    ensures Entry(v[t.at], i) == if i < |t.kids| then t.kids[i].at else 0
    ensures i < |t.kids| ==>
              && 0 < t.kids[i].at < |v| && Stored(v, t.kids[i]) && Shape(t.kids[i], h - 1)
              && FootAll(t.kids[..i + 1]) == FootAll(t.kids[..i]) + Foot(t.kids[i])
              && (h == 1 ==> Foot(t.kids[i]) == {t.kids[i].at})
  {
    if i < |t.kids| {
      MarkNext(t.kids, i);
    }
  }

  lemma WalkFacts(v: seq<Blk>, t: Tree, h: nat)
    requires Stored(v, t) && Shape(t, h) && h > 0
    ensures t.Node? && |t.kids| <= ENTRIES && 0 < t.at < |v|
    ensures FootAll(t.kids[..0]) == {} && Foot(t) == {t.at} + FootAll(t.kids[..|t.kids|])
  {
    assert t.kids[..|t.kids|] == t.kids;
  }

  method WalkIndirectBlock(bitmap: array<bool>, blockno: nat, raw: array<byte>, n: nat, ghost t: Tree)
    requires Walkable(raw, n, bitmap, t, 1) && t.at == blockno
    modifies bitmap
    ensures Used(bitmap) == old(Used(bitmap)) + Foot(t)
  {
    hide Stored, Shape;
    WalkFacts(View(raw, n), t, 1);
    ghost var used := Used(bitmap);
    Mark(bitmap, blockno);
    var i := 0;
    while i < ENTRIES
      invariant i <= |t.kids| && Used(bitmap) == used + {blockno} + FootAll(t.kids[..i])
    {
      WalkStep(View(raw, n), t, 1, i);
      var direct := ReadInt(raw, n, blockno, i);
      if direct == 0 { break; }
      Mark(bitmap, direct);
      i := i + 1;
    }
  }

  method WalkDoublyIndirectBlock(bitmap: array<bool>, blockno: nat, raw: array<byte>, n: nat, ghost t: Tree)
    requires Walkable(raw, n, bitmap, t, 2) && t.at == blockno
    modifies bitmap
    ensures Used(bitmap) == old(Used(bitmap)) + Foot(t)
  {
    hide Stored, Shape;
    WalkFacts(View(raw, n), t, 2);
    ghost var used := Used(bitmap);
    Mark(bitmap, blockno);
    var i := 0;
    while i < ENTRIES
      invariant i <= |t.kids| && Used(bitmap) == used + {blockno} + FootAll(t.kids[..i])
    {
      WalkStep(View(raw, n), t, 2, i);
      var indirect := ReadInt(raw, n, blockno, i);
      if indirect == 0 { break; }
      WalkIndirectBlock(bitmap, indirect, raw, n, t.kids[i]);
      i := i + 1;
    }
  }

  method WalkTriplyIndirectBlock(bitmap: array<bool>, blockno: nat, raw: array<byte>, n: nat, ghost t: Tree)
    requires Walkable(raw, n, bitmap, t, 3) && t.at == blockno
    modifies bitmap
    ensures Used(bitmap) == old(Used(bitmap)) + Foot(t)
  {
    hide Stored, Shape;
    WalkFacts(View(raw, n), t, 3);
    ghost var used := Used(bitmap);
    Mark(bitmap, blockno);
    var i := 0;
    while i < ENTRIES
      invariant i <= |t.kids| && Used(bitmap) == used + {blockno} + FootAll(t.kids[..i])
    {
      WalkStep(View(raw, n), t, 3, i);
      var doubly := ReadInt(raw, n, blockno, i);
      if doubly == 0 { break; }
      WalkDoublyIndirectBlock(bitmap, doubly, raw, n, t.kids[i]);
      i := i + 1;
    }
  }

  /** The j-th block pointer of the inode in slot k. */
  method ReadPtr(raw: array<byte>, n: nat, m: nat, k: Slot, j: nat, ghost f: FileRec) returns (p: int32)
    requires IsImage(raw, n) && FileOk(View(raw, n), m, k, f) && m <= n && j < N_PTRS
    ensures p == if j < |f.ts| then f.ts[j].at else 0
  {
    p := ReadInt(raw, n, k.d, INODE_WORDS * k.i + 8 + j);
    assert p == InodeWord(View(raw, n), k, 8 + j) == f.words[8 + j] == f.words[8..][j];
  }

  lemma TreeFacts(v: seq<Blk>, m: nat, k: Slot, f: FileRec, j: nat)
    requires FileOk(v, m, k, f) && j < |f.ts|
    ensures Stored(v, f.ts[j]) && Shape(f.ts[j], Level(j)) && 0 < f.ts[j].at < |v|
    ensures FootAll(f.ts[..j + 1]) == FootAll(f.ts[..j]) + Foot(f.ts[j])
    ensures Level(j) == 0 ==> Foot(f.ts[j]) == {f.ts[j].at}
  {
    MarkNext(f.ts, j);
  }

  lemma FileFacts(v: seq<Blk>, m: nat, k: Slot, f: FileRec)
    requires FileOk(v, m, k, f)
    ensures 0 < |f.ts| <= N_PTRS && InSlots(k, m) && k.d < |v|
    ensures FootAll(f.ts[..0]) == {}
  {
  }

  /** Marks the footprint of one file; returns at the first zero among direct and indirect pointers. */
  method PopulateBitmapInode(raw: array<byte>, bitmap: array<bool>, n: nat, m: nat, k: Slot, ghost f: FileRec)
    requires IsImage(raw, n) && bitmap.Length == n && m <= n && FileOk(View(raw, n), m, k, f)
    modifies bitmap
    ensures Used(bitmap) == old(Used(bitmap)) + FootAll(f.ts)
  {
    hide FileOk, Stored, Shape, Foot, FootAll, View;
    ghost var used, v := Used(bitmap), View(raw, n);
    FileFacts(v, m, k, f);
    for i := 0 to N_DBLOCKS
      invariant i <= |f.ts| && Used(bitmap) == used + FootAll(f.ts[..i])
    {
      var blockno := ReadPtr(raw, n, m, k, i, f);
      if i < |f.ts| { TreeFacts(v, m, k, f, i); }
      if blockno == 0 {
        assert f.ts[..i] == f.ts;
        return;
      }
      Mark(bitmap, blockno);
    }
    for i := 0 to N_IBLOCKS
      invariant 12 + i <= |f.ts| && Used(bitmap) == used + FootAll(f.ts[..12 + i])
    {
      var blockno := ReadPtr(raw, n, m, k, 12 + i, f);
      if 12 + i < |f.ts| { TreeFacts(v, m, k, f, 12 + i); }
      if blockno == 0 {
        assert f.ts[..12 + i] == f.ts;
        return;
      }
      WalkIndirectBlock(bitmap, blockno, raw, n, f.ts[12 + i]);
    }
    var i2 := ReadPtr(raw, n, m, k, 15, f);
    if 15 < |f.ts| { TreeFacts(v, m, k, f, 15); }
    if i2 != 0 {
      WalkDoublyIndirectBlock(bitmap, i2, raw, n, f.ts[15]);
    }
    var i3 := ReadPtr(raw, n, m, k, 16, f);
    if 16 < |f.ts| { TreeFacts(v, m, k, f, 16); }
    if i3 != 0 {
      WalkTriplyIndirectBlock(bitmap, i3, raw, n, f.ts[16]);
    }
    assert f.ts[..|f.ts|] == f.ts;
  }

  ghost predicate LooksLikeInode(v: seq<Blk>, k: Slot)
    requires k.d < |v| && k.i < INODES_PER_BLOCK
  {
    exists f :: 0 <= f < 7 && InodeWord(v, k, f) != 0
  }

  /** is_inode looks at the first seven words of the slot only. */
  method IsInode(raw: array<byte>, n: nat, k: Slot) returns (found: bool)
    requires IsImage(raw, n) && k.d < n && k.i < INODES_PER_BLOCK
    ensures found <==> LooksLikeInode(View(raw, n), k)
  {
    for f := 0 to 7
      invariant forall f' :: 0 <= f' < f ==> InodeWord(View(raw, n), k, f') == 0
    {
      var contents := ReadInt(raw, n, k.d, INODE_WORDS * k.i + f);
      if contents != 0 {
        assert InodeWord(View(raw, n), k, f) != 0;
        return true;
      }
    }
    return false;
  }

  /** On a well-formed image an inode is found exactly in the slots of the files. */
  lemma InodeFound(v: seq<Blk>, m: nat, files: map<Slot, FileRec>, k: Slot)
    requires ImageOk(v, m, files) && InSlots(k, m)
    ensures k.d < |v| && (k in files <==> LooksLikeInode(v, k))
  {
    if k in files {
      assert InodeWord(v, k, 1) == files[k].words[1];
    } else {
      assert SlotEmpty(v, k);
    }
  }

  /** The slots before (i, j) in scan order. */
  predicate Before(k: Slot, i: nat, j: nat) {
    k.i < INODES_PER_BLOCK && (k.d < i || (k.d == i && k.i < j))
  }

  ghost function FootBefore(files: map<Slot, FileRec>, i: nat, j: nat): set<nat> {
    set k, b | k in files && Before(k, i, j) && b in FootAll(files[k].ts) :: b
  }

  lemma FootStep(files: map<Slot, FileRec>, i: nat, j: nat)
    requires j < INODES_PER_BLOCK
    ensures Slot(i, j) in files ==>
              FootBefore(files, i, j + 1) == FootBefore(files, i, j) + FootAll(files[Slot(i, j)].ts)
    ensures Slot(i, j) !in files ==> FootBefore(files, i, j + 1) == FootBefore(files, i, j)
  {
    var k0 := Slot(i, j);
    var s0, s1 := FootBefore(files, i, j) + (if k0 in files then FootAll(files[k0].ts) else {}),
        FootBefore(files, i, j + 1);
    forall b | b in s0
      ensures b in s1
    {
      if b in FootBefore(files, i, j) {
        var k :| k in files && Before(k, i, j) && b in FootAll(files[k].ts);
        assert Before(k, i, j + 1);
      } else {
        assert Before(k0, i, j + 1);
      }
    }
    forall b | b in s1
      ensures b in s0
    {
      var k :| k in files && Before(k, i, j + 1) && b in FootAll(files[k].ts);
      if k != k0 { assert Before(k, i, j); }
    }
  }

  lemma FootRow(files: map<Slot, FileRec>, i: nat)
    ensures FootBefore(files, i, INODES_PER_BLOCK) == FootBefore(files, i + 1, 0)
    ensures FootBefore(files, 0, 0) == {}
  {
    forall k: Slot
      ensures Before(k, i, INODES_PER_BLOCK) <==> Before(k, i + 1, 0)
    {
    }
  }

  lemma FootEverything(v: seq<Blk>, m: nat, files: map<Slot, FileRec>)
    requires ImageOk(v, m, files)
    ensures FootBefore(files, m, 0) == AllFoot(files)
  {
    forall b | b in AllFoot(files)
      ensures b in FootBefore(files, m, 0)
    {
      var k :| k in files && b in FootAll(files[k].ts);
      assert FileOk(v, m, k, files[k]);
      assert Before(k, m, 0);
    }
  }

  /** The rebuilt bitmap marks exactly the blocks reachable from the existing inodes. */
  method WalkInodesInsert(raw: array<byte>, bitmap: array<bool>, n: nat, m: nat, ghost files: map<Slot, FileRec>)
    requires IsImage(raw, n) && bitmap.Length == n && ImageOk(View(raw, n), m, files)
    requires Used(bitmap) == {}
    modifies bitmap
    ensures Used(bitmap) == AllFoot(files)
  {
    hide FileOk, FreeZero, SlotEmpty, FootBefore, AllFoot, LooksLikeInode;
    ghost var v := View(raw, n);
    FootRow(files, 0);
    for i := 0 to m
      invariant Used(bitmap) == FootBefore(files, i, 0) && View(raw, n) == v
    {
      for j := 0 to 10
        invariant Used(bitmap) == FootBefore(files, i, j) && View(raw, n) == v
      {
        FootStep(files, i, j);
        InodeFound(v, m, files, Slot(i, j));
        var found := IsInode(raw, n, Slot(i, j));
        assert View(raw, n) == v;
        if found {
          PopulateBitmapInode(raw, bitmap, n, m, Slot(i, j), files[Slot(i, j)]);
        }
      }
      FootRow(files, i);
    }
    FootEverything(v, m, files);
  }
}
