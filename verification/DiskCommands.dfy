/** place_file, place_inode and the commands -create and -insert. */
module DiskCommands {
  import opened Collections
  import opened Octets
  import opened DiskBytes
  import opened DiskTree
  import opened DiskPlace
  import opened DiskFiles
  import opened DiskTool

  /** How a command ends: everything but Done is a message and exit(-1), with no image written. */
  datatype Outcome = Done | NoSpace | BadSlot | TooLarge

  datatype Owner = Owner(uid: int32, gid: int32, ctime: int32, mtime: int32, atime: int32)

  ghost predicate WordsFor(ws: seq<int32>, who: Owner, size: nat, ts: seq<Tree>) {
    && |ws| == INODE_WORDS && ws[0] == 0 && ws[1] == 1 && ws[2] == who.uid && ws[3] == who.gid && ws[4] == size
    && ws[5] == who.ctime && ws[6] == who.mtime && ws[7] == who.atime
    && PtrsOk(ws[8..], ts)
  }

  /** memcpy of the inode's words into its slot, after the checks on D, I and the slot. */
  method PlaceInode(k: Slot, m: nat, raw: array<byte>, n: nat, ws: seq<int32>) returns (ok: bool)
    requires IsImage(raw, n) && m <= n && |ws| == INODE_WORDS
    modifies raw
    ensures ok <==> InSlots(k, m) && !LooksLikeInode(old(View(raw, n)), k)
    ensures ok ==> View(raw, n) == old(View(raw, n))[k.d := PutWords(old(View(raw, n))[k.d], INODE_WORDS * k.i, ws)]
  {
    if k.d >= m || k.i >= 10 {
      return false;
    }
    var found := IsInode(raw, n, k);
    if found {
      return false;
    }
    ghost var v := View(raw, n);
    assert ws[..0] == [];
    for f := 0 to INODE_WORDS
      invariant View(raw, n) == v[k.d := PutWords(v[k.d], INODE_WORDS * k.i, ws[..f])]
    {
      WriteInt(raw, n, k.d, INODE_WORDS * k.i + f, ws[f]);
      assert ws[..f + 1][..f] == ws[..f];
    }
    assert ws[..INODE_WORDS] == ws;
    ok := true;
  }

  lemma PtrsGrow(ptrs: seq<int32>, ts: seq<Tree>, t: Tree, ptrs': seq<int32>)
    requires PtrsOk(ptrs, ts) && |ts| < N_PTRS && t.at <= MAXINT && ptrs' == ptrs[|ts| := t.at]
    ensures PtrsOk(ptrs', ts + [t])
  {
  }

  /** State between two placements: the trees so far are on the image, and ip points to them. */
  ghost predicate Midway(d0: Disk, raw: array<byte>, n: nat, m: nat, bitmap: array<bool>, buf: array<byte>,
                         ip: Inode, file: seq<byte>, nbytes: nat, ts: seq<Tree>)
    reads raw, bitmap, ip
  {
    && Ready(raw, n, m, bitmap, buf) && nbytes <= |file| && |ts| <= N_PTRS && FreeZero(d0.v, d0.used, m)
    && Planted(d0, At(raw, n, bitmap), m, file, nbytes, ts)
    && ip.Sized() && PtrsOk(ip.Ptrs(), ts)
    && FilePaying(d0.used, Used(bitmap), |file|, |file| - nbytes, |ts|)
  }

  /** The direct blocks. */
  method PlaceDirect(file: seq<byte>, raw: array<byte>, buf: array<byte>, bitmap: array<bool>, n: nat, m: nat,
                     ip: Inode, ghost d0: Disk) returns (ok: bool, nbytes: nat, ghost ts: seq<Tree>)
    requires Midway(d0, raw, n, m, bitmap, buf, ip, file, 0, [])
    modifies raw, buf, bitmap, ip`dblocks
    ensures ok ==> Midway(d0, raw, n, m, bitmap, buf, ip, file, nbytes, ts)
    ensures ok ==> 0 < |ts| && (nbytes < |file| ==> |ts| == N_DBLOCKS)
    ensures !ok ==> Paid(d0.used, Used(bitmap), false, FileCost(|file|), n, m)
  {
    hide Planted, Placed, FreeZero, PtrsOk, View, Used, Paid, FilePaying, Cost, Cap, FileCosts;
    nbytes, ts := 0, [];
    var slot := 0;
    while slot < N_DBLOCKS
      invariant |ts| == slot <= N_DBLOCKS && (slot == 0 ==> nbytes == 0) && (slot > 0 ==> nbytes < |file|)
      invariant Midway(d0, raw, n, m, bitmap, buf, ip, file, nbytes, ts)
    {
      ghost var d1, mid, ptrs := At(raw, n, bitmap), nbytes, ip.Ptrs();
      var blockno: nat;
      ok, blockno := GetFreeBlock(bitmap, n, m);
      PayBlock(d1.used, Used(bitmap), ok, blockno, |file| - nbytes, 0, n, m);
      PayPointer(d0.used, d1.used, Used(bitmap), ok, |file|, |file| - nbytes, slot, n, m);
      if !ok { return; }
      ip.dblocks := ip.dblocks[slot := blockno];
      nbytes := CopyChunk(file, nbytes, raw, n, blockno, buf);
      ghost var t := Leaf(blockno, buf[..]);
      PlacedLeaf(d1, At(raw, n, bitmap), m, file, mid, nbytes, blockno, buf[..]);
      PlacedFacts(d1, At(raw, n, bitmap), m, file, mid, nbytes, t, 0);
      PlantOne(d0, d1, At(raw, n, bitmap), m, file, mid, nbytes, ts, t);
      PlantedFacts(d0, At(raw, n, bitmap), m, file, nbytes, ts + [t]);
      assert ip.Ptrs() == ptrs[slot := blockno];
      PtrsGrow(ptrs, ts, t, ip.Ptrs());
      ts := ts + [t];
      slot := slot + 1;
      if nbytes >= |file| { break; }
    }
    ok := true;
  }

  lemma Planting(d0: Disk, d1: Disk, d2: Disk, m: nat, file: seq<byte>, mid: nat, to: nat, ts: seq<Tree>, t: Tree,
                 ptrs: seq<int32>, ptrs': seq<int32>) returns (ts': seq<Tree>)
    requires Planted(d0, d1, m, file, mid, ts) && mid < |file| && |ts| < N_PTRS && FreeZero(d0.v, d0.used, m)
    requires Placed(d1, d2, m, file, mid, to, t, Level(|ts|)) && |d2.v| <= MAXINT
    requires PtrsOk(ptrs, ts) && t.at <= MAXINT && ptrs' == ptrs[|ts| := t.at]
    ensures ts' == ts + [t] && Planted(d0, d2, m, file, to, ts') && PtrsOk(ptrs', ts')
    ensures FreeZero(d2.v, d2.used, m) && to <= |file|
  {
    ts' := ts + [t];
    PlantOne(d0, d1, d2, m, file, mid, to, ts, t);
    PlantedFacts(d0, d2, m, file, to, ts');
    PtrsGrow(ptrs, ts, t, ptrs');
  }

  /** The indirect, doubly and triply indirect blocks, each only if the file goes on. */
  method PlaceIndirects(file: seq<byte>, raw: array<byte>, buf: array<byte>, bitmap: array<bool>, n: nat, m: nat,
                        ip: Inode, ghost d0: Disk, start: nat, ghost ts0: seq<Tree>)
    returns (ok: bool, nbytes: nat, ghost ts: seq<Tree>)
    requires Midway(d0, raw, n, m, bitmap, buf, ip, file, start, ts0)
    requires 0 < |ts0| && (start < |file| ==> |ts0| == N_DBLOCKS)
    modifies raw, buf, bitmap, ip`iblocks, ip`i2block, ip`i3block
    ensures ok ==> Midway(d0, raw, n, m, bitmap, buf, ip, file, nbytes, ts)
    ensures ok ==> 0 < |ts| && (nbytes < |file| ==> |ts| == N_PTRS)
    ensures !ok ==> Paid(d0.used, Used(bitmap), false, FileCost(|file|), n, m)
  {
    hide Planted, Placed, FreeZero, PtrsOk, View, Used, Paid, FilePaying, Cost, Cap, FileCosts;
    nbytes, ts, ok := start, ts0, true;
    var numIndirect := 0;
    while numIndirect < N_IBLOCKS && nbytes < |file|
      invariant 0 < |ts| && numIndirect <= N_IBLOCKS && (nbytes < |file| ==> |ts| == N_DBLOCKS + numIndirect)
      invariant Midway(d0, raw, n, m, bitmap, buf, ip, file, nbytes, ts)
    {
      ghost var d1, mid, ptrs := At(raw, n, bitmap), nbytes, ip.Ptrs();
      var blockno: nat;
      ghost var t: Tree;
      ok, blockno, nbytes, t := PlaceIndirectBlock(file, raw, buf, bitmap, n, m, numIndirect, ip, nbytes);
      PayPointer(d0.used, d1.used, Used(bitmap), ok, |file|, |file| - mid, |ts|, n, m);
      if !ok { return; }
      PlacedFacts(d1, At(raw, n, bitmap), m, file, mid, nbytes, t, Level(|ts|));
      assert ip.Ptrs() == ptrs[|ts| := t.at];
      ts := Planting(d0, d1, At(raw, n, bitmap), m, file, mid, nbytes, ts, t, ptrs, ip.Ptrs());
      numIndirect := numIndirect + 1;
    }
    if nbytes < |file| {
      ghost var d1, mid, ptrs := At(raw, n, bitmap), nbytes, ip.Ptrs();
      var blockno: nat;
      ghost var t: Tree;
      ok, blockno, nbytes, t := PlaceDoublyIndirectBlock(file, raw, buf, bitmap, n, m, ip, nbytes, false);
      PayPointer(d0.used, d1.used, Used(bitmap), ok, |file|, |file| - mid, |ts|, n, m);
      if !ok { return; }
      PlacedFacts(d1, At(raw, n, bitmap), m, file, mid, nbytes, t, Level(|ts|));
      assert ip.Ptrs() == ptrs[|ts| := t.at];
      ts := Planting(d0, d1, At(raw, n, bitmap), m, file, mid, nbytes, ts, t, ptrs, ip.Ptrs());
    }
    if nbytes < |file| {
      ghost var d1, mid, ptrs := At(raw, n, bitmap), nbytes, ip.Ptrs();
      ghost var t: Tree;
      ok, nbytes, t := PlaceTriplyIndirectBlock(file, raw, buf, bitmap, n, m, ip, nbytes);
      PayPointer(d0.used, d1.used, Used(bitmap), ok, |file|, |file| - mid, |ts|, n, m);
      if !ok { return; }
      PlacedFacts(d1, At(raw, n, bitmap), m, file, mid, nbytes, t, Level(|ts|));
      assert ip.Ptrs() == ptrs[|ts| := t.at];
      ts := Planting(d0, d1, At(raw, n, bitmap), m, file, mid, nbytes, ts, t, ptrs, ip.Ptrs());
    }
  }

  lemma NoPtrs(ptrs: seq<int32>)
    requires ptrs == seq(17, i => 0)
    ensures PtrsOk(ptrs, [])
  {
  }

  lemma FilledInode(ip: Inode, who: Owner, size: nat, ts: seq<Tree>)
    requires ip.Sized() && PtrsOk(ip.Ptrs(), ts)
    requires ip.mode == 0 && ip.nlink == 1 && ip.uid == who.uid && ip.gid == who.gid && ip.size == size
    requires ip.ctime == who.ctime && ip.mtime == who.mtime && ip.atime == who.atime
    ensures WordsFor(ip.Words(), who, size, ts)
  {
  }

  /** Every block of the file, all pointers set in ip. */
  method PlaceBlocks(file: seq<byte>, raw: array<byte>, bitmap: array<bool>, n: nat, m: nat, ip: Inode)
    returns (ok: bool, nbytes: nat, ghost ts: seq<Tree>)
    requires IsImage(raw, n) && 0 < m <= n == bitmap.Length && FreeZero(View(raw, n), Used(bitmap), m)
    requires |file| <= MAXINT && ip.Sized() && PtrsOk(ip.Ptrs(), [])
    modifies raw, bitmap, ip`dblocks, ip`iblocks, ip`i2block, ip`i3block
    ensures ok ==> nbytes == |file| && Planted(old(At(raw, n, bitmap)), At(raw, n, bitmap), m, file, |file|, ts)
    ensures ok ==> 0 < |ts| && ip.Sized() && PtrsOk(ip.Ptrs(), ts)
    ensures Paid(old(Used(bitmap)), Used(bitmap), ok, FileCost(|file|), n, m)
  {
    hide Planted, FreeZero, PtrsOk, View, Used, Paid, Cost, Cap, FileCosts;
    ghost var d0 := At(raw, n, bitmap);
    var buf := new byte[BLOCK_SZ];
    NothingPlanted(d0, m, file);
    ok, nbytes, ts := PlaceDirect(file, raw, buf, bitmap, n, m, ip, d0);
    if !ok { return; }
    ok, nbytes, ts := PlaceIndirects(file, raw, buf, bitmap, n, m, ip, d0, nbytes, ts);
    if !ok { return; }
    if nbytes < |file| {
      NeverTooLarge(d0, At(raw, n, bitmap), m, file, nbytes, ts);
    }
    PayFile(d0.used, Used(bitmap), |file|, |ts|, n, m);
  }

  method PlaceFile(file: seq<byte>, who: Owner, k: Slot, m: nat, raw: array<byte>, bitmap: array<bool>, n: nat)
    returns (res: Outcome, ghost ts: seq<Tree>, ghost ws: seq<int32>, ghost d: Disk)
    requires IsImage(raw, n) && 0 < m <= n == bitmap.Length && FreeZero(View(raw, n), Used(bitmap), m)
    requires |file| <= MAXINT
    modifies raw, bitmap
    ensures res != TooLarge
    ensures Paid(old(Used(bitmap)), Used(bitmap), res != NoSpace, FileCost(|file|), n, m)
    ensures res == Done || res == BadSlot ==> Planted(old(At(raw, n, bitmap)), d, m, file, |file|, ts) && 0 < |ts|
    ensures res == Done || res == BadSlot ==> d.used == Used(bitmap)
    ensures res == BadSlot ==> |d.v| == n && (!InSlots(k, m) || LooksLikeInode(d.v, k))
    ensures res == Done ==> |d.v| == n && InSlots(k, m) && !LooksLikeInode(d.v, k) && WordsFor(ws, who, |file|, ts)
    ensures res == Done ==> View(raw, n) == d.v[k.d := PutWords(d.v[k.d], INODE_WORDS * k.i, ws)]
  {
    hide Planted, FreeZero, PtrsOk, PutWords, LooksLikeInode, View, Used, WordsFor, Inode.Words, Paid, FileCosts;
    ws, d := [], At(raw, n, bitmap);
    var ip := new Inode();
    ip.mode, ip.nlink, ip.uid, ip.gid := 0, 1, who.uid, who.gid;
    ip.ctime, ip.mtime, ip.atime := who.ctime, who.mtime, who.atime;
    NoPtrs(ip.Ptrs());
    var ok, nbytes;
    ok, nbytes, ts := PlaceBlocks(file, raw, bitmap, n, m, ip);
    if !ok { return NoSpace, ts, ws, d; }
    d := At(raw, n, bitmap);
    if nbytes < |file| { return TooLarge, ts, ws, d; }
    ip.size := nbytes;
    ws := ip.Words();
    FilledInode(ip, who, |file|, ts);
    ok := PlaceInode(k, m, raw, n, ip.Words());
    res := if ok then Done else BadSlot;
  }

  // ----- the commands -----

  /** The blocks of an image file. */
  ghost function Blocks(image: seq<byte>, n: nat): seq<Blk>
    requires |image| == n * BLOCK_SZ
  {
    seq(n, b requires 0 <= b < n => image[b * BLOCK_SZ..(b + 1) * BLOCK_SZ])
  }

  /** malloc followed by fread of the whole image. */
  method Load(image: seq<byte>, n: nat) returns (raw: array<byte>)
    requires |image| == n * BLOCK_SZ && n <= MAXBLOCKS
    ensures fresh(raw) && IsImage(raw, n) && View(raw, n) == Blocks(image, n)
  {
    raw := new byte[n * BLOCK_SZ];
    forall i | 0 <= i < raw.Length {
      raw[i] := image[i];
    }
    assert raw[..] == image;
    forall b | 0 <= b < n
      ensures View(raw, n)[b] == Blocks(image, n)[b]
    {
    }
  }

  lemma SameBlocks(raw: array<byte>, n: nat)
    requires IsImage(raw, n)
    ensures |raw[..]| == n * BLOCK_SZ && Blocks(raw[..], n) == View(raw, n)
  {
  }

  method FreshBitmap(n: nat) returns (bitmap: array<bool>)
    ensures fresh(bitmap) && bitmap.Length == n && Used(bitmap) == {}
  {
    bitmap := new bool[n](i => false);
  }

  /** The allocator gives up exactly when the blocks from m to n cannot take what is there and what is needed.
      The blocks counted are those from lo on: m for -insert, 0 for -create, which marks the inode blocks. */
  lemma SpaceRunsOut(was: set<nat>, used: set<nat>, ok: bool, cost: nat, n: nat, m: nat, lo: nat)
    requires Paid(was, used, ok, cost, n, m) && lo <= m <= n
    requires ok ==> forall b :: b in used ==> lo <= b < n
    requires !ok ==> forall b :: lo <= b < m ==> b in was
    ensures !ok <==> n - lo < |was| + cost
  {
    var all := Below(n) - Below(lo);
    assert Below(n) == all + Below(lo) && |all| == n - lo;
    if ok {
      SubsetSize(used, all);
    } else {
      SubsetSize(all, used);
    }
  }

  lemma ImageFoot(v: seq<Blk>, m: nat, files: map<Slot, FileRec>)
    requires ImageOk(v, m, files)
    ensures forall b :: b in AllFoot(files) ==> m <= b < |v|
  {
    hide Forest, AllStored, SlotHolds, PtrsOk, SlotEmpty, FreeZero, Carries;
  }

  /** place_inode looks at the slot after the data has been placed, but data never lies below block m. */
  lemma SlotWasFree(v: seq<Blk>, m: nat, files: map<Slot, FileRec>, d: Disk, file: seq<byte>, ts: seq<Tree>, k: Slot)
    requires ImageOk(v, m, files) && InSlots(k, m) && |d.v| == |v|
    requires Planted(Disk(v, AllFoot(files)), d, m, file, |file|, ts)
    ensures k in files <==> LooksLikeInode(d.v, k)
  {
    InodeFound(v, m, files, k);
    assert d.v[k.d] == v[k.d];
    assert forall f :: 0 <= f < 7 ==> InodeWord(d.v, k, f) == InodeWord(v, k, f);
  }

  /** -insert: rebuild the bitmap from the image, place the file, write the image back.  When anything
      fails the image file keeps its old bytes. */
  method Insert(image: seq<byte>, n: nat, m: nat, file: seq<byte>, who: Owner, k: Slot, ghost files: map<Slot, FileRec>)
    returns (res: Outcome, image': seq<byte>, ghost files': map<Slot, FileRec>)
    requires |image| == n * BLOCK_SZ && n <= MAXBLOCKS && |file| <= MAXINT
    requires ImageOk(Blocks(image, n), m, files)
    ensures |image'| == n * BLOCK_SZ && ImageOk(Blocks(image', n), m, files')
    ensures res == Done <==> files' != files
    ensures res == Done ==> k !in files && k in files' && files' == files[k := files'[k]]
                            && files'[k].content == file && WordsFor(files'[k].words, who, |file|, files'[k].ts)
    ensures res != Done ==> image' == image && files' == files
    ensures res == NoSpace <==> n - m < |AllFoot(files)| + FileCost(|file|)
    ensures res == BadSlot <==> n - m >= |AllFoot(files)| + FileCost(|file|) && (!InSlots(k, m) || k in files)
    ensures res == Done ==> |AllFoot(files')| == |AllFoot(files)| + FileCost(|file|)
    ensures res != TooLarge
  {
    hide FileOk, Forest, FreeZero, FileCosts, Stored, Shape, Carries, AllFoot, Used, View, PtrsOk, Blocks, PutWords,
        LooksLikeInode, SlotEmpty;
    image', files' := image, files;
    var raw := Load(image, n);
    var bitmap := FreshBitmap(n);
    ghost var v := View(raw, n);
    assert FreeZero(v, AllFoot(files), m);
    WalkInodesInsert(raw, bitmap, n, m, files);
    ghost var ts: seq<Tree>, ws: seq<int32>, d: Disk;
    res, ts, ws, d := PlaceFile(file, who, k, m, raw, bitmap, n);
    ImageFoot(v, m, files);
    SpaceRunsOut(AllFoot(files), Used(bitmap), res != NoSpace, FileCost(|file|), n, m, m);
    if res == Done {
      SlotWasFree(v, m, files, d, file, ts, k);
      AllFootMore(files, k, FileRec(ws, ts, file));
      ImageAfterInsert(v, m, files, d, file, ts, k, ws, View(raw, n));
      image', files' := raw[..], files[k := FileRec(ws, ts, file)];
      SameBlocks(raw, n);
    } else if res == BadSlot && InSlots(k, m) {
      SlotWasFree(v, m, files, d, file, ts, k);
    }
  }

  /** The inode blocks are never handed out. */
  method MarkInodes(bitmap: array<bool>, m: nat)
    requires m <= bitmap.Length && Used(bitmap) == {}
    modifies bitmap
    ensures Used(bitmap) == Below(m)
  {
    for i := 0 to m
      invariant Used(bitmap) == Below(i)
    {
      Mark(bitmap, i);
    }
  }

  lemma ZeroImage(v: seq<Blk>, n: nat, m: nat)
    requires 0 < m <= n == |v| && v == Blocks(seq(n * BLOCK_SZ, i => 0), n)
    ensures ImageOk(v, m, map[]) && AllFoot(map[]) == {} && FreeZero(v, Below(m), m)
  {
    var zeros: seq<byte> := seq(n * BLOCK_SZ, i => 0);
    forall b | 0 <= b < n
      ensures v[b] == ZeroBlk()
    {
      assert v[b] == zeros[b * BLOCK_SZ..(b + 1) * BLOCK_SZ];
    }
    ZeroEntries();
  }

  lemma UsedBelow(bitmap: array<bool>, n: nat)
    requires n == bitmap.Length
    ensures forall b :: b in Used(bitmap) ==> 0 <= b < n
  {
  }

  /** The marks on the m inode blocks make no difference to what the file claims. */
  lemma Unmark(v: seq<Blk>, d: Disk, m: nat, file: seq<byte>, ts: seq<Tree>)
    requires Planted(Disk(v, Below(m)), d, m, file, |file|, ts)
    ensures Planted(Disk(v, AllFoot(map[])), Disk(d.v, FootAll(ts)), m, file, |file|, ts)
  {
    assert AllFoot(map[]) + FootAll(ts) == FootAll(ts);
  }

  lemma CreatedSlot(v: seq<Blk>, n: nat, m: nat, d: Disk, file: seq<byte>, ts: seq<Tree>, k: Slot)
    requires 0 < m <= n == |v| == |d.v| && v == Blocks(seq(n * BLOCK_SZ, i => 0), n)
    requires Planted(Disk(v, Below(m)), d, m, file, |file|, ts)
    ensures InSlots(k, m) ==> !LooksLikeInode(d.v, k)
  {
    hide Planted, ImageOk;
    ZeroImage(v, n, m);
    Unmark(v, d, m, file, ts);
    if InSlots(k, m) {
      SlotWasFree(v, m, map[], Disk(d.v, FootAll(ts)), file, ts, k);
    }
  }

  lemma CreatedUse(v: seq<Blk>, d: Disk, m: nat, file: seq<byte>, ts: seq<Tree>,
                   cost: nat, n: nat)
    requires Planted(Disk(v, Below(m)), d, m, file, |file|, ts) && Paid(Below(m), d.used, true, cost, n, m)
    ensures |FootAll(ts)| == cost
  {
    hide Forest, AllStored, Carries;
    assert d.used == Below(m) + FootAll(ts);
  }

  lemma CreatedImage(v: seq<Blk>, n: nat, m: nat, d: Disk, file: seq<byte>, ts: seq<Tree>, k: Slot, ws: seq<int32>,
                     v': seq<Blk>, who: Owner)
    requires 0 < m <= n == |v| == |d.v| && v == Blocks(seq(n * BLOCK_SZ, i => 0), n) && InSlots(k, m)
    requires Planted(Disk(v, Below(m)), d, m, file, |file|, ts) && 0 < |ts| && WordsFor(ws, who, |file|, ts)
    requires v' == d.v[k.d := PutWords(d.v[k.d], INODE_WORDS * k.i, ws)]
    ensures ImageOk(v', m, map[k := FileRec(ws, ts, file)])
    ensures AllFoot(map[k := FileRec(ws, ts, file)]) == FootAll(ts)
  {
    hide Planted, ImageOk, PtrsOk, PutWords;
    ZeroImage(v, n, m);
    Unmark(v, d, m, file, ts);
    ImageAfterInsert(v, m, map[], Disk(d.v, FootAll(ts)), file, ts, k, ws, v');
    AllFootMore(map[], k, FileRec(ws, ts, file));
    assert map[][k := FileRec(ws, ts, file)] == map[k := FileRec(ws, ts, file)];
  }

  /** -create: a zero-filled image whose first m blocks are reserved, holding one file. */
  method Create(n: nat, m: nat, file: seq<byte>, who: Owner, k: Slot)
    returns (res: Outcome, image: seq<byte>, ghost files: map<Slot, FileRec>)
    requires 0 < m <= n <= MAXBLOCKS && |file| <= MAXINT
    ensures res == Done ==> |image| == n * BLOCK_SZ && ImageOk(Blocks(image, n), m, files) && files.Keys == {k}
                            && files[k].content == file && WordsFor(files[k].words, who, |file|, files[k].ts)
    ensures res == NoSpace <==> n - m < FileCost(|file|)
    ensures res == BadSlot <==> n - m >= FileCost(|file|) && !InSlots(k, m)
    ensures res == Done ==> |AllFoot(files)| == FileCost(|file|)
    ensures res != TooLarge
  {
    hide Planted, ImageOk, FreeZero, FileCosts, AllFoot, Used, View, Blocks, PutWords, LooksLikeInode, WordsFor, Paid;
    image, files := [], map[];
    var zeros: seq<byte> := seq(n * BLOCK_SZ, i => 0);
    var raw := Load(zeros, n);
    var bitmap := FreshBitmap(n);
    ghost var v := View(raw, n);
    MarkInodes(bitmap, m);
    ZeroImage(v, n, m);
    ghost var ts: seq<Tree>, ws: seq<int32>, d: Disk;
    res, ts, ws, d := PlaceFile(file, who, k, m, raw, bitmap, n);
    UsedBelow(bitmap, n);
    SpaceRunsOut(Below(m), Used(bitmap), res != NoSpace, FileCost(|file|), n, m, 0);
    if res != NoSpace {
      CreatedSlot(v, n, m, d, file, ts, k);
      CreatedUse(v, d, m, file, ts, FileCost(|file|), n);
    }
    if res == Done {
      files := map[k := FileRec(ws, ts, file)];
      CreatedImage(v, n, m, d, file, ts, k, ws, View(raw, n), who);
      image := raw[..];
      SameBlocks(raw, n);
    }
  }
}
