/** Whole files and whole images: what an image that was built by create and insert looks like, and
    why adding one file disturbs no other. */
module DiskFiles {
  import opened Octets
  import opened DiskBytes
  import opened DiskTree
  import opened DiskPlace

  const N_DBLOCKS: nat := 12
  const N_IBLOCKS: nat := 3
  const N_PTRS: nat := 17
  const INODE_WORDS: nat := 25
  const INODES_PER_BLOCK: nat := 10
  const MAXINT: nat := 0x7fff_ffff

  /** The level of the tree behind the j-th pointer of an inode. */
  function Level(j: nat): nat {
    if j < 12 then 0 else if j < 15 then 1 else if j == 15 then 2 else 3
  }

  /** The trees of one file, in pointer order: only the last one may be partly filled. */
  ghost predicate Forest(ts: seq<Tree>) {
    && |ts| <= N_PTRS && AllSeparate(ts)
    && (forall j :: 0 <= j < |ts| ==> Shape(ts[j], Level(j)))
    && (forall j :: 0 <= j < |ts| - 1 ==> |Bytes(ts[j])| == Cap(Level(j)))
  }

  /** The first `to` bytes of the file have been placed behind the first |ts| pointers. */
  ghost predicate Planted(d0: Disk, d: Disk, m: nat, file: seq<byte>, to: nat, ts: seq<Tree>) {
    && to <= |file| && Claimed(d0, d, m, FootAll(ts))
    && AllStored(d.v, ts) && Forest(ts) && Carries(BytesAll(ts), file[..to])
    && (to < |file| ==> |BytesAll(ts)| == to && forall j :: 0 <= j < |ts| ==> |Bytes(ts[j])| == Cap(Level(j)))
  }

  lemma NothingPlanted(d0: Disk, m: nat, file: seq<byte>)
    ensures Planted(d0, d0, m, file, 0, [])
  {
    assert FootAll([]) == {};
  }

  lemma CarriesMore(all: seq<byte>, more: seq<byte>, file: seq<byte>, mid: nat, to: nat)
    requires mid <= to <= |file| && Carries(all, file[..mid]) && Carries(more, file[mid..to])
    requires all == [] || |all| == mid
    ensures Carries(all + more, file[..to])
  {
    assert file[..to] == file[..mid] + file[mid..to];
  }

  lemma PlantOne(d0: Disk, d1: Disk, d2: Disk, m: nat, file: seq<byte>, mid: nat, to: nat, ts: seq<Tree>, t: Tree)
    requires Planted(d0, d1, m, file, mid, ts) && (mid < |file| || ts == []) && |ts| < N_PTRS
    requires Placed(d1, d2, m, file, mid, to, t, Level(|ts|))
    ensures Planted(d0, d2, m, file, to, ts + [t])
  {
    hide Stored, Shape, Separate, Cap;
    Append(ts, t);
    forall j | 0 <= j < |ts|
      ensures Stored(d2.v, ts[j])
    {
      FootHolds(ts, j);
      StoredFrame(d1.v, d2.v, ts[j]);
    }
    assert Carries(BytesAll(ts + [t]), file[..to]) by {
      hide AllStored, FreeZero, FootAll, AllSeparate;
      CarriesMore(BytesAll(ts), Bytes(t), file, mid, to);
    }
  }

  lemma PlantedFacts(d0: Disk, d: Disk, m: nat, file: seq<byte>, to: nat, ts: seq<Tree>)
    requires Planted(d0, d, m, file, to, ts) && FreeZero(d0.v, d0.used, m)
    ensures FreeZero(d.v, d.used, m) && to <= |file| && |ts| <= N_PTRS && |d.v| == |d0.v|
  {
  }

  // ----- how many blocks a file takes -----

  /** The blocks behind the pointers from the j-th on, when r bytes are left.  An empty file still takes its
      first block. */
  function FileCosts(r: nat, j: nat): nat
    decreases N_PTRS - j
  {
    if j >= N_PTRS || (r == 0 && j > 0) then 0
    else Cost(r, Level(j)) + FileCosts(Rest(r, Cap(Level(j))), j + 1)
  }

  function FileCost(r: nat): nat {
    FileCosts(r, 0)
  }

  /** The first j pointers have been paid for, out of the cost of the whole file. */
  ghost predicate FilePaying(was: set<nat>, used: set<nat>, size: nat, left: nat, j: nat) {
    was <= used && |used| + FileCosts(left, j) == |was| + FileCost(size)
  }

  lemma PayPointer(was: set<nat>, used: set<nat>, used': set<nat>, ok: bool, size: nat, left: nat, j: nat, n: nat,
                   m: nat)
    requires FilePaying(was, used, size, left, j) && j < N_PTRS && (left > 0 || j == 0)
    requires Paid(used, used', ok, Cost(left, Level(j)), n, m)
    ensures ok ==> FilePaying(was, used', size, Rest(left, Cap(Level(j))), j + 1)
    ensures !ok ==> Paid(was, used', false, FileCost(size), n, m)
  {
    hide Cost, Cap, Level;
  }

  lemma PayFile(was: set<nat>, used: set<nat>, size: nat, j: nat, n: nat, m: nat)
    requires FilePaying(was, used, size, 0, j) && j > 0
    ensures Paid(was, used, true, FileCost(size), n, m)
  {
    hide Cost, Cap, Level;
  }

  // ----- inodes in their slots -----

  /** The words from k on, replaced by ws. */
  function PutWords(b: Blk, k: nat, ws: seq<int32>): Blk
    requires k + |ws| <= ENTRIES
  {
    if ws == [] then b else PutEntry(PutWords(b, k, ws[..|ws| - 1]), k + |ws| - 1, ws[|ws| - 1])
  }

  lemma {:induction false} WordsAfterPut(b: Blk, k: nat, ws: seq<int32>)
    requires k + |ws| <= ENTRIES
    ensures forall j :: 0 <= j < |ws| ==> Entry(PutWords(b, k, ws), k + j) == ws[j]
    ensures forall e :: 0 <= e < ENTRIES && !(k <= e < k + |ws|) ==> Entry(PutWords(b, k, ws), e) == Entry(b, e)
  {
    if ws != [] {
      var n := |ws| - 1;
      WordsAfterPut(b, k, ws[..n]);
      EntryAfterPut(PutWords(b, k, ws[..n]), k + n, ws[n]);
      assert forall j :: 0 <= j < n ==> ws[j] == ws[..n][j];
    }
  }

  /** Position of a file's inode: block and index inside the block. */
  datatype Slot = Slot(d: nat, i: nat)

  predicate InSlots(k: Slot, m: nat) {
    k.d < m && k.i < INODES_PER_BLOCK
  }

  function InodeWord(v: seq<Blk>, k: Slot, f: nat): int32
    requires k.d < |v| && k.i < INODES_PER_BLOCK && f < INODE_WORDS
  {
    Entry(v[k.d], INODE_WORDS * k.i + f)
  }

  ghost predicate SlotHolds(v: seq<Blk>, k: Slot, ws: seq<int32>) {
    && k.d < |v| && k.i < INODES_PER_BLOCK && |ws| == INODE_WORDS
    && forall f :: 0 <= f < INODE_WORDS ==> InodeWord(v, k, f) == ws[f]
  }

  ghost predicate SlotEmpty(v: seq<Blk>, k: Slot)
    requires k.d < |v| && k.i < INODES_PER_BLOCK
  {
    forall f :: 0 <= f < INODE_WORDS ==> InodeWord(v, k, f) == 0
  }

  /** Writing one inode leaves the words of every other slot alone. */
  lemma PutInode(v: seq<Blk>, k: Slot, ws: seq<int32>, v': seq<Blk>)
    requires k.d < |v| && k.i < INODES_PER_BLOCK && |ws| == INODE_WORDS
    requires v' == v[k.d := PutWords(v[k.d], INODE_WORDS * k.i, ws)]
    ensures SlotHolds(v', k, ws)
    ensures forall k': Slot, f :: k'.d < |v| && k'.i < INODES_PER_BLOCK && 0 <= f < INODE_WORDS && k' != k ==>
              InodeWord(v', k', f) == InodeWord(v, k', f)
  {
    WordsAfterPut(v[k.d], INODE_WORDS * k.i, ws);
    forall f | 0 <= f < INODE_WORDS
      ensures InodeWord(v', k, f) == ws[f]
    {
    }
  }

  // ----- images -----

  /** One file on the image: its 25 inode words, its block trees and its contents. */
  datatype FileRec = FileRec(words: seq<int32>, ts: seq<Tree>, content: seq<byte>)

  /** Pointers in order, then zero: what lets populate_bitmap_inode return at the first zero. */
  ghost predicate PtrsOk(ptrs: seq<int32>, ts: seq<Tree>) {
    && |ptrs| == N_PTRS && |ts| <= N_PTRS
    && (forall j :: 0 <= j < |ts| ==> ptrs[j] == ts[j].at)
    && (forall j :: |ts| <= j < N_PTRS ==> ptrs[j] == 0)
  }

  ghost predicate FileOk(v: seq<Blk>, m: nat, k: Slot, f: FileRec) {
    && InSlots(k, m) && SlotHolds(v, k, f.words)
    && f.words[0] == 0 && f.words[1] == 1 && f.words[4] == |f.content|
    && PtrsOk(f.words[8..], f.ts) && Forest(f.ts) && AllStored(v, f.ts)
    && (forall b :: b in FootAll(f.ts) ==> m <= b < |v|)
    && Carries(BytesAll(f.ts), f.content)
    && 0 < |f.ts|
  }

  ghost function AllFoot(files: map<Slot, FileRec>): set<nat> {
    set k, b | k in files && b in FootAll(files[k].ts) :: b
  }

  ghost predicate ImageOk(v: seq<Blk>, m: nat, files: map<Slot, FileRec>) {
    && 0 < m <= |v|
    && (forall k :: k in files ==> FileOk(v, m, k, files[k]))
    && (forall k, k' :: k in files && k' in files && k != k' ==> FootAll(files[k].ts) !! FootAll(files[k'].ts))
    && (forall k :: InSlots(k, m) && k !in files ==> SlotEmpty(v, k))
    && FreeZero(v, AllFoot(files), m)
  }

  /** An old file is untouched by a claim on free blocks and by a write to another inode slot. */
  lemma OldFileKept(v: seq<Blk>, v': seq<Blk>, m: nat, k: Slot, f: FileRec, foot: set<nat>)
    requires FileOk(v, m, k, f) && |v'| == |v| && FootAll(f.ts) !! foot
    requires forall b :: m <= b < |v| && b !in foot ==> v'[b] == v[b]
    requires SlotHolds(v', k, f.words)
    ensures FileOk(v', m, k, f)
  {
    AllStoredFrame(v, v', f.ts);
  }

  lemma NewFileOk(v0: seq<Blk>, m: nat, used: set<nat>, d: Disk, file: seq<byte>, ts: seq<Tree>,
                  k: Slot, ws: seq<int32>, v': seq<Blk>)
    requires InSlots(k, m) && m <= |v0| && 0 < |ts|
    requires Planted(Disk(v0, used), d, m, file, |file|, ts)
    requires |ws| == INODE_WORDS && ws[0] == 0 && ws[1] == 1 && ws[4] == |file| && PtrsOk(ws[8..], ts)
    requires SlotHolds(v', k, ws) && |v'| == |d.v| && forall b :: m <= b < |d.v| ==> v'[b] == d.v[b]
    ensures FileOk(v', m, k, FileRec(ws, ts, file))
  {
    AllStoredFrame(d.v, v', ts);
    assert file[..|file|] == file;
  }

  lemma AllFootMore(files: map<Slot, FileRec>, k: Slot, f: FileRec)
    requires k !in files
    ensures AllFoot(files[k := f]) == AllFoot(files) + FootAll(f.ts)
  {
    var files' := files[k := f];
    forall b | b in AllFoot(files) + FootAll(f.ts)
      ensures b in AllFoot(files')
    {
      if b in FootAll(f.ts) {
        assert k in files' && b in FootAll(files'[k].ts);
      } else {
        var k' :| k' in files && b in FootAll(files[k'].ts);
        assert k' in files' && b in FootAll(files'[k'].ts);
      }
    }
  }

  lemma OldSlotKept(v0: seq<Blk>, v: seq<Blk>, v': seq<Blk>, m: nat, k: Slot, k': Slot, ws: seq<int32>)
    requires InSlots(k, m) && InSlots(k', m) && k != k' && m <= |v0| == |v| == |v'| && SlotHolds(v0, k', ws)
    requires forall b :: 0 <= b < m ==> v[b] == v0[b]
    requires forall f :: 0 <= f < INODE_WORDS ==> InodeWord(v', k', f) == InodeWord(v, k', f)
    ensures SlotHolds(v', k', ws)
  {
    forall f | 0 <= f < INODE_WORDS
      ensures InodeWord(v', k', f) == ws[f]
    {
      assert InodeWord(v', k', f) == InodeWord(v, k', f) == InodeWord(v0, k', f);
    }
  }

  lemma StillThere(v0: seq<Blk>, m: nat, files: map<Slot, FileRec>, d: Disk, file: seq<byte>, ts: seq<Tree>,
                   k: Slot, ws: seq<int32>, v': seq<Blk>, k': Slot)
    requires ImageOk(v0, m, files) && InSlots(k, m) && k !in files && k' in files && |ws| == INODE_WORDS
    requires Planted(Disk(v0, AllFoot(files)), d, m, file, |file|, ts)
    requires v' == d.v[k.d := PutWords(d.v[k.d], INODE_WORDS * k.i, ws)]
    ensures FileOk(v', m, k', files[k']) && FootAll(files[k'].ts) !! FootAll(ts)
  {
    hide Forest, AllStored, Carries, SlotHolds, PtrsOk, SlotEmpty, PutWords, InodeWord;
    PutInode(d.v, k, ws, v');
    assert forall b :: b in FootAll(files[k'].ts) ==> b in AllFoot(files);
    OldSlotKept(v0, d.v, v', m, k, k', files[k'].words);
    OldFileKept(v0, v', m, k', files[k'], FootAll(ts));
  }

  lemma EmptySlotKept(v0: seq<Blk>, v: seq<Blk>, v': seq<Blk>, m: nat, k: Slot, k': Slot)
    requires InSlots(k, m) && InSlots(k', m) && k != k' && m <= |v0| == |v| == |v'| && SlotEmpty(v0, k')
    requires forall b :: 0 <= b < m ==> v[b] == v0[b]
    requires forall f :: 0 <= f < INODE_WORDS ==> InodeWord(v', k', f) == InodeWord(v, k', f)
    ensures SlotEmpty(v', k')
  {
    forall f | 0 <= f < INODE_WORDS
      ensures InodeWord(v', k', f) == 0
    {
      assert InodeWord(v', k', f) == InodeWord(v, k', f) == InodeWord(v0, k', f);
    }
  }

  /** Non-interference: placing a new file keeps the image well formed, with every earlier file's
      record -- inode words, trees and contents -- exactly as it was. */
  lemma ImageAfterInsert(v0: seq<Blk>, m: nat, files: map<Slot, FileRec>, d: Disk, file: seq<byte>, ts: seq<Tree>,
                         k: Slot, ws: seq<int32>, v': seq<Blk>)
    requires ImageOk(v0, m, files) && InSlots(k, m) && k !in files
    requires Planted(Disk(v0, AllFoot(files)), d, m, file, |file|, ts) && 0 < |ts|
    requires |ws| == INODE_WORDS && ws[0] == 0 && ws[1] == 1 && ws[4] == |file| && PtrsOk(ws[8..], ts)
    requires v' == d.v[k.d := PutWords(d.v[k.d], INODE_WORDS * k.i, ws)]
    ensures ImageOk(v', m, files[k := FileRec(ws, ts, file)])
  {
    hide Forest, AllStored, Carries, SlotHolds, PtrsOk, SlotEmpty, PutWords, InodeWord;
    PutInode(d.v, k, ws, v');
    NewFileOk(v0, m, AllFoot(files), d, file, ts, k, ws, v');
    AllFootMore(files, k, FileRec(ws, ts, file));
    forall k' | k' in files
      ensures FileOk(v', m, k', files[k']) && FootAll(files[k'].ts) !! FootAll(ts)
    {
      StillThere(v0, m, files, d, file, ts, k, ws, v', k');
    }
    forall k' | InSlots(k', m) && k' !in files && k' != k
      ensures SlotEmpty(v', k')
    {
      EmptySlotKept(v0, d.v, v', m, k, k');
    }
    hide FileOk, AllFoot, FootAll;
  }

  // ----- capacity -----

  lemma {:induction false} TimesIs(n: nat, c: nat)
    ensures Times(n, c) == n * c
  {
    if n > 0 {
      TimesIs(n - 1, c);
      assert (n - 1) * c + c == n * c;
    }
  }

  lemma Caps()
    ensures Cap(0) == 0x400 && Cap(1) == 0x4_0000 && Cap(2) == 0x400_0000 && Cap(3) == 0x4_0000_0000
  {
    TimesIs(ENTRIES, Cap(0));
    TimesIs(ENTRIES, Cap(1));
    TimesIs(ENTRIES, Cap(2));
  }

  /** A file whose size is an int never needs more than the triply indirect block. */
  lemma NeverTooLarge(d0: Disk, d: Disk, m: nat, file: seq<byte>, to: nat, ts: seq<Tree>)
    requires Planted(d0, d, m, file, to, ts) && |ts| == N_PTRS && |file| <= MAXINT
    ensures to == |file|
  {
    if to < |file| {
      Caps();
      BytesSlice(ts, 16);
    }
  }
}
