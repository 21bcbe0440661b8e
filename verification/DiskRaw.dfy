/** Reading a file straight from the bytes of an image: from the inode, through the pointers, to the data. */
module DiskRaw {
  import opened Octets
  import opened DiskBytes
  import opened DiskTree
  import opened DiskPlace
  import opened DiskFiles
  import opened DiskCommands

  /** The integer in the four bytes from p on. */
  function IntAt(image: seq<byte>, p: nat): int
    requires p + 4 <= |image|
  {
    var b0: int, b1: int, b2: int, b3: int := image[p], image[p + 1], image[p + 2], image[p + 3];
    var u := b0 + 0x100 * b1 + 0x1_0000 * b2 + 0x100_0000 * b3;
    if u < 0x8000_0000 then u else u - 0x1_0000_0000
  }

  /** The bytes below a pointer of level h: a block, and 256 times as many for each level. */
  function Room(h: nat): nat {
    if h == 0 then 1024 else 256 * Room(h - 1)
  }

  lemma {:induction false} RoomSome(h: nat)
    ensures Room(h) > 0
  {
    if h > 0 { RoomSome(h - 1); }
  }

  lemma Below(j: nat, c: nat, n: nat)
    requires c > 0 && j < n * c
    ensures j / c < n && j == c * (j / c) + j % c
  {
    assert j / c * c <= j;
    assert (n - j / c) * c == n * c - j / c * c;
  }

  lemma EntryInside(image: seq<byte>, n: nat, b: int, h: nat, j: nat)
    requires |image| == n * 1024 && h > 0 && j < Room(h) && 0 < b < n
    ensures Room(h - 1) > 0 && j / Room(h - 1) < 256 && b * 1024 + 4 * (j / Room(h - 1)) + 4 <= |image|
  {
    RoomSome(h - 1);
    Below(j, Room(h - 1), 256);
  }

  /** Byte j below block b, a data block (h is 0) or an index block of level h; -1 where a pointer leads nowhere. */
  function ByteBelow(image: seq<byte>, n: nat, b: int, h: nat, j: nat): int
    requires |image| == n * 1024 && j < Room(h)
    decreases h
  {
    if !(0 < b < n) then -1
    else if h == 0 then image[b * 1024 + j]
    else
      EntryInside(image, n, b, h, j);
      ByteBelow(image, n, IntAt(image, b * 1024 + 4 * (j / Room(h - 1))), h - 1, j % Room(h - 1))
  }

  lemma RoomsAre()
    ensures Room(0) == 1024 && Room(1) == 262144 && Room(2) == 67108864 && Room(3) == 17179869184
  {
  }

  /** Byte j of the file whose inode starts at byte p: twelve direct blocks, three indirect ones, a doubly and a triply
      indirect one. */
  function ByteOfFile(image: seq<byte>, n: nat, p: nat, j: nat): int
    requires |image| == n * 1024 && p + 100 <= |image| && j < 0x8000_0000
  {
    RoomsAre();
    if j < 12288 then ByteBelow(image, n, IntAt(image, p + 32 + 4 * (j / 1024)), 0, j % 1024)
    else if j < 798720 then
      ByteBelow(image, n, IntAt(image, p + 80 + 4 * ((j - 12288) / 262144)), 1, (j - 12288) % 262144)
    else if j < 67907584 then ByteBelow(image, n, IntAt(image, p + 92), 2, j - 798720)
    else ByteBelow(image, n, IntAt(image, p + 96), 3, j - 67907584)
  }

  // ----- the bytes below one pointer -----

  lemma EntryRaw(image: seq<byte>, n: nat, b: nat, k: nat)
    requires |image| == n * BLOCK_SZ && b < n && k < ENTRIES
    ensures b * 1024 + 4 * k + 4 <= |image| && Entry(Blocks(image, n)[b], k) == IntAt(image, b * 1024 + 4 * k)
  {
    var p := b * BLOCK_SZ;
    assert Blocks(image, n)[b] == image[p..p + BLOCK_SZ];
    assert image[p..p + BLOCK_SZ][4 * k..4 * k + 4] == image[p + 4 * k..p + 4 * k + 4];
  }

  lemma {:induction false} CapIsRoom(h: nat)
    ensures Cap(h) == Room(h)
  {
    if h > 0 {
      CapIsRoom(h - 1);
      TimesIs(ENTRIES, Cap(h - 1));
    }
  }

  /** Where byte j of the subtrees is: all but the last are full. */
  lemma KidByte(kids: seq<Tree>, c: nat, j: nat)
    requires c > 0 && c % BLOCK_SZ == 0 && kids != [] && j < |BytesAll(kids)|
    requires (forall k :: 0 <= k < |kids| - 1 ==> |Bytes(kids[k])| == c) && |Bytes(kids[|kids| - 1])| <= c
    ensures j / c < |kids| && j % c < |Bytes(kids[j / c])| && BytesAll(kids)[j] == Bytes(kids[j / c])[j % c]
  {
    hide BytesAll, Bytes, Times;
    var n := |kids| - 1;
    BytesLast(kids);
    FullPrefix(kids[..n], c);
    TimesIs(n, c);
    assert (n + 1) * c == n * c + c;
    Below(j, c, n + 1);
    var q := j / c;
    FullPrefix(kids[..q], c);
    TimesIs(q, c);
    BytesSlice(kids, q);
    var a, x := |BytesAll(kids[..q])|, Bytes(kids[q]);
    assert a == c * q && j == a + j % c;
    if q < n { assert |x| == c; } else { assert |BytesAll(kids)| == a + |x|; }
    assert BytesAll(kids)[a..a + |x|][j % c] == BytesAll(kids)[j];
  }

  lemma LeafByte(image: seq<byte>, n: nat, t: Tree, h: nat, j: nat)
    requires |image| == n * BLOCK_SZ && Stored(Blocks(image, n), t) && t.Leaf? && Shape(t, h) && j < |Bytes(t)|
    ensures j < Room(h) && ByteBelow(image, n, t.at, h, j) == Bytes(t)[j]
  {
    assert Blocks(image, n)[t.at][j] == image[t.at * BLOCK_SZ + j];
  }

  lemma NodeKid(image: seq<byte>, n: nat, t: Tree, h: nat, q: nat)
    requires |image| == n * BLOCK_SZ && Stored(Blocks(image, n), t) && Shape(t, h) && t.Node? && q < |t.kids|
    ensures h > 0 && 0 < t.at < n == |Blocks(image, n)| && q < ENTRIES == 256
    ensures Entry(Blocks(image, n)[t.at], q) == t.kids[q].at
    ensures Stored(Blocks(image, n), t.kids[q]) && Shape(t.kids[q], h - 1)
  {
    hide Entry;
  }

  lemma NodeSizes(t: Tree, h: nat)
    requires Shape(t, h) && t.Node?
    ensures h > 0 && Bytes(t) == BytesAll(t.kids) && t.kids != []
    ensures forall k :: 0 <= k < |t.kids| - 1 ==> |Bytes(t.kids[k])| == Room(h - 1)
    ensures |Bytes(t.kids[|t.kids| - 1])| <= Room(h - 1) && Room(h - 1) > 0 && Room(h - 1) % BLOCK_SZ == 0
  {
    CapIsRoom(h - 1);
    CapWhole(h - 1);
    ShapeBytes(t.kids[|t.kids| - 1], h - 1);
    hide Cap, Room;
  }

  lemma IndexByte(image: seq<byte>, n: nat, b: nat, h: nat, j: nat, at: nat)
    requires |image| == n * BLOCK_SZ && h > 0 && j < Room(h) && 0 < b < n
    requires Room(h - 1) > 0 && j / Room(h - 1) < 256 && Entry(Blocks(image, n)[b], j / Room(h - 1)) == at
    ensures ByteBelow(image, n, b, h, j) == ByteBelow(image, n, at, h - 1, j % Room(h - 1))
  {
    hide IntAt, Entry, Blocks, Room;
    EntryInside(image, n, b, h, j);
    EntryRaw(image, n, b, j / Room(h - 1));
  }

  lemma {:induction false} TreeByte(image: seq<byte>, n: nat, t: Tree, h: nat, j: nat)
    requires |image| == n * BLOCK_SZ && Stored(Blocks(image, n), t) && Shape(t, h) && j < |Bytes(t)|
    ensures j < Room(h) && ByteBelow(image, n, t.at, h, j) == Bytes(t)[j]
    decreases h
  {
    hide *;
    ShapeBytes(t, h);
    CapIsRoom(h);
    if t.Leaf? {
      LeafByte(image, n, t, h, j);
    } else {
      NodeSizes(t, h);
      var c := Room(h - 1);
      KidByte(t.kids, c, j);
      NodeKid(image, n, t, h, j / c);
      IndexByte(image, n, t.at, h, j, t.kids[j / c].at);
      TreeByte(image, n, t.kids[j / c], h - 1, j % c);
    }
  }

  // ----- the bytes of a file -----

  /** Where the bytes behind the q-th pointer of an inode begin. */
  function StartOf(q: nat): nat {
    if q <= 12 then 1024 * q
    else if q <= 15 then 12288 + 262144 * (q - 12)
    else if q == 16 then 67907584 else 17247776768
  }

  lemma StartNext(q: nat)
    requires q < N_PTRS
    ensures StartOf(q + 1) == StartOf(q) + Cap(Level(q))
  {
    RoomsAre();
    CapIsRoom(Level(q));
  }

  lemma {:induction false} ForestStart(ts: seq<Tree>, q: nat)
    requires Forest(ts) && q < |ts|
    ensures |BytesAll(ts[..q])| == StartOf(q)
  {
    hide Bytes, Shape, AllSeparate;
    if q == 0 {
      assert ts[..0] == [];
    } else {
      ForestStart(ts, q - 1);
      BytesSlice(ts, q - 1);
      StartNext(q - 1);
    }
  }

  /** The pointer behind which byte j lies. */
  function PointerOf(j: nat): (q: nat)
    requires j < 0x8000_0000
    ensures q < N_PTRS && StartOf(q) <= j < StartOf(q + 1)
  {
    if j < 12288 then j / 1024
    else if j < 798720 then 12 + (j - 12288) / 262144
    else if j < 67907584 then 15 else 16
  }

  lemma {:induction false} StartsGrow(a: nat, b: nat)
    requires a <= b <= N_PTRS
    ensures StartOf(a) <= StartOf(b)
  {
  }

  lemma ForestParts(ts: seq<Tree>, q: nat)
    requires Forest(ts) && q < |ts|
    ensures |ts| <= N_PTRS && Shape(ts[q], Level(q)) && (q < |ts| - 1 ==> |Bytes(ts[q])| == Cap(Level(q)))
  {
  }

  lemma PointerThere(ts: seq<Tree>, j: nat)
    requires Forest(ts) && ts != [] && j < |BytesAll(ts)| && j < 0x8000_0000
    ensures PointerOf(j) < |ts|
  {
    var q, last := PointerOf(j), |ts| - 1;
    hide Bytes, BytesAll, Shape, Forest, Cap, PointerOf, Level, StartOf;
    BytesLast(ts);
    ForestParts(ts, last);
    ForestStart(ts, last);
    ShapeBytes(ts[last], Level(last));
    StartNext(last);
    if q > last { StartsGrow(last + 1, q); }
  }

  lemma SliceAt(all: seq<byte>, a: nat, x: seq<byte>, i: nat)
    requires a + |x| <= |all| && all[a..a + |x|] == x && i < |x|
    ensures all[a + i] == x[i]
  {
  }

  /** Byte j is x, behind the right one of these pointers. */
  ghost predicate FoundAt(image: seq<byte>, n: nat, ts: seq<Tree>, j: nat, x: int)
    requires |image| == n * BLOCK_SZ && j < 0x8000_0000
  {
    var q := PointerOf(j);
    && q < |ts| && j - StartOf(q) < Room(Level(q))
    && ByteBelow(image, n, ts[q].at, Level(q), j - StartOf(q)) == x
  }

  lemma FoundIs(image: seq<byte>, n: nat, ts: seq<Tree>, j: nat, x: int)
    requires |image| == n * BLOCK_SZ && j < 0x8000_0000
    requires var q := PointerOf(j);
      && q < |ts| && j - StartOf(q) < Room(Level(q))
      && ByteBelow(image, n, ts[q].at, Level(q), j - StartOf(q)) == x
    ensures FoundAt(image, n, ts, j, x)
  {
  }

  lemma StoredOne(v: seq<Blk>, ts: seq<Tree>, q: nat)
    requires AllStored(v, ts) && q < |ts|
    ensures Stored(v, ts[q])
  {
  }

  lemma ForestByte(image: seq<byte>, n: nat, ts: seq<Tree>, j: nat)
    requires |image| == n * BLOCK_SZ && AllStored(Blocks(image, n), ts) && Forest(ts) && ts != []
    requires j < |BytesAll(ts)| && j < 0x8000_0000
    ensures FoundAt(image, n, ts, j, BytesAll(ts)[j])
  {
    hide *;
    var q := PointerOf(j);
    PointerThere(ts, j);
    StoredOne(Blocks(image, n), ts, q);
    BytesLast(ts);
    ForestParts(ts, q);
    ForestStart(ts, q);
    BytesSlice(ts, q);
    StartNext(q);
    var x, i := Bytes(ts[q]), j - StartOf(q);
    assert q == |ts| - 1 ==> |BytesAll(ts)| == StartOf(q) + |x|;
    SliceAt(BytesAll(ts), StartOf(q), x, i);
    TreeByte(image, n, ts[q], Level(q), i);
    FoundIs(image, n, ts, j, x[i]);
  }

  /** The integers from p on are these words. */
  ghost predicate WordsAt(image: seq<byte>, p: nat, ws: seq<int32>) {
    p + 4 * |ws| <= |image| && forall w: nat :: w < |ws| ==> IntAt(image, p + 4 * w) == ws[w]
  }

  /** The inode of a file: mode 0, one link, the size behind the owner, and the pointers behind the times. */
  ghost predicate InodeAt(image: seq<byte>, p: nat, size: nat, ts: seq<Tree>) {
    && p + 100 <= |image| && IntAt(image, p) == 0 && IntAt(image, p + 4) == 1 && IntAt(image, p + 16) == size
    && forall q: nat :: q < 17 ==> IntAt(image, p + 32 + 4 * q) == if q < |ts| then ts[q].at else 0
  }

  lemma WordsRaw(image: seq<byte>, n: nat, k: Slot, ws: seq<int32>)
    requires |image| == n * BLOCK_SZ && SlotHolds(Blocks(image, n), k, ws)
    ensures WordsAt(image, k.d * 1024 + 100 * k.i, ws)
  {
    var p := k.d * 1024 + 100 * k.i;
    assert |Blocks(image, n)| == n;
    hide Entry, Blocks, IntAt;
    forall w: nat | w < 25
      ensures IntAt(image, p + 4 * w) == ws[w]
    {
      EntryRaw(image, n, k.d, 25 * k.i + w);
      assert InodeWord(Blocks(image, n), k, w) == ws[w];
    }
  }

  lemma InodeRaw(image: seq<byte>, p: nat, ws: seq<int32>, size: nat, ts: seq<Tree>)
    requires WordsAt(image, p, ws) && |ws| == 25 && ws[0] == 0 && ws[1] == 1 && ws[4] == size && PtrsOk(ws[8..], ts)
    ensures InodeAt(image, p, size, ts)
  {
    hide IntAt;
    assert IntAt(image, p + 4 * 0) == ws[0] && IntAt(image, p + 4 * 1) == ws[1] && IntAt(image, p + 4 * 4) == ws[4];
    forall q: nat | q < 17
      ensures IntAt(image, p + 32 + 4 * q) == if q < |ts| then ts[q].at else 0
    {
      assert IntAt(image, p + 4 * (8 + q)) == ws[8 + q] && ws[8..][q] == ws[8 + q];
    }
  }

  /** The case distinction of ByteOfFile. */
  lemma PointerRaw(image: seq<byte>, n: nat, p: nat, ts: seq<Tree>, size: nat, j: nat, x: int)
    requires |image| == n * BLOCK_SZ && j < 0x8000_0000 && InodeAt(image, p, size, ts) && FoundAt(image, n, ts, j, x)
    ensures ByteOfFile(image, n, p, j) == x
  {
    RoomsAre();
    assert IntAt(image, p + 32 + 4 * PointerOf(j)) == ts[PointerOf(j)].at;
    hide ByteBelow, IntAt, Room;
  }

  lemma FileParts(v: seq<Blk>, m: nat, files: map<Slot, FileRec>, k: Slot)
    requires ImageOk(v, m, files) && k in files
    ensures var f := files[k];
      && SlotHolds(v, k, f.words) && |f.words| == 25 && f.words[0] == 0 && f.words[1] == 1
      && f.words[4] == |f.content| && PtrsOk(f.words[8..], f.ts) && AllStored(v, f.ts) && Forest(f.ts) && f.ts != []
      && f.content <= BytesAll(f.ts)
  {
    assert FileOk(v, m, k, files[k]);
  }

  /** Owner and times of a placed file are where struct inode has them. */
  lemma OwnerOnImage(image: seq<byte>, p: nat, ws: seq<int32>, who: Owner, size: nat, ts: seq<Tree>)
    requires WordsAt(image, p, ws) && WordsFor(ws, who, size, ts)
    ensures IntAt(image, p + 8) == who.uid && IntAt(image, p + 12) == who.gid
    ensures IntAt(image, p + 20) == who.ctime && IntAt(image, p + 24) == who.mtime && IntAt(image, p + 28) == who.atime
  {
    hide IntAt;
    assert IntAt(image, p + 4 * 2) == ws[2] && IntAt(image, p + 4 * 3) == ws[3] && IntAt(image, p + 4 * 5) == ws[5];
    assert IntAt(image, p + 4 * 6) == ws[6] && IntAt(image, p + 4 * 7) == ws[7];
  }

  /** On every image that the tool writes, following the raw bytes from an inode to its data gives the file. */
  lemma FileOnImage(image: seq<byte>, n: nat, m: nat, files: map<Slot, FileRec>, k: Slot, j: nat)
    requires |image| == n * BLOCK_SZ && ImageOk(Blocks(image, n), m, files) && k in files
    requires j < |files[k].content| < 0x8000_0000
    ensures InodeAt(image, k.d * 1024 + 100 * k.i, |files[k].content|, files[k].ts)
    ensures ByteOfFile(image, n, k.d * 1024 + 100 * k.i, j) == files[k].content[j]
  {
    var p, f := k.d * 1024 + 100 * k.i, files[k];
    hide *;
    FileParts(Blocks(image, n), m, files, k);
    WordsRaw(image, n, k, f.words);
    InodeRaw(image, p, f.words, |f.content|, f.ts);
    ForestByte(image, n, f.ts, j);
    PointerRaw(image, n, p, f.ts, |f.content|, j, f.content[j]);
  }
}
