/** Writing a file into an image: the allocator and the three nested place_* functions, with the
    step lemmas they share. */
module DiskPlace {
  import opened Octets
  import opened DiskBytes
  import opened DiskTree

  // ----- bitmap -----

  ghost function Used(bitmap: array<bool>): set<nat>
    reads bitmap
  {
    set b: nat | b < bitmap.Length && bitmap[b]
  }

  /** The walkers stop at a zero entry; this is what makes that rule sound. */
  ghost predicate FreeZero(v: seq<Blk>, used: set<nat>, m: nat) {
    forall b :: m <= b < |v| && b !in used ==> v[b] == ZeroBlk()
  }

  /** False stands for "No more free blocks left to allocate!" and exit. */
  method GetFreeBlock(bitmap: array<bool>, n: nat, m: nat) returns (ok: bool, i: nat)
    requires m <= n == bitmap.Length
    modifies bitmap
    ensures ok ==> m <= i < n && i !in old(Used(bitmap)) && Used(bitmap) == old(Used(bitmap)) + {i}
    ensures ok ==> forall b :: m <= b < i ==> b in old(Used(bitmap))
    ensures !ok ==> Used(bitmap) == old(Used(bitmap)) && forall b :: m <= b < n ==> b in Used(bitmap)
  {
    i, ok := m, false;
    while i < n
      invariant m <= i <= n && !ok
      invariant bitmap[..] == old(bitmap[..])
      invariant forall b :: m <= b < i ==> bitmap[b]
    {
      if !bitmap[i] {
        bitmap[i] := true;
        ok := true;
        break;
      }
      i := i + 1;
    }
  }

  /** fread of up to one block at the cursor; the rest of the buffer keeps its old bytes. */
  method ReadChunk(file: seq<byte>, pos: nat, buf: array<byte>) returns (k: nat)
    requires pos <= |file| && buf.Length == BLOCK_SZ
    modifies buf
    ensures k == if |file| - pos < BLOCK_SZ then |file| - pos else BLOCK_SZ
    ensures buf[..k] == file[pos..pos + k] && buf[k..] == old(buf[k..])
  {
    k := if |file| - pos < BLOCK_SZ then |file| - pos else BLOCK_SZ;
    forall i | 0 <= i < k {
      buf[i] := file[pos + i];
    }
  }

  /** fread into the buffer, then memcpy of the whole buffer into block `data`. */
  method CopyChunk(file: seq<byte>, pos: nat, raw: array<byte>, n: nat, data: nat, buf: array<byte>) returns (to: nat)
    requires pos <= |file| && IsImage(raw, n) && data < n && buf.Length == BLOCK_SZ && buf != raw
    modifies raw, buf
    ensures to == if |file| - pos < BLOCK_SZ then |file| else pos + BLOCK_SZ
    ensures buf[..to - pos] == file[pos..to]
    ensures View(raw, n) == old(View(raw, n))[data := buf[..]]
  {
    var read := ReadChunk(file, pos, buf);
    WriteBlock(raw, n, data, buf);
    to := pos + read;
  }

  class Inode {
    var mode: int32
    var nlink: int32
    var uid: int32
    var gid: int32
    var size: int32
    var ctime: int32
    var mtime: int32
    var atime: int32
    var dblocks: seq<int32>
    var iblocks: seq<int32>
    var i2block: int32
    var i3block: int32

    ghost predicate Sized()
      reads this
    {
      |dblocks| == 12 && |iblocks| == 3
    }

    /** The 17 block pointers in the order in which every walker visits them. */
    function Ptrs(): seq<int32>
      reads this
    {
      dblocks + iblocks + [i2block, i3block]
    }

    constructor ()
      ensures Sized() && Ptrs() == seq(17, i => 0)
    {
      mode, nlink, uid, gid, size, ctime, mtime, atime := 0, 0, 0, 0, 0, 0, 0, 0;
      dblocks, iblocks, i2block, i3block := seq(12, i => 0), seq(3, i => 0), 0, 0;
    }

    /** The 25 words that memcpy copies. */
    function Words(): (ws: seq<int32>)
      requires Sized()
      reads this
      ensures |ws| == 25 && ws[8..] == Ptrs()
    {
      var ws: seq<int32> := [mode, nlink, uid, gid, size, ctime, mtime, atime];
      ws + Ptrs()
    }
  }

  // ----- what placing one tree means -----

  /** The stored bytes start with the chunk; only a last, partial block is padded. */
  ghost predicate Carries(bytes: seq<byte>, chunk: seq<byte>) {
    |chunk| <= |bytes| <= |chunk| + BLOCK_SZ && bytes[..|chunk|] == chunk
  }

  datatype Disk = Disk(v: seq<Blk>, used: set<nat>)

  /** Only the blocks of the footprint have changed, all of them were free before, all of them are
      marked now. */
  ghost predicate Claimed(d0: Disk, d: Disk, m: nat, foot: set<nat>) {
    && |d.v| == |d0.v|
    && d.used == d0.used + foot && foot !! d0.used
    && (forall b :: b in foot ==> m <= b < |d.v|)
    && (forall b :: 0 <= b < |d.v| && b !in foot ==> d.v[b] == d0.v[b])
  }

  /** Bytes from..to of the file have been placed below one new pointer of level h. */
  ghost predicate Placed(d0: Disk, d: Disk, m: nat, file: seq<byte>, from: nat, to: nat, t: Tree, h: nat) {
    && from <= to <= |file| && Claimed(d0, d, m, Foot(t))
    && Stored(d.v, t) && Shape(t, h) && Separate(t)
    && Carries(Bytes(t), file[from..to])
    && (to < |file| ==> |Bytes(t)| == to - from == Cap(h))
  }

  /** The index block `at` is being filled: its first entries are complete subtrees of level h. */
  ghost predicate Growing(d0: Disk, d: Disk, m: nat, file: seq<byte>, from: nat, to: nat,
                          at: nat, kids: seq<Tree>, h: nat) {
    && from <= to <= |file| && Claimed(d0, d, m, {at} + FootAll(kids))
    && Stored(d.v, Node(at, kids)) && AllShape(kids, h) && AllSeparate(kids) && at !in FootAll(kids)
    && Carries(BytesAll(kids), file[from..to])
    && (to < |file| ==> |BytesAll(kids)| == to - from == Times(|kids|, Cap(h))
                        && forall j :: 0 <= j < |kids| ==> |Bytes(kids[j])| == Cap(h))
  }

  lemma StartIndex(d0: Disk, d: Disk, m: nat, file: seq<byte>, from: nat, at: nat, h: nat)
    requires from < |file| && 0 < m <= at < |d0.v| && at !in d0.used && FreeZero(d0.v, d0.used, m)
    requires d == Disk(d0.v, d0.used + {at})
    ensures Growing(d0, d, m, file, from, from, at, [], h)
  {
    ZeroEntries();
  }

  lemma CarriesMore(bytes: seq<byte>, more: seq<byte>, file: seq<byte>, from: nat, mid: nat, to: nat)
    requires from <= mid <= to <= |file|
    requires Carries(bytes, file[from..mid]) && |bytes| == mid - from && Carries(more, file[mid..to])
    ensures Carries(bytes + more, file[from..to])
  {
    assert file[from..to] == file[from..mid] + file[mid..to];
    assert (bytes + more)[..to - from] == bytes + more[..to - mid];
  }

  /** Claims add up, also when the index block gets its entry afterwards. */
  lemma ClaimMore(d0: Disk, d1: Disk, d2: Disk, v3: seq<Blk>, m: nat, foot: set<nat>, more: set<nat>, at: nat)
    requires Claimed(d0, d1, m, foot) && Claimed(d1, d2, m, more) && at in foot
    requires |v3| == |d2.v| && forall b :: 0 <= b < |v3| && b != at ==> v3[b] == d2.v[b]
    ensures Claimed(d0, Disk(v3, d2.used), m, foot + more)
  {
  }

  lemma ShapeMore(kids: seq<Tree>, kid: Tree, h: nat)
    requires AllShape(kids, h) && Shape(kid, h) && forall j :: 0 <= j < |kids| ==> |Bytes(kids[j])| == Cap(h)
    ensures AllShape(kids + [kid], h)
  {
  }

  /** One more finished subtree and its entry. */
  lemma Grow(d0: Disk, d1: Disk, d2: Disk, d3: Disk, m: nat, file: seq<byte>, from: nat, mid: nat, to: nat,
             at: nat, kids: seq<Tree>, kid: Tree, h: nat)
    requires Growing(d0, d1, m, file, from, mid, at, kids, h) && mid < |file| && |kids| < ENTRIES
    requires Placed(d1, d2, m, file, mid, to, kid, h)
    requires |d2.v| < 0x8000_0000 && at < |d2.v| && d3.used == d2.used
    requires d3.v == d2.v[at := PutEntry(d2.v[at], |kids|, kid.at)]
    ensures Growing(d0, d3, m, file, from, to, at, kids + [kid], h)
  {
    hide Stored, Shape, Separate, FreeZero, AllShape, Carries, AllStored;
    Append(kids, kid);
    assert at in d1.used && at !in Foot(kid);
    StoredFrame(d2.v, d3.v, kid);
    AddKid(d1.v, at, kids, kid, d3.v);
    CarriesMore(BytesAll(kids), Bytes(kid), file, from, mid, to);
    ClaimMore(d0, d1, d2, d3.v, m, {at} + FootAll(kids), Foot(kid), at);
    assert {at} + FootAll(kids) + Foot(kid) == {at} + FootAll(kids + [kid]);
    ShapeMore(kids, kid, h);
  }

  /** The index block is full or the file has ended. */
  lemma Grown(d0: Disk, d: Disk, m: nat, file: seq<byte>, from: nat, to: nat, at: nat, kids: seq<Tree>, h: nat)
    requires Growing(d0, d, m, file, from, to, at, kids, h)
    requires 0 < |kids| <= ENTRIES && (to == |file| || |kids| == ENTRIES)
    ensures Placed(d0, d, m, file, from, to, Node(at, kids), h + 1)
  {
  }

  lemma PlacedFacts(d0: Disk, d: Disk, m: nat, file: seq<byte>, from: nat, to: nat, t: Tree, h: nat)
    requires Placed(d0, d, m, file, from, to, t, h)
    ensures m <= t.at < |d.v| == |d0.v|
    ensures from <= to <= |file| && |file| - to == Rest(|file| - from, Cap(h))
  {
    FootInRange(d.v, t);
    ShapeBytes(t, h);
  }

  /** What a placement below one pointer does to the bitmap: so many blocks more, or fewer than that and then no
      block is left. */
  ghost predicate Paid(was: set<nat>, used: set<nat>, ok: bool, cost: nat, n: nat, m: nat) {
    && was <= used
    && (ok ==> |used| == |was| + cost)
    && (!ok ==> |used| < |was| + cost && forall b :: m <= b < n ==> b in used)
  }

  /** The index block and k subtrees have been paid for, out of the cost of the whole. */
  ghost predicate Paying(was: set<nat>, used: set<nat>, total: nat, left: nat, h: nat, k: nat) {
    was <= used && |used| + Costs(left, h, k) == |was| + total
  }

  lemma PayIndex(was: set<nat>, at: nat, left: nat, h: nat)
    requires at !in was
    ensures Paying(was, was + {at}, Cost(left, h + 1), left, h, ENTRIES)
  {
    CostFacts(left, h, ENTRIES);
  }

  lemma PayMore(was: set<nat>, used: set<nat>, used': set<nat>, ok: bool, total: nat, left: nat, h: nat, k: nat,
                n: nat, m: nat)
    requires Paying(was, used, total, left, h, k) && k > 0 && left > 0 && Paid(used, used', ok, Cost(left, h), n, m)
    ensures ok ==> Paying(was, used', total, Rest(left, Cap(h)), h, k - 1)
    ensures !ok ==> Paid(was, used', false, total, n, m)
  {
    CostFacts(left, h, k);
  }

  lemma PayEnd(was: set<nat>, used: set<nat>, total: nat, left: nat, h: nat, k: nat, n: nat, m: nat)
    requires Paying(was, used, total, left, h, k) && (left == 0 || k == 0)
    ensures Paid(was, used, true, total, n, m)
  {
    CostFacts(left, h, k);
  }

  /** One block from the allocator. */
  lemma PayBlock(was: set<nat>, used: set<nat>, ok: bool, b: nat, r: nat, h: nat, n: nat, m: nat)
    requires if ok then b !in was && used == was + {b} else used == was && forall b :: m <= b < n ==> b in used
    ensures !ok ==> Paid(was, used, false, Cost(r, h), n, m)
    ensures h == 0 ==> Paid(was, used, ok, Cost(r, h), n, m)
  {
    CostFacts(r, h, 0);
  }

  lemma GrowingFacts(d0: Disk, d: Disk, m: nat, file: seq<byte>, from: nat, to: nat, at: nat, kids: seq<Tree>, h: nat)
    requires Growing(d0, d, m, file, from, to, at, kids, h) && FreeZero(d0.v, d0.used, m)
    ensures m <= at < |d.v| && at in d.used && from <= to <= |file|
    ensures FreeZero(d.v, d.used, m)
  {
    assert at in {at} + FootAll(kids);
  }

  ghost function At(raw: array<byte>, n: nat, bitmap: array<bool>): (d: Disk)
    requires IsImage(raw, n)
    ensures |d.v| == n
    reads raw, bitmap
  {
    Disk(View(raw, n), Used(bitmap))
  }

  ghost predicate Ready(raw: array<byte>, n: nat, m: nat, bitmap: array<bool>, buf: array<byte>)
    reads raw, bitmap
  {
    && IsImage(raw, n) && 0 < m <= n == bitmap.Length && buf.Length == BLOCK_SZ && buf != raw
    && FreeZero(View(raw, n), Used(bitmap), m)
  }

  // ----- the three functions -----

  /** A data block taken from the allocator and filled with the next chunk of the file. */
  lemma PlacedLeaf(d0: Disk, d: Disk, m: nat, file: seq<byte>, from: nat, to: nat, at: nat, data: Blk)
    requires from <= |file| && to == (if |file| - from < BLOCK_SZ then |file| else from + BLOCK_SZ)
    requires 0 < m <= at < |d0.v| && at !in d0.used && d == Disk(d0.v[at := data], d0.used + {at})
    requires data[..to - from] == file[from..to]
    ensures Placed(d0, d, m, file, from, to, Leaf(at, data), 0)
  {
  }

  /** One turn of the innermost loop: a fresh data block is entered at k and filled. */
  lemma GrowLeaf(d0: Disk, d1: Disk, d3: Disk, m: nat, file: seq<byte>, from: nat, mid: nat, to: nat,
                 at: nat, kids: seq<Tree>, data: nat, chunk: Blk)
    requires Growing(d0, d1, m, file, from, mid, at, kids, 0) && FreeZero(d0.v, d0.used, m) && 0 < m
    requires mid < |file| && |kids| < ENTRIES && |d1.v| < 0x8000_0000 && at < |d1.v|
    requires to == (if |file| - mid < BLOCK_SZ then |file| else mid + BLOCK_SZ) && chunk[..to - mid] == file[mid..to]
    requires m <= data < |d1.v| && data !in d1.used && d3.used == d1.used + {data}
    requires d3.v == d1.v[at := PutEntry(d1.v[at], |kids|, data)][data := chunk]
    ensures Growing(d0, d3, m, file, from, to, at, kids + [Leaf(data, chunk)], 0)
    ensures FreeZero(d3.v, d3.used, m) && |file| - to == Rest(|file| - mid, Cap(0))
  {
    hide Growing, Placed, Claimed, FreeZero, Stored, PutEntry;
    GrowingFacts(d0, d1, m, file, from, mid, at, kids, 0);
    var d2 := Disk(d1.v[data := chunk], d1.used + {data});
    PlacedLeaf(d1, d2, m, file, mid, to, data, chunk);
    PlacedFacts(d1, d2, m, file, mid, to, Leaf(data, chunk), 0);
    assert d3.v == d2.v[at := PutEntry(d2.v[at], |kids|, data)];
    Grow(d0, d1, d2, d3, m, file, from, mid, to, at, kids, Leaf(data, chunk), 0);
    GrowingFacts(d0, d3, m, file, from, to, at, kids + [Leaf(data, chunk)], 0);
  }

  /** One turn of the two outer loops: a finished subtree is entered at k. */
  lemma GrowNode(d0: Disk, d1: Disk, d2: Disk, d3: Disk, m: nat, file: seq<byte>, from: nat, mid: nat, to: nat,
                 at: nat, kids: seq<Tree>, kid: Tree, h: nat)
    requires Growing(d0, d1, m, file, from, mid, at, kids, h) && FreeZero(d0.v, d0.used, m)
    requires mid < |file| && |kids| < ENTRIES && Placed(d1, d2, m, file, mid, to, kid, h)
    requires |d2.v| < 0x8000_0000 && at < |d2.v| && d3.used == d2.used && kid.at < 0x8000_0000
    requires d3.v == d2.v[at := PutEntry(d2.v[at], |kids|, kid.at)]
    ensures Growing(d0, d3, m, file, from, to, at, kids + [kid], h)
    ensures FreeZero(d3.v, d3.used, m) && |file| - to == Rest(|file| - mid, Cap(h))
  {
    hide Growing, Placed, Claimed, FreeZero, Stored, PutEntry;
    PlacedFacts(d1, d2, m, file, mid, to, kid, h);
    Grow(d0, d1, d2, d3, m, file, from, mid, to, at, kids, kid, h);
    GrowingFacts(d0, d3, m, file, from, to, at, kids + [kid], h);
  }

  /** One turn of the innermost loop: allocate, enter the pointer at k, copy the chunk. */
  method PlaceData(file: seq<byte>, raw: array<byte>, buf: array<byte>, bitmap: array<bool>, n: nat, m: nat,
                   at: nat, k: nat, pos: nat, ghost d0: Disk, ghost from: nat, ghost kids: seq<Tree>, ghost total: nat)
    returns (ok: bool, nbytes: nat, ghost kid: Tree)
    requires Ready(raw, n, m, bitmap, buf) && FreeZero(d0.v, d0.used, m) && |kids| == k < ENTRIES && pos < |file|
        && at < n
    requires Growing(d0, At(raw, n, bitmap), m, file, from, pos, at, kids, 0)
    requires Paying(d0.used, Used(bitmap), total, |file| - pos, 0, ENTRIES - k)
    modifies raw, buf, bitmap
    ensures ok ==> Ready(raw, n, m, bitmap, buf) && nbytes <= |file|
    ensures ok ==> Growing(d0, At(raw, n, bitmap), m, file, from, nbytes, at, kids + [kid], 0)
    ensures ok ==> Paying(d0.used, Used(bitmap), total, |file| - nbytes, 0, ENTRIES - k - 1)
    ensures !ok ==> Paid(d0.used, Used(bitmap), false, total, n, m)
  {
    hide Growing, Placed, Claimed, FreeZero, Stored, Shape, Separate, PutEntry, View, Used, Paid, Paying, Cost,
        Costs, Cap;
    nbytes, kid := pos, Leaf(0, ZeroBlk());
    ghost var d1 := At(raw, n, bitmap);
    var data: nat;
    ok, data := GetFreeBlock(bitmap, n, m);
    PayBlock(d1.used, Used(bitmap), ok, data, |file| - pos, 0, n, m);
    PayMore(d0.used, d1.used, Used(bitmap), ok, total, |file| - pos, 0, ENTRIES - k, n, m);
    if !ok { return; }
    WriteInt(raw, n, at, k, data);
    nbytes := CopyChunk(file, pos, raw, n, data, buf);
    kid := Leaf(data, buf[..]);
    GrowLeaf(d0, d1, At(raw, n, bitmap), m, file, from, pos, nbytes, at, kids, data, buf[..]);
  }

  method PlaceIndirectBlock(file: seq<byte>, raw: array<byte>, buf: array<byte>, bitmap: array<bool>, n: nat, m: nat,
                            numIndirect: nat, ip: Inode, start: nat)
    returns (ok: bool, blockno: nat, nbytes: nat, ghost t: Tree)
    requires Ready(raw, n, m, bitmap, buf) && ip.Sized() && start < |file|
    requires numIndirect < 3 || numIndirect == 21
    modifies raw, buf, bitmap, ip`iblocks
    ensures ok ==> Ready(raw, n, m, bitmap, buf) && nbytes <= |file|
    ensures ok ==> Placed(old(At(raw, n, bitmap)), At(raw, n, bitmap), m, file, start, nbytes, t, 1)
    ensures ok ==> ip.iblocks == if numIndirect == 21 then old(ip.iblocks) else old(ip.iblocks)[numIndirect := t.at]
    ensures ok ==> blockno == if numIndirect == 21 || nbytes == |file| then t.at else 0
    ensures Paid(old(Used(bitmap)), Used(bitmap), ok, Cost(|file| - start, 1), n, m)
  {
    hide Growing, Placed, Claimed, FreeZero, Stored, Shape, Separate, PutEntry, View, Used, Paid, Paying, Cost,
        Costs, Cap;
    ghost var d0, was, total := At(raw, n, bitmap), Used(bitmap), Cost(|file| - start, 1);
    nbytes, blockno, t := start, 0, Leaf(0, ZeroBlk());
    var at: nat;
    ok, at := GetFreeBlock(bitmap, n, m);
    PayBlock(was, Used(bitmap), ok, at, |file| - start, 1, n, m);
    if !ok { return; }
    PayIndex(was, at, |file| - start, 0);
    if numIndirect != 21 {
      ip.iblocks := ip.iblocks[numIndirect := at];
    }
    var k := 0;
    ghost var kids: seq<Tree> := [];
    StartIndex(d0, At(raw, n, bitmap), m, file, start, at, 0);
    GrowingFacts(d0, At(raw, n, bitmap), m, file, start, start, at, [], 0);
    while k < ENTRIES && nbytes < |file|
      invariant Ready(raw, n, m, bitmap, buf) && |kids| == k <= ENTRIES
      invariant (k == 0 ==> nbytes == start) && nbytes <= |file|
          && ip.iblocks == if numIndirect == 21 then old(ip.iblocks) else old(ip.iblocks)[numIndirect := at]
      invariant Growing(d0, At(raw, n, bitmap), m, file, start, nbytes, at, kids, 0)
      invariant Paying(was, Used(bitmap), total, |file| - nbytes, 0, ENTRIES - k)
    {
      ghost var kid: Tree;
      ok, nbytes, kid := PlaceData(file, raw, buf, bitmap, n, m, at, k, nbytes, d0, start, kids, total);
      if !ok { return; }
      kids := kids + [kid];
      k := k + 1;
      if nbytes >= |file| { break; }
    }
    PayEnd(was, Used(bitmap), total, |file| - nbytes, 0, ENTRIES - k, n, m);
    t := Node(at, kids);
    Grown(d0, At(raw, n, bitmap), m, file, start, nbytes, at, kids, 0);
    blockno := if nbytes >= |file| || numIndirect == 21 then at else 0;
  }

  method PlaceDoublyIndirectBlock(file: seq<byte>, raw: array<byte>, buf: array<byte>, bitmap: array<bool>,
                                  n: nat, m: nat, ip: Inode, start: nat, tripleFlag: bool)
    returns (ok: bool, blockno: nat, nbytes: nat, ghost t: Tree)
    requires Ready(raw, n, m, bitmap, buf) && ip.Sized() && start < |file|
    modifies raw, buf, bitmap, ip`iblocks, ip`i2block
    ensures ok ==> Ready(raw, n, m, bitmap, buf) && nbytes <= |file|
    ensures ok ==> Placed(old(At(raw, n, bitmap)), At(raw, n, bitmap), m, file, start, nbytes, t, 2)
    ensures ok ==> ip.iblocks == old(ip.iblocks) && ip.i2block == if tripleFlag then old(ip.i2block) else t.at
    ensures ok ==> blockno == if tripleFlag || nbytes == |file| then t.at else 0
    ensures Paid(old(Used(bitmap)), Used(bitmap), ok, Cost(|file| - start, 2), n, m)
  {
    hide Growing, Placed, Claimed, FreeZero, Stored, Shape, Separate, PutEntry, View, Used, Paid, Paying, Cost,
        Costs, Cap;
    ghost var d0, was, total := At(raw, n, bitmap), Used(bitmap), Cost(|file| - start, 2);
    nbytes, blockno, t := start, 0, Leaf(0, ZeroBlk());
    var at: nat;
    ok, at := GetFreeBlock(bitmap, n, m);
    PayBlock(was, Used(bitmap), ok, at, |file| - start, 2, n, m);
    if !ok { return; }
    PayIndex(was, at, |file| - start, 1);
    if !tripleFlag {
      ip.i2block := at;
    }
    var k := 0;
    ghost var kids: seq<Tree> := [];
    StartIndex(d0, At(raw, n, bitmap), m, file, start, at, 1);
    GrowingFacts(d0, At(raw, n, bitmap), m, file, start, start, at, [], 1);
    while k < ENTRIES && nbytes < |file|
      invariant Ready(raw, n, m, bitmap, buf) && |kids| == k <= ENTRIES && ip.Sized() && at < n
      invariant (k == 0 ==> nbytes == start) && nbytes <= |file| && ip.iblocks == old(ip.iblocks)
          && ip.i2block == if tripleFlag then old(ip.i2block) else at
      invariant Growing(d0, At(raw, n, bitmap), m, file, start, nbytes, at, kids, 1)
      invariant Paying(was, Used(bitmap), total, |file| - nbytes, 1, ENTRIES - k)
    {
      ghost var d1, mid := At(raw, n, bitmap), nbytes;
      var child: nat;
      ghost var kid: Tree;
      ok, child, nbytes, kid := PlaceIndirectBlock(file, raw, buf, bitmap, n, m, 21, ip, nbytes);
      PayMore(was, d1.used, Used(bitmap), ok, total, |file| - mid, 1, ENTRIES - k, n, m);
      if !ok { return; }
      ghost var d2 := At(raw, n, bitmap);
      PlacedFacts(d1, d2, m, file, mid, nbytes, kid, 1);
      WriteInt(raw, n, at, k, child);
      GrowNode(d0, d1, d2, At(raw, n, bitmap), m, file, start, mid, nbytes, at, kids, kid, 1);
      kids := kids + [kid];
      k := k + 1;
      if nbytes >= |file| { break; }
    }
    PayEnd(was, Used(bitmap), total, |file| - nbytes, 1, ENTRIES - k, n, m);
    t := Node(at, kids);
    Grown(d0, At(raw, n, bitmap), m, file, start, nbytes, at, kids, 1);
    blockno := if nbytes >= |file| || tripleFlag then at else 0;
  }

  method PlaceTriplyIndirectBlock(file: seq<byte>, raw: array<byte>, buf: array<byte>, bitmap: array<bool>,
                                  n: nat, m: nat, ip: Inode, start: nat)
    returns (ok: bool, nbytes: nat, ghost t: Tree)
    requires Ready(raw, n, m, bitmap, buf) && ip.Sized() && start < |file|
    modifies raw, buf, bitmap, ip`iblocks, ip`i2block, ip`i3block
    ensures ok ==> Ready(raw, n, m, bitmap, buf) && nbytes <= |file|
    ensures ok ==> Placed(old(At(raw, n, bitmap)), At(raw, n, bitmap), m, file, start, nbytes, t, 3)
    ensures ok ==> ip.iblocks == old(ip.iblocks) && ip.i2block == old(ip.i2block) && ip.i3block == t.at
    ensures Paid(old(Used(bitmap)), Used(bitmap), ok, Cost(|file| - start, 3), n, m)
  {
    hide Growing, Placed, Claimed, FreeZero, Stored, Shape, Separate, PutEntry, View, Used, Paid, Paying, Cost,
        Costs, Cap;
    ghost var d0, was, total := At(raw, n, bitmap), Used(bitmap), Cost(|file| - start, 3);
    nbytes, t := start, Leaf(0, ZeroBlk());
    var at: nat;
    ok, at := GetFreeBlock(bitmap, n, m);
    PayBlock(was, Used(bitmap), ok, at, |file| - start, 3, n, m);
    if !ok { return; }
    PayIndex(was, at, |file| - start, 2);
    ip.i3block := at;
    var k := 0;
    ghost var kids: seq<Tree> := [];
    StartIndex(d0, At(raw, n, bitmap), m, file, start, at, 2);
    GrowingFacts(d0, At(raw, n, bitmap), m, file, start, start, at, [], 2);
    while k < ENTRIES && nbytes < |file|
      invariant Ready(raw, n, m, bitmap, buf) && |kids| == k <= ENTRIES && ip.Sized() && at < n
      invariant (k == 0 ==> nbytes == start) && nbytes <= |file| && ip.iblocks == old(ip.iblocks)
          && ip.i2block == old(ip.i2block) && ip.i3block == at
      invariant Growing(d0, At(raw, n, bitmap), m, file, start, nbytes, at, kids, 2)
      invariant Paying(was, Used(bitmap), total, |file| - nbytes, 2, ENTRIES - k)
    {
      ghost var d1, mid := At(raw, n, bitmap), nbytes;
      var child: nat;
      ghost var kid: Tree;
      ok, child, nbytes, kid := PlaceDoublyIndirectBlock(file, raw, buf, bitmap, n, m, ip, nbytes, true);
      PayMore(was, d1.used, Used(bitmap), ok, total, |file| - mid, 2, ENTRIES - k, n, m);
      if !ok { return; }
      ghost var d2 := At(raw, n, bitmap);
      PlacedFacts(d1, d2, m, file, mid, nbytes, kid, 2);
      WriteInt(raw, n, at, k, child);
      GrowNode(d0, d1, d2, At(raw, n, bitmap), m, file, start, mid, nbytes, at, kids, kid, 2);
      kids := kids + [kid];
      k := k + 1;
      if nbytes >= |file| { break; }
    }
    PayEnd(was, Used(bitmap), total, |file| - nbytes, 2, ENTRIES - k, n, m);
    t := Node(at, kids);
    Grown(d0, At(raw, n, bitmap), m, file, start, nbytes, at, kids, 2);
  }
}
