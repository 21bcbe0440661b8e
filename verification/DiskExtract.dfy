/** disk_image -extract for one inode: the three extract_walk_* functions and extract_file. */
module DiskExtract {
  import opened Octets
  import opened DiskBytes
  import opened DiskTree
  import opened DiskPlace
  import opened DiskFiles
  import opened DiskTool

  /** read_int anywhere an accepted block number may point; block n itself passes the range check
      `> max_block` but lies behind the image, so any value may be read there. */
  method ReadAny(raw: array<byte>, n: nat, b: nat, k: nat) returns (v: int32)
    requires IsImage(raw, n) && b <= n && k < ENTRIES
    ensures b < n ==> v == Entry(View(raw, n)[b], k)
  {
    if b < n {
      v := ReadInt(raw, n, b, k);
    } else {
      v := *;
    }
  }

  /** How many bytes one data pointer appends when `at` bytes are out already. */
  function Chunk(at: nat, size: nat): nat {
    if at + BLOCK_SZ > size then size % BLOCK_SZ else BLOCK_SZ
  }

  method Emit(raw: array<byte>, n: nat, b: nat, size: nat, out: seq<byte>) returns (out': seq<byte>)
    requires IsImage(raw, n) && b <= n
    ensures out <= out' && |out'| == |out| + Chunk(|out|, size)
    ensures b < n ==> out' == out + View(raw, n)[b][..Chunk(|out|, size)]
  {
    var k := if |out| + BLOCK_SZ > size then size % BLOCK_SZ else BLOCK_SZ;
    if b < n {
      out' := AppendBytes(raw, n, b, k, out);
    } else {
      var junk: seq<byte> := *;
      junk := seq(k, i requires 0 <= i < k => if i < |junk| then junk[i] else 0);
      out' := out + junk;
    }
  }

  // ----- where the output stands -----

  /** The output after `o` bytes' worth of pointers: the file as far as it goes. */
  function Want(c: seq<byte>, o: nat): seq<byte> {
    if o <= |c| then c[..o] else c
  }

  /** The tree holds the file's bytes from offset o on; only the end of the file leaves it unfilled. */
  ghost predicate Live(v: seq<Blk>, t: Tree, h: nat, c: seq<byte>, o: nat) {
    && Stored(v, t) && Shape(t, h) && o % BLOCK_SZ == 0
    && o + |Bytes(t)| <= |c| + BLOCK_SZ
    && (forall j :: 0 <= j < |Bytes(t)| && o + j < |c| ==> Bytes(t)[j] == c[o + j])
    && (|Bytes(t)| < Cap(h) ==> |c| <= o + |Bytes(t)|)
  }

  /** Either exactly the file so far, or -- once a partial last block has been followed by another
      pointer -- the whole file and something more. */
  ghost predicate Stands(out: seq<byte>, c: seq<byte>, o: nat, over: bool) {
    if over then |c| % BLOCK_SZ != 0 && c <= out && |c| < |out|
    else out == Want(c, o)
  }

  /** What every walk guarantees, whatever it walks over. */
  ghost predicate Walked(v: seq<Blk>, b: nat, size: nat, out: seq<byte>, out': seq<byte>) {
    && out <= out'
    && (size % BLOCK_SZ == 0 && |out| >= size ==> out' == out)
    && (b == 0 && 0 < |v| && Entry(v[0], 0) == 0 && size % BLOCK_SZ != 0 && |out| >= size ==> |out'| > |out|)
  }

  ghost predicate Extracted(v: seq<Blk>, t: Tree, h: nat, c: seq<byte>, o: nat, out': seq<byte>) {
    Stands(out', c, o + |Bytes(t)|, |c| % BLOCK_SZ != 0 && |Bytes(t)| < Cap(h))
  }

  /** Has the walk of these subtrees, of capacity cap each, gone past the end of a file with a partial last block? */
  ghost predicate Over(kids: seq<Tree>, i: nat, cap: nat, size: nat) {
    size % BLOCK_SZ != 0 && (i > |kids| || (0 < i == |kids| && |Bytes(kids[i - 1])| < cap))
  }

  ghost function Pos(kids: seq<Tree>, i: nat): nat {
    if i <= |kids| then |BytesAll(kids[..i])| else |BytesAll(kids)|
  }

  // ----- lemmas on the walk of one index block -----

  lemma PosNext(kids: seq<Tree>, i: nat)
    ensures Pos(kids, 0) == 0
    ensures i < |kids| ==> Pos(kids, i + 1) == Pos(kids, i) + |Bytes(kids[i])| <= |BytesAll(kids)|
    ensures i >= |kids| ==> Pos(kids, i) == Pos(kids, i + 1) == |BytesAll(kids)|
  {
    assert kids[..0] == [] && kids[..|kids|] == kids;
    if i < |kids| {
      BytesSlice(kids, i);
    }
  }

  lemma AddWhole(a: nat, b: nat)
    requires a % BLOCK_SZ == 0 && b % BLOCK_SZ == 0
    ensures (a + b) % BLOCK_SZ == 0
  {
  }

  lemma KidAgrees(all: seq<byte>, p: nat, mine: seq<byte>, c: seq<byte>, o: nat)
    requires p + |mine| <= |all| && all[p..p + |mine|] == mine
    requires forall j :: 0 <= j < |all| && o + j < |c| ==> all[j] == c[o + j]
    ensures forall j :: 0 <= j < |mine| && o + p + j < |c| ==> mine[j] == c[o + p + j]
  {
    forall j | 0 <= j < |mine| && o + p + j < |c|
      ensures mine[j] == c[o + p + j]
    {
      assert all[p + j] == mine[j];
    }
  }

  /** Only the last subtree can be unfilled, and then its parent is unfilled too. */
  lemma KidEnds(t: Tree, h: nat, i: nat)
    requires Shape(t, h + 1) && t.Node? && i < |t.kids| && |Bytes(t.kids[i])| < Cap(h)
    ensures i == |t.kids| - 1 && |BytesAll(t.kids[..i])| + |Bytes(t.kids[i])| == |Bytes(t)| < Cap(h + 1)
  {
    var kids := t.kids;
    CapWhole(h);
    FullPrefix(kids[..i], Cap(h));
    OneMoreFits(i, ENTRIES, Cap(h), |Bytes(kids[i])|);
  }

  /** The i-th subtree of a live tree is live at its own offset. */
  lemma LiveKid(v: seq<Blk>, t: Tree, h: nat, c: seq<byte>, o: nat, i: nat)
    requires Live(v, t, h + 1, c, o) && t.Node? && i < |t.kids|
    ensures Live(v, t.kids[i], h, c, o + Pos(t.kids, i))
    ensures !Over(t.kids, i, Cap(h), |c|)
  {
    hide Cap, Times, BytesAll;
    var kids, p := t.kids, Pos(t.kids, i);
    assert p == |BytesAll(kids[..i])| && Bytes(t) == BytesAll(kids);
    BytesSlice(kids, i);
    CapWhole(h);
    FullPrefix(kids[..i], Cap(h));
    AddWhole(o, p);
    KidAgrees(BytesAll(kids), p, Bytes(kids[i]), c, o);
    if |Bytes(kids[i])| < Cap(h) {
      KidEnds(t, h, i);
      assert o + p + |Bytes(kids[i])| == o + |Bytes(t)|;
    }
  }

  /** The end of the walk: all entries have been visited. */
  lemma LiveEnd(v: seq<Blk>, t: Tree, h: nat, c: seq<byte>, o: nat, out: seq<byte>)
    requires Live(v, t, h + 1, c, o) && t.Node?
    requires Stands(out, c, o + Pos(t.kids, ENTRIES), Over(t.kids, ENTRIES, Cap(h), |c|))
    ensures Extracted(v, t, h + 1, c, o, out)
  {
    var kids, n := t.kids, |t.kids| - 1;
    PosNext(kids, |kids|);
    ShapeBytes(t, h + 1);
    hide Stored, Want, Bytes, Shape, Entry;
    if |kids| == ENTRIES {
      CapWhole(h);
      FullPrefix(kids[..n], Cap(h));
      ShapeBytes(kids[n], h);
      OneMoreFits(n, ENTRIES, Cap(h), |Bytes(kids[n])|);
      assert |BytesAll(kids)| == |BytesAll(kids[..n])| + |Bytes(kids[n])|;
    }
  }

  /** A pointer behind the last subtree is zero; walking block 0 there adds nothing to a whole number
      of blocks and something to a file with a partial last block. */
  lemma BeyondEnd(v: seq<Blk>, kids: seq<Tree>, i: nat, cap: nat, c: seq<byte>, o: nat, out: seq<byte>, out': seq<byte>)
    requires 0 < |v| && Entry(v[0], 0) == 0 && |kids| <= i && |c| <= o + |BytesAll(kids)|
    requires Stands(out, c, o + Pos(kids, i), Over(kids, i, cap, |c|))
    requires Walked(v, 0, |c|, out, out')
    ensures Stands(out', c, o + Pos(kids, i + 1), Over(kids, i + 1, cap, |c|))
  {
    PosNext(kids, i);
  }

  lemma EmitWalks(v: seq<Blk>, b: nat, size: nat, out: seq<byte>, out': seq<byte>)
    requires out <= out' && |out'| == |out| + Chunk(|out|, size)
    ensures Walked(v, b, size, out, out')
  {
  }

  /** One data block of the file. */
  lemma EmitLeaf(v: seq<Blk>, t: Tree, c: seq<byte>, o: nat, out: seq<byte>, out': seq<byte>)
    requires Live(v, t, 0, c, o) && out == Want(c, o)
    requires out' == out + v[t.at][..Chunk(|out|, |c|)]
    ensures out' == Want(c, o + |Bytes(t)|)
  {
    assert Bytes(t) == v[t.at];
    assert o <= |c| && out == c[..o];
    var k := Chunk(o, |c|);
    if o + BLOCK_SZ > |c| {
      assert |c| % BLOCK_SZ == |c| - o || o == |c|;
    }
    assert v[t.at][..k] == c[o..o + k];
  }

  // ----- the walkers -----

  lemma WalkStart(v: seq<Blk>, t: Tree, h: nat, c: seq<byte>, o: nat, out: seq<byte>)
    requires Live(v, t, h + 1, c, o) && out == Want(c, o)
    ensures t.Node? && Stands(out, c, o + Pos(t.kids, 0), Over(t.kids, 0, Cap(h), |c|))
  {
    PosNext(t.kids, 0);
  }

  lemma WalkEntry(v: seq<Blk>, t: Tree, h: nat, c: seq<byte>, o: nat, i: nat)
    requires Live(v, t, h + 1, c, o) && t.Node? && i < ENTRIES
    ensures t.at < |v|
    ensures i < |t.kids| ==> Entry(v[t.at], i) == t.kids[i].at && 0 < t.kids[i].at < |v|
    ensures i >= |t.kids| ==> Entry(v[t.at], i) == 0 && |c| <= o + |BytesAll(t.kids)|
  {
    if i >= |t.kids| {
      ShapeBytes(t, h + 1);
    } else {
      assert Stored(v, t.kids[i]);
    }
  }

  lemma KidStart(v: seq<Blk>, t: Tree, h: nat, c: seq<byte>, o: nat, i: nat, out: seq<byte>)
    requires Live(v, t, h + 1, c, o) && t.Node? && i < |t.kids|
    requires Stands(out, c, o + Pos(t.kids, i), Over(t.kids, i, Cap(h), |c|))
    ensures Live(v, t.kids[i], h, c, o + Pos(t.kids, i)) && out == Want(c, o + Pos(t.kids, i))
  {
    LiveKid(v, t, h, c, o, i);
  }

  lemma LeafDone(v: seq<Blk>, t: Tree, c: seq<byte>, o: nat, i: nat, out: seq<byte>)
    requires Live(v, t, 1, c, o) && t.Node? && i < |t.kids|
    requires out == Want(c, o + Pos(t.kids, i) + |Bytes(t.kids[i])|)
    ensures Stands(out, c, o + Pos(t.kids, i + 1), Over(t.kids, i + 1, Cap(0), |c|))
  {
    assert Shape(t.kids[i], 0);
    PosNext(t.kids, i);
  }

  method ExtractWalkIndirectBlock(raw: array<byte>, n: nat, blockno: nat, size: nat, out: seq<byte>,
                                  ghost live: bool, ghost t: Tree, ghost c: seq<byte>, ghost o: nat)
    returns (out': seq<byte>)
    requires IsImage(raw, n) && 0 < n && blockno <= n
    requires live ==> Live(View(raw, n), t, 1, c, o) && t.at == blockno && out == Want(c, o) && size == |c|
                      && Entry(View(raw, n)[0], 0) == 0
    ensures Walked(View(raw, n), blockno, size, out, out')
    ensures live ==> Extracted(View(raw, n), t, 1, c, o, out')
  {
    hide Live, Extracted, Stands, Over, Pos, Want;
    ghost var v := View(raw, n);
    out' := out;
    if live { WalkStart(v, t, 0, c, o, out); }
    for i := 0 to ENTRIES
      invariant out <= out'
      invariant size % BLOCK_SZ == 0 && |out| >= size ==> out' == out
      invariant blockno == 0 && Entry(v[0], 0) == 0 && size % BLOCK_SZ != 0 && |out| >= size && i > 0 ==> |out'| > |out|
      invariant live ==> Stands(out', c, o + Pos(t.kids, i), Over(t.kids, i, Cap(0), |c|))
    {
      var number := ReadAny(raw, n, blockno, i);
      if live { WalkEntry(v, t, 0, c, o, i); }
      if number < 0 || number > n {
        return;
      }
      ghost var before := out';
      out' := Emit(raw, n, number, size, out');
      EmitWalks(v, number, size, before, out');
      if live {
        if i < |t.kids| {
          KidStart(v, t, 0, c, o, i, before);
          EmitLeaf(v, t.kids[i], c, o + Pos(t.kids, i), before, out');
          LeafDone(v, t, c, o, i, out');
        } else {
          BeyondEnd(v, t.kids, i, Cap(0), c, o, before, out');
        }
      }
    }
    if live { LiveEnd(v, t, 0, c, o, out'); }
  }

  lemma KidDone(v: seq<Blk>, t: Tree, h: nat, c: seq<byte>, o: nat, i: nat, out: seq<byte>)
    requires Live(v, t, h + 1, c, o) && t.Node? && i < |t.kids|
    requires Extracted(v, t.kids[i], h, c, o + Pos(t.kids, i), out)
    ensures Stands(out, c, o + Pos(t.kids, i + 1), Over(t.kids, i + 1, Cap(h), |c|))
  {
    PosNext(t.kids, i);
  }

  method ExtractWalkDoublyIndirectBlock(raw: array<byte>, n: nat, blockno: nat, size: nat, out: seq<byte>,
                                        ghost live: bool, ghost t: Tree, ghost c: seq<byte>, ghost o: nat)
    returns (out': seq<byte>)
    requires IsImage(raw, n) && 0 < n && blockno <= n
    requires live ==> Live(View(raw, n), t, 2, c, o) && t.at == blockno && out == Want(c, o) && size == |c|
                      && Entry(View(raw, n)[0], 0) == 0
    ensures Walked(View(raw, n), blockno, size, out, out')
    ensures live ==> Extracted(View(raw, n), t, 2, c, o, out')
  {
    hide Live, Extracted, Stands, Over, Pos, Want;
    ghost var v := View(raw, n);
    out' := out;
    if live { WalkStart(v, t, 1, c, o, out); }
    for i := 0 to ENTRIES
      invariant out <= out'
      invariant size % BLOCK_SZ == 0 && |out| >= size ==> out' == out
      invariant blockno == 0 && Entry(v[0], 0) == 0 && size % BLOCK_SZ != 0 && |out| >= size && i > 0 ==> |out'| > |out|
      invariant live ==> Stands(out', c, o + Pos(t.kids, i), Over(t.kids, i, Cap(1), |c|))
    {
      var number := ReadAny(raw, n, blockno, i);
      if live { WalkEntry(v, t, 1, c, o, i); }
      if number < 0 || number > n {
        return;
      }
      ghost var before := out';
      ghost var kid := if live && i < |t.kids| then t.kids[i] else t;
      ghost var p := if live && i < |t.kids| then o + Pos(t.kids, i) else o;
      if live && i < |t.kids| { KidStart(v, t, 1, c, o, i, before); }
      out' := ExtractWalkIndirectBlock(raw, n, number, size, out', live && i < |t.kids|, kid, c, p);
      if live {
        if i < |t.kids| {
          KidDone(v, t, 1, c, o, i, out');
        } else {
          BeyondEnd(v, t.kids, i, Cap(1), c, o, before, out');
        }
      }
    }
    if live { LiveEnd(v, t, 1, c, o, out'); }
  }

  method ExtractWalkTriplyIndirectBlock(raw: array<byte>, n: nat, blockno: nat, size: nat, out: seq<byte>,
                                        ghost live: bool, ghost t: Tree, ghost c: seq<byte>, ghost o: nat)
    returns (out': seq<byte>)
    requires IsImage(raw, n) && 0 < n && blockno <= n
    requires live ==> Live(View(raw, n), t, 3, c, o) && t.at == blockno && out == Want(c, o) && size == |c|
                      && Entry(View(raw, n)[0], 0) == 0
    ensures Walked(View(raw, n), blockno, size, out, out')
    ensures live ==> Extracted(View(raw, n), t, 3, c, o, out')
  {
    hide Live, Extracted, Stands, Over, Pos, Want;
    ghost var v := View(raw, n);
    out' := out;
    if live { WalkStart(v, t, 2, c, o, out); }
    for i := 0 to ENTRIES
      invariant out <= out'
      invariant size % BLOCK_SZ == 0 && |out| >= size ==> out' == out
      invariant blockno == 0 && Entry(v[0], 0) == 0 && size % BLOCK_SZ != 0 && |out| >= size && i > 0 ==> |out'| > |out|
      invariant live ==> Stands(out', c, o + Pos(t.kids, i), Over(t.kids, i, Cap(2), |c|))
    {
      var number := ReadAny(raw, n, blockno, i);
      if live { WalkEntry(v, t, 2, c, o, i); }
      if number < 0 || number > n {
        return;
      }
      ghost var before := out';
      ghost var kid := if live && i < |t.kids| then t.kids[i] else t;
      ghost var p := if live && i < |t.kids| then o + Pos(t.kids, i) else o;
      if live && i < |t.kids| { KidStart(v, t, 2, c, o, i, before); }
      out' := ExtractWalkDoublyIndirectBlock(raw, n, number, size, out', live && i < |t.kids|, kid, c, p);
      if live {
        if i < |t.kids| {
          KidDone(v, t, 2, c, o, i, out');
        } else {
          BeyondEnd(v, t.kids, i, Cap(2), c, o, before, out');
        }
      }
    }
    if live { LiveEnd(v, t, 2, c, o, out'); }
  }

  // ----- one whole file -----

  ghost function LastCap(ts: seq<Tree>): nat
    requires ts != []
  {
    Cap(Level(|ts| - 1))
  }

  /** Before pointer j of file f is followed. */
  ghost predicate FileStands(f: FileRec, j: nat, out: seq<byte>)
    requires f.ts != []
  {
    Stands(out, f.content, Pos(f.ts, j), Over(f.ts, j, LastCap(f.ts), |f.content|))
  }

  lemma {:induction false} WholeBlocks(ts: seq<Tree>)
    requires forall j :: 0 <= j < |ts| ==> |Bytes(ts[j])| % BLOCK_SZ == 0
    ensures |BytesAll(ts)| % BLOCK_SZ == 0
  {
    hide Bytes;
    if ts != [] {
      var n := |ts| - 1;
      WholeBlocks(ts[..n]);
      AddWhole(|BytesAll(ts[..n])|, |Bytes(ts[n])|);
    }
  }

  lemma ForestPrefix(ts: seq<Tree>, j: nat)
    requires Forest(ts) && j <= |ts|
    ensures |BytesAll(ts[..j])| % BLOCK_SZ == 0
  {
    hide Bytes, BytesAll, AllSeparate, Shape, Cap;
    forall i | 0 <= i < j
      ensures |Bytes(ts[i])| % BLOCK_SZ == 0
    {
      ShapeBytes(ts[i], Level(i));
    }
    WholeBlocks(ts[..j]);
  }

  lemma FileAgrees(all: seq<byte>, c: seq<byte>)
    requires Carries(all, c)
    ensures forall j :: 0 <= j < |all| && 0 + j < |c| ==> all[j] == c[0 + j]
  {
    forall j | 0 <= j < |all| && 0 + j < |c|
      ensures all[j] == c[0 + j]
    {
      assert all[..|c|][j] == c[j];
    }
  }

  lemma FileTree(v: seq<Blk>, m: nat, k: Slot, f: FileRec, j: nat)
    requires FileOk(v, m, k, f) && j < |f.ts|
    ensures Live(v, f.ts[j], Level(j), f.content, Pos(f.ts, j)) && !Over(f.ts, j, LastCap(f.ts), |f.content|)
  {
    hide Cap, BytesAll;
    var ts, c, p := f.ts, f.content, Pos(f.ts, j);
    assert p == |BytesAll(ts[..j])|;
    BytesSlice(ts, j);
    ForestPrefix(ts, j);
    FileAgrees(BytesAll(ts), c);
    KidAgrees(BytesAll(ts), p, Bytes(ts[j]), c, 0);
    if |Bytes(ts[j])| < Cap(Level(j)) {
      assert ts[..j + 1] == ts;
    }
  }

  lemma FileBegin(v: seq<Blk>, m: nat, k: Slot, f: FileRec)
    requires FileOk(v, m, k, f)
    ensures f.ts != [] && FileStands(f, 0, []) && InSlots(k, m) && k.d < |v|
  {
    PosNext(f.ts, 0);
  }

  /** Following pointer j, whether it leads to a tree of the file or is zero. */
  lemma FileStep(v: seq<Blk>, m: nat, k: Slot, f: FileRec, j: nat, out: seq<byte>)
    requires FileOk(v, m, k, f) && j < N_PTRS && FileStands(f, j, out)
    ensures j < |f.ts| ==> Live(v, f.ts[j], Level(j), f.content, Pos(f.ts, j)) && out == Want(f.content, Pos(f.ts, j))
                           && 0 < f.ts[j].at < |v|
  {
    if j < |f.ts| {
      FileTree(v, m, k, f, j);
    }
  }

  lemma FileFacts(v: seq<Blk>, m: nat, k: Slot, f: FileRec)
    requires FileOk(v, m, k, f)
    ensures f.ts != [] && 0 < |v| && |f.content| <= |BytesAll(f.ts)|
    ensures forall j :: 0 <= j < |f.ts| - 1 ==> |Bytes(f.ts[j])| == Cap(Level(j))
  {
    hide Bytes, Shape, AllSeparate, AllStored, PtrsOk;
  }

  lemma FileStepDone(v: seq<Blk>, m: nat, k: Slot, f: FileRec, j: nat, out: seq<byte>, out': seq<byte>)
    requires FileOk(v, m, k, f) && j < N_PTRS && FileStands(f, j, out) && Entry(v[0], 0) == 0
    requires j < |f.ts| ==> Extracted(v, f.ts[j], Level(j), f.content, Pos(f.ts, j), out')
    requires j >= |f.ts| ==> Walked(v, 0, |f.content|, out, out')
    ensures FileStands(f, j + 1, out')
  {
    FileFacts(v, m, k, f);
    hide FileOk, Bytes, BytesAll, Cap, Level, Want, Entry, Stands, Pos;
    PosNext(f.ts, j);
    if j >= |f.ts| {
      PosNext(f.ts, |f.ts|);
      BeyondEnd(v, f.ts, j, LastCap(f.ts), f.content, 0, out, out');
    } else {
      assert Over(f.ts, j + 1, LastCap(f.ts), |f.content|)
        == (|f.content| % BLOCK_SZ != 0 && |Bytes(f.ts[j])| < Cap(Level(j)));
    }
  }

  lemma LeafExtracted(v: seq<Blk>, t: Tree, c: seq<byte>, o: nat, out: seq<byte>)
    requires Live(v, t, 0, c, o) && out == Want(c, o + |Bytes(t)|)
    ensures Extracted(v, t, 0, c, o, out)
  {
  }

  /** All 17 pointers have been followed. */
  lemma FileEnd(v: seq<Blk>, m: nat, k: Slot, f: FileRec, out: seq<byte>)
    requires FileOk(v, m, k, f) && FileStands(f, N_PTRS, out)
    ensures f.content <= out && (out == f.content <==> |f.content| % BLOCK_SZ == 0)
  {
    var ts, c := f.ts, f.content;
    assert f.words[4] == |c| <= MAXINT;
    PosNext(ts, |ts|);
    if |ts| == N_PTRS {
      Caps();
      BytesSlice(ts, 16);
      assert |Bytes(ts[16])| < Cap(Level(16));
    }
  }

  lemma ImageFile(v: seq<Blk>, m: nat, files: map<Slot, FileRec>, k: Slot)
    requires ImageOk(v, m, files) && k in files
    ensures FileOk(v, m, k, files[k]) && 0 < m <= |v| && Entry(v[0], 0) == 0
    ensures k.d < |v| && k.i < 10 && Entry(v[k.d], INODE_WORDS * k.i + 4) == |files[k].content|
  {
    var k0 := Slot(0, 0);
    assert Entry(v[k.d], INODE_WORDS * k.i + 4) == InodeWord(v, k, 4);
    assert Entry(v[0], 0) == InodeWord(v, k0, 0);
    if k0 in files {
      assert FileOk(v, m, k0, files[k0]);
    } else {
      assert SlotEmpty(v, k0);
    }
  }

  ghost function TreeAt(f: FileRec, j: nat): Tree {
    if j < |f.ts| then f.ts[j] else Leaf(0, ZeroBlk())
  }

  /** Whatever file of the image is extracted, the output starts with its contents; it is exactly the
      contents if and only if the size is a multiple of BLOCK_SZ. */
  method ExtractFile(raw: array<byte>, n: nat, m: nat, k: Slot, ghost files: map<Slot, FileRec>)
    returns (out: seq<byte>)
    requires IsImage(raw, n) && ImageOk(View(raw, n), m, files) && k in files
    ensures files[k].content <= out
    ensures out == files[k].content <==> |files[k].content| % BLOCK_SZ == 0
  {
    hide FileOk, Live, Extracted, FileStands, Stands, Pos, ImageOk, Want;
    ghost var v, f := View(raw, n), files[k];
    ImageFile(v, m, files, k);
    FileBegin(v, m, k, f);
    out := [];
    var size := ReadInt(raw, n, k.d, INODE_WORDS * k.i + 4);
    for i := 0 to N_DBLOCKS
      invariant FileStands(f, i, out)
    {
      var blockno := ReadPtr(raw, n, m, k, i, f);
      FileStep(v, m, k, f, i, out);
      if blockno < 0 || blockno > n { return; }
      ghost var before := out;
      out := Emit(raw, n, blockno, size, out);
      EmitWalks(v, blockno, size, before, out);
      if i < |f.ts| {
        EmitLeaf(v, f.ts[i], f.content, Pos(f.ts, i), before, out);
        LeafExtracted(v, f.ts[i], f.content, Pos(f.ts, i), out);
      }
      FileStepDone(v, m, k, f, i, before, out);
    }
    for i := 0 to N_IBLOCKS
      invariant FileStands(f, 12 + i, out)
    {
      ghost var j, before := 12 + i, out;
      var blockno := ReadPtr(raw, n, m, k, 12 + i, f);
      FileStep(v, m, k, f, j, out);
      if blockno < 0 || blockno > n { return; }
      out := ExtractWalkIndirectBlock(raw, n, blockno, size, out, j < |f.ts|, TreeAt(f, j), f.content, Pos(f.ts, j));
      FileStepDone(v, m, k, f, j, before, out);
    }
    ghost var before := out;
    var i2 := ReadPtr(raw, n, m, k, 15, f);
    FileStep(v, m, k, f, 15, out);
    if i2 >= 0 && i2 <= n {
      out := ExtractWalkDoublyIndirectBlock(raw, n, i2, size, out, 15 < |f.ts|, TreeAt(f, 15), f.content,
          Pos(f.ts, 15));
    }
    FileStepDone(v, m, k, f, 15, before, out);
    before := out;
    var i3 := ReadPtr(raw, n, m, k, 16, f);
    FileStep(v, m, k, f, 16, out);
    if i3 >= 0 && i3 <= n {
      out := ExtractWalkTriplyIndirectBlock(raw, n, i3, size, out, 16 < |f.ts|, TreeAt(f, 16), f.content,
          Pos(f.ts, 16));
    }
    FileStepDone(v, m, k, f, 16, before, out);
    FileEnd(v, m, k, f, out);
  }
}
