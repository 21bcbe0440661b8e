/** write_log over the buffer cache: it needs one buffer besides those that the transaction has pinned and those
    that readers hold, and panics when there is none. */
module BioCommit {
  import opened Collections
  import opened BioList
  import opened Blocks
  import opened BioCache
  import L = LogSpec

  /** The block has a buffer with a logged change, and nobody holds it. */
  ghost predicate Pinned(bufs: seq<Buf>, n: nat) {
    exists i: nat :: i < |bufs| && Holds(bufs[i], n) && bufs[i].valid && bufs[i].dirty && !bufs[i].locked
  }

  /** No buffer in use is one for the block. */
  ghost predicate Idle(bufs: seq<Buf>, n: nat) {
    forall i: nat :: i in Busy(bufs) ==> !Holds(bufs[i], n)
  }

  /** Every cached block is one of s. */
  ghost predicate Within(bufs: seq<Buf>, s: seq<nat>) {
    forall i :: 0 <= i < |bufs| && bufs[i].dev == ROOTDEV ==> bufs[i].blockno in s
  }

  lemma BusyOne(bufs: seq<Buf>, b: nat, x: Buf)
    requires b < |bufs| && b !in Busy(bufs) && (x.refcnt > 0 || x.dirty)
    ensures Busy(bufs[b := x]) == Busy(bufs) + {b} && |Busy(bufs[b := x])| == |Busy(bufs)| + 1
  {
  }

  /** One idle buffer has come into use, for block n. */
  ghost predicate OneMore(a: seq<Buf>, b: seq<Buf>, n: nat) {
    |a| == |b| && exists i: nat :: i < |b| && i !in Busy(a) && b == a[i := b[i]] && Holds(b[i], n)
  }

  /** bread and log_write of one block that is not in the cache, or only bread. */
  method Use(c: Cache, n: nat, pin: bool)
    requires c.Valid() && n < |c.disk| && !Cached(c.bufs, n) && |Busy(c.bufs)| < NBUF
    modifies c
    ensures c.Valid() && c.disk == old(c.disk) && |Busy(c.bufs)| == |old(Busy(c.bufs))| + 1
    ensures OneMore(old(c.bufs), c.bufs, n) && (pin ==> Pinned(c.bufs, n))
  {
    hide Good, SameView, Sees, Busy, Linked, Recent, Complete;
    GoodSize(c.bufs, c.disk);
    ghost var was := c.bufs;
    var got := c.Bread(n);
    var b := got.b;
    assert Holds(c.bufs[b], n);
    if pin {
      c.MarkDirty(b);
      var ok := c.Brelse(b);
    }
    assert b !in Busy(was) && c.bufs == was[b := c.bufs[b]];
    BusyOne(was, b, c.bufs[b]);
  }

  /** The buffers in use are the same, with the same contents. */
  ghost predicate SameBusy(a: seq<Buf>, b: seq<Buf>) {
    |a| == |b| && Busy(a) == Busy(b) && forall i: nat :: i in Busy(a) ==> b[i] == a[i]
  }

  lemma KeptPinned(a: seq<Buf>, da: seq<FBlk>, b: seq<Buf>, db: seq<FBlk>, n: nat)
    requires Good(a, da) && Good(b, db) && SameBusy(a, b)
    ensures Pinned(a, n) ==> Pinned(b, n) && forall x :: Sees(a, da, n, x) <==> Sees(b, db, n, x)
    ensures Idle(a, n) ==> Idle(b, n)
  {
    if i: nat :| i < |a| && Holds(a[i], n) && a[i].valid && a[i].dirty && !a[i].locked {
      assert i in Busy(a) && b[i] == a[i];
      forall x
        ensures Sees(a, da, n, x) <==> Sees(b, db, n, x)
      {
        SeesOne(a, da, i, x);
        SeesOne(b, db, i, x);
      }
    }
  }

  lemma IdleCached(bufs: seq<Buf>, disk: seq<FBlk>, n: nat)
    requires |bufs| == NBUF && Good(bufs, disk) && Idle(bufs, n)
    ensures Cached(bufs, n) ==> |Busy(bufs)| < NBUF
    ensures forall i: nat :: i < NBUF && Holds(bufs[i], n) ==> !bufs[i].locked && !bufs[i].dirty && bufs[i].refcnt == 0
  {
    NotAllBusy(bufs);
    forall i: nat | i < NBUF && Holds(bufs[i], n)
      ensures i !in Busy(bufs) && !bufs[i].locked
    {
      assert GoodBuf(bufs[i], disk);
    }
  }

  function Released(b: Buf): Buf
    requires b.refcnt > 0
  {
    b.(locked := false, refcnt := b.refcnt - 1)
  }

  /** memmove, bwrite and the two brelse of write_log. */
  method Transfer(c: Cache, b: nat, i: nat)
    requires c.Valid() && b < NBUF && i < NBUF && b != i && c.bufs[b].refcnt > 0 && c.bufs[i].refcnt > 0
    requires c.bufs[b].locked && c.bufs[b].valid && c.bufs[i].locked && c.bufs[i].valid && c.bufs[i].dirty
    modifies c
    ensures c.Valid() && |c.disk| == |old(c.disk)| && |c.bufs| == NBUF && old(c.bufs[b].blockno) < |c.disk|
    ensures c.disk == old(c.disk)[old(c.bufs[b].blockno) := old(c.bufs[i].data)]
    ensures c.bufs == old(c.bufs)[b := Released(old(c.bufs[b]).(data := old(c.bufs[i].data), dirty := false))]
                                 [i := Released(old(c.bufs[i]))]
  {
    hide GoodBuf, SameView, Sees, Linked, Recent, Complete;
    GoodAt(c.bufs, c.disk, b);
    hide Good;
    c.SetData(b, c.bufs[i].data);
    var written := c.Bwrite(b);
    var r1 := c.Brelse(i);
    var r2 := c.Brelse(b);
  }

  lemma PinnedAt(bufs: seq<Buf>, disk: seq<FBlk>, n: nat, slot: nat) returns (i: nat)
    requires Good(bufs, disk) && Pinned(bufs, n) && Idle(bufs, slot)
    ensures i < |bufs| == NBUF && Holds(bufs[i], n) && bufs[i].valid && bufs[i].dirty && !bufs[i].locked
    ensures n < |disk| && n != slot && i in Busy(bufs)
  {
    i :| i < |bufs| && Holds(bufs[i], n) && bufs[i].valid && bufs[i].dirty && !bufs[i].locked;
    assert GoodBuf(bufs[i], disk);
    assert i in Busy(bufs);
  }

  lemma NotUsed(bufs: seq<Buf>, b: nat, slot: nat, i: nat)
    requires Idle(bufs, slot) && b < |bufs| && i in Busy(bufs)
    ensures Holds(bufs[b], slot) ==> b !in Busy(bufs) && b != i
  {
  }

  lemma IdleAgain(bufs: seq<Buf>, b: nat, x: Buf)
    requires b < |bufs| && b !in Busy(bufs) && x.refcnt == 0 && !x.dirty
    ensures SameBusy(bufs, bufs[b := x])
  {
    var bufs' := bufs[b := x];
    assert forall i: nat :: i in Busy(bufs) ==> bufs'[i] == bufs[i];
    assert Busy(bufs) == Busy(bufs');
  }

  /** One turn of the loop of write_log.  False stands for the panic in bget. */
  method CopyOne(c: Cache, slot: nat, home: nat) returns (ok: bool)
    requires c.Valid() && slot < |c.disk| && Idle(c.bufs, slot) && Pinned(c.bufs, home)
    modifies c
    ensures ok <==> |old(Busy(c.bufs))| < NBUF
    ensures ok ==> c.Valid() && SameBusy(old(c.bufs), c.bufs) && |c.disk| == |old(c.disk)|
    ensures ok ==> c.disk == old(c.disk)[slot := c.disk[slot]] && Sees(old(c.bufs), old(c.disk), home, c.disk[slot])
  {
    hide Good, GoodBuf, SameView, Sees, Busy, Linked, Recent, Complete, Idle;
    ghost var was, d0 := c.bufs, c.disk;
    GoodSize(was, d0);
    NotAllBusy(was);
    IdleCached(was, d0, slot);
    var to := c.Bread(slot);
    if to.NoBuffer? { return false; }
    ghost var s1 := c.bufs;
    ghost var i := PinnedAt(was, d0, home, slot);
    NotUsed(was, to.b, slot, i);
    OneHolder(s1, d0, home);
    GoodAt(s1, d0, i);
    var from := c.Bread(home);
    assert from.b == i;
    Transfer(c, to.b, from.b);
    ok := true;
    SeesOne(was, d0, i, c.disk[slot]);
    IdleAgain(was, to.b, c.bufs[to.b]);
    assert c.bufs == was[to.b := c.bufs[to.b]];
  }

  lemma SameBusySelf(a: seq<Buf>)
    ensures SameBusy(a, a)
  {
  }

  lemma BusySame(a: seq<Buf>, b: seq<Buf>)
    requires SameBusy(a, b)
    ensures Busy(a) == Busy(b)
  {
  }

  lemma SameBusyTwice(a: seq<Buf>, b: seq<Buf>, c: seq<Buf>)
    requires SameBusy(a, b) && SameBusy(b, c)
    ensures SameBusy(a, c)
  {
  }

  /** write_log over the cache, for the blocks that the transaction has pinned.  It panics exactly when every
      buffer is referenced or dirty; otherwise each slot gets the newest contents of its block. */
  method WriteLog(c: Cache, start: nat, blocks: seq<nat>) returns (ok: bool)
    requires c.Valid() && start + |blocks| < |c.disk|
    requires forall k: nat :: k < |blocks| ==> Pinned(c.bufs, blocks[k])
    requires forall n: nat :: start < n <= start + |blocks| ==> Idle(c.bufs, n)
    modifies c
    ensures ok <==> blocks == [] || |old(Busy(c.bufs))| < NBUF
    ensures ok ==> c.Valid() && SameBusy(old(c.bufs), c.bufs) && |c.disk| == |old(c.disk)|
    ensures ok ==> forall k: nat :: k < |blocks| ==> Sees(old(c.bufs), old(c.disk), blocks[k], c.disk[start + 1 + k])
    ensures ok ==> forall n: nat :: n < |c.disk| && !(start < n <= start + |blocks|) ==> c.disk[n] == old(c.disk)[n]
  {
    hide Good, GoodBuf, SameView, Sees, Busy, Linked, Recent, Complete, Idle, Pinned, SameBusy;
    ghost var was, d0 := c.bufs, c.disk;
    SameBusySelf(was);
    var tail := 0;
    while tail < |blocks|
      invariant tail <= |blocks| && c.Valid() && |c.disk| == |d0| && SameBusy(was, c.bufs)
      invariant tail > 0 ==> |Busy(was)| < NBUF
      invariant forall k: nat :: k < tail ==> Sees(was, d0, blocks[k], c.disk[start + 1 + k])
      invariant forall n: nat :: n < |c.disk| && !(start < n <= start + tail) ==> c.disk[n] == d0[n]
    {
      KeptPinned(was, d0, c.bufs, c.disk, blocks[tail]);
      KeptPinned(was, d0, c.bufs, c.disk, start + 1 + tail);
      BusySame(was, c.bufs);
      ghost var s1 := c.bufs;
      ok := CopyOne(c, start + 1 + tail, blocks[tail]);
      if !ok { return; }
      SameBusyTwice(was, s1, c.bufs);
      tail := tail + 1;
    }
    ok := true;
  }

  lemma Fresh(bufs: seq<Buf>)
    requires Busy(bufs) == {} && forall n :: !Cached(bufs, n)
    ensures |Busy(bufs)| == 0 && Within(bufs, [])
  {
    forall i | 0 <= i < |bufs|
      ensures bufs[i].dev != ROOTDEV
    {
      assert !Cached(bufs, bufs[i].blockno);
    }
  }

  lemma NotThere(bufs: seq<Buf>, all: seq<nat>, k: nat)
    requires NoDup(all) && k < |all| && Within(bufs, all[..k])
    ensures !Cached(bufs, all[k])
  {
  }

  lemma Used(a: seq<Buf>, b: seq<Buf>, all: seq<nat>, k: nat)
    requires k < |all| && Within(a, all[..k]) && OneMore(a, b, all[k])
    ensures Within(b, all[..k + 1])
  {
    assert all[..k + 1] == all[..k] + [all[k]];
  }

  lemma StillPinned(a: seq<Buf>, b: seq<Buf>, n: nat, m: nat)
    requires OneMore(a, b, m) && Pinned(a, n)
    ensures Pinned(b, n)
  {
    var i: nat :| i < |a| && Holds(a[i], n) && a[i].valid && a[i].dirty && !a[i].locked;
    assert i in Busy(a) && b[i] == a[i];
  }

  lemma Outside(bufs: seq<Buf>, s: seq<nat>, n: nat)
    requires Within(bufs, s) && n !in s
    ensures Idle(bufs, n)
  {
  }

  /** The whole situation, from a fresh cache: running operations log the blocks of pinned and readers hold those
      of held, outside any operation, when the commit starts.  It panics exactly when the two together fill the
      cache; so 30 logged blocks are too many even without a reader, and 29 with a single one. */
  method CommitCrowded(disk: seq<FBlk>, start: nat, pinned: seq<nat>, held: seq<nat>) returns (ok: bool)
    requires NoDup(pinned + held) && 0 < |pinned| && |pinned| + |held| <= NBUF && start + |pinned| < |disk|
    requires forall n :: n in pinned + held ==> n < |disk| && !(start < n <= start + |pinned|)
    ensures ok <==> |pinned| + |held| < NBUF
  {
    hide Good, GoodBuf, SameView, Sees, Busy, Linked, Recent, Complete, Idle, Pinned, SameBusy, Cached, Within;
    var c := new Cache(disk);
    Fresh(c.bufs);
    var all := pinned + held;
    var k := 0;
    while k < |all|
      invariant k <= |all| && c.Valid() && c.disk == disk && |Busy(c.bufs)| == k && Within(c.bufs, all[..k])
      invariant forall j: nat :: j < k && j < |pinned| ==> Pinned(c.bufs, pinned[j])
    {
      NotThere(c.bufs, all, k);
      assert all[k] in all;
      ghost var was := c.bufs;
      Use(c, all[k], k < |pinned|);
      Used(was, c.bufs, all, k);
      forall j: nat | j < k && j < |pinned|
        ensures Pinned(c.bufs, pinned[j])
      {
        StillPinned(was, c.bufs, pinned[j], all[k]);
      }
      k := k + 1;
    }
    assert all[..k] == all;
    forall n: nat | start < n <= start + |pinned|
      ensures Idle(c.bufs, n)
    {
      Outside(c.bufs, all, n);
    }
    ok := WriteLog(c, start, pinned);
  }

  // ----- the cache and the log speak of the same contents -----

  /** m is what the dirty buffers hold. */
  ghost predicate IsDirty(bufs: seq<Buf>, m: map<nat, FBlk>) {
    && (forall i :: 0 <= i < |bufs| && bufs[i].dirty && bufs[i].dev == ROOTDEV ==>
          bufs[i].blockno in m && m[bufs[i].blockno] == bufs[i].data)
    && forall n :: n in m ==> exists i :: 0 <= i < |bufs| && Holds(bufs[i], n) && bufs[i].dirty
  }

  /** A reader of the cache gets what the log takes for the current contents. */
  lemma SeesCached(bufs: seq<Buf>, disk: seq<FBlk>, m: map<nat, FBlk>, n: nat, x: FBlk)
    requires Good(bufs, disk) && IsDirty(bufs, m) && n < |disk| && forall i :: 0 <= i < NBUF ==> Saved(bufs[i], disk)
    ensures Sees(bufs, disk, n, x) <==> x == L.Cached(disk, m, n)
  {
    if i :| 0 <= i < NBUF && Holds(bufs[i], n) && bufs[i].valid {
      SeesOne(bufs, disk, i, x);
      assert Saved(bufs[i], disk);
      if n in m {
        var j :| 0 <= j < NBUF && Holds(bufs[j], n) && bufs[j].dirty;
        OneHolder(bufs, disk, n);
      }
    } else {
      SeesDisk(bufs, disk, n, x);
      assert forall j :: 0 <= j < NBUF ==> GoodBuf(bufs[j], disk);
    }
  }

  /** The disk after the first k block writes of a commit. */
  ghost function AfterIO(g: L.Geometry, d: L.Disk, m: map<nat, FBlk>, lh: seq<nat>, k: nat): (d': L.Disk)
    requires L.Usable(g, d, lh) && k <= |lh|
    ensures |d'| == |d|
  {
    if k == 0 then d else L.CommitIO(g, AfterIO(g, d, m, lh, k - 1), m, lh, k - 1)
  }

  lemma {:induction false} AfterIOAt(g: L.Geometry, d: L.Disk, m: map<nat, FBlk>, lh: seq<nat>, k: nat, n: nat)
    requires L.Usable(g, d, lh) && k <= |lh| && n < |d| && forall i :: 0 <= i < |lh| ==> lh[i] in m
    ensures AfterIO(g, d, m, lh, k)[n] == if g.start < n <= g.start + k then m[lh[n - g.start - 1]] else d[n]
  {
    if k > 0 { AfterIOAt(g, d, m, lh, k - 1, n); }
  }

  lemma SlotsAre(g: L.Geometry, d: L.Disk, m: map<nat, FBlk>, lh: seq<nat>, d': L.Disk)
    requires L.Usable(g, d, lh) && |d'| == |d|
    requires forall k: nat :: k < |lh| ==> lh[k] in m && d'[g.start + 1 + k] == m[lh[k]]
    requires forall n: nat :: n < |d| && !(g.start < n <= g.start + |lh|) ==> d'[n] == d[n]
    ensures d' == AfterIO(g, d, m, lh, |lh|)
  {
    hide AfterIO;
    forall n: nat | n < |d|
      ensures d'[n] == AfterIO(g, d, m, lh, |lh|)[n]
    {
      AfterIOAt(g, d, m, lh, |lh|, n);
      if g.start < n <= g.start + |lh| { assert d'[g.start + 1 + (n - g.start - 1)] == d'[n]; }
    }
  }

  /** What WriteLog leaves on the disk is what the block writes of the log's commit leave. */
  lemma WriteLogIsCommit(g: L.Geometry, bufs: seq<Buf>, d: L.Disk, m: map<nat, FBlk>, lh: seq<nat>, d': L.Disk)
    requires Good(bufs, d) && IsDirty(bufs, m) && L.Usable(g, d, lh) && |d'| == |d|
    requires forall i :: 0 <= i < NBUF ==> Saved(bufs[i], d)
    requires forall k: nat :: k < |lh| ==> lh[k] in m && Sees(bufs, d, lh[k], d'[g.start + 1 + k])
    requires forall n: nat :: n < |d| && !(g.start < n <= g.start + |lh|) ==> d'[n] == d[n]
    ensures d' == AfterIO(g, d, m, lh, |lh|)
  {
    forall k: nat | k < |lh|
      ensures d'[g.start + 1 + k] == m[lh[k]]
    {
      SeesCached(bufs, d, m, lh[k], d'[g.start + 1 + k]);
    }
    hide Good, IsDirty, Sees, Saved, AfterIO;
    SlotsAre(g, d, m, lh, d');
  }
}
