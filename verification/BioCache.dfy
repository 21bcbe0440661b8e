/** The buffer cache of bio.c over the memory disk of memide.c.  Every method but Bread is one critical section, so
    that the invariants below hold between any two of them, whichever processes they belong to; Bread is Bget and
    Finish, which another process may also come between. */
module BioCache {
  import opened Collections
  import opened BioList
  import opened Blocks

  const ROOTDEV: nat := 1

  datatype Buf = Buf(dev: nat, blockno: nat, valid: bool, dirty: bool, locked: bool, refcnt: nat, data: FBlk)

  predicate Holds(b: Buf, n: nat) {
    b.dev == ROOTDEV && b.blockno == n
  }

  ghost predicate Cached(bufs: seq<Buf>, n: nat) {
    exists i :: 0 <= i < |bufs| && Holds(bufs[i], n)
  }

  /** The buffers that bget may not recycle: referenced, or modified by a transaction that has not committed. */
  ghost function Busy(bufs: seq<Buf>): set<nat> {
    set i: nat | i < |bufs| && (bufs[i].refcnt > 0 || bufs[i].dirty)
  }

  /** A recycled buffer, still with the data of its old block. */
  function New(n: nat, data: FBlk): Buf {
    Buf(ROOTDEV, n, false, false, false, 1, data)
  }

  /** The buffer holds no change that recycling it would lose. */
  ghost predicate Saved(b: Buf, disk: seq<FBlk>) {
    b.valid && !b.dirty ==> b.blockno < |disk| && b.data == disk[b.blockno]
  }

  ghost predicate GoodBuf(b: Buf, disk: seq<FBlk>) {
    && (b.dev != ROOTDEV ==> !b.valid && !b.dirty && !b.locked && b.refcnt == 0)
    && (b.dirty ==> b.valid) && (b.locked ==> b.refcnt > 0)
    && (b.valid ==> b.blockno < |disk|)
    && (!b.locked ==> Saved(b, disk))
  }

  /** No two buffers hold the same block, and a valid clean unlocked buffer equals its disk block. */
  ghost predicate Good(bufs: seq<Buf>, disk: seq<FBlk>) {
    && |bufs| == NBUF
    && (forall i :: 0 <= i < NBUF ==> GoodBuf(bufs[i], disk))
    && forall i, j :: 0 <= i < j < NBUF && bufs[i].dev == ROOTDEV && bufs[j].dev == ROOTDEV ==>
                        bufs[i].blockno != bufs[j].blockno
  }

  /** The newest contents of block n: in a valid buffer, or else on the disk. */
  ghost predicate Sees(bufs: seq<Buf>, disk: seq<FBlk>, n: nat, x: FBlk) {
    && (forall i :: 0 <= i < |bufs| && Holds(bufs[i], n) && bufs[i].valid ==> bufs[i].data == x)
    && ((forall i :: 0 <= i < |bufs| ==> !(Holds(bufs[i], n) && bufs[i].valid)) ==> n < |disk| && disk[n] == x)
  }

  /** Somebody reading any block gets the same as before. */
  ghost predicate SameView(bufs: seq<Buf>, disk: seq<FBlk>, bufs': seq<Buf>, disk': seq<FBlk>) {
    forall n, x :: Sees(bufs, disk, n, x) <==> Sees(bufs', disk', n, x)
  }

  lemma SeesOne(bufs: seq<Buf>, disk: seq<FBlk>, i: nat, x: FBlk)
    requires Good(bufs, disk) && i < NBUF && bufs[i].valid
    ensures Sees(bufs, disk, bufs[i].blockno, x) <==> x == bufs[i].data
  {
    assert bufs[i].dev == ROOTDEV by { assert GoodBuf(bufs[i], disk); }
    assert Holds(bufs[i], bufs[i].blockno);
  }

  lemma SeesDisk(bufs: seq<Buf>, disk: seq<FBlk>, n: nat, x: FBlk)
    requires forall i :: 0 <= i < |bufs| ==> !(Holds(bufs[i], n) && bufs[i].valid)
    ensures Sees(bufs, disk, n, x) <==> n < |disk| && disk[n] == x
  {
  }

  /** One buffer changes, and with it possibly the disk block that it holds. */
  lemma OneChange(bufs: seq<Buf>, disk: seq<FBlk>, i: nat, b: Buf, disk': seq<FBlk>)
    requires Good(bufs, disk) && i < NBUF && |disk'| == |disk| && GoodBuf(b, disk')
    requires b.dev == ROOTDEV ==>
              forall j :: 0 <= j < NBUF && j != i && bufs[j].dev == ROOTDEV ==> bufs[j].blockno != b.blockno
    requires forall n :: 0 <= n < |disk| && disk'[n] != disk[n] ==> bufs[i].dev == ROOTDEV && n == bufs[i].blockno
    ensures Good(bufs[i := b], disk')
  {
    var bufs' := bufs[i := b];
    forall k | 0 <= k < NBUF
      ensures GoodBuf(bufs'[k], disk')
    {
      assert GoodBuf(bufs[k], disk);
      if k != i && bufs[k].dev == ROOTDEV && bufs[i].dev == ROOTDEV {
        assert bufs[k].blockno != bufs[i].blockno;
      }
    }
  }

  /** The view stays when the buffer's block keeps its newest contents. */
  lemma OneView(bufs: seq<Buf>, disk: seq<FBlk>, i: nat, b: Buf, disk': seq<FBlk>)
    requires Good(bufs, disk) && i < NBUF && Good(bufs[i := b], disk') && |disk'| == |disk|
    requires forall n :: 0 <= n < |disk| && disk'[n] != disk[n] ==> b.valid && n == b.blockno
    requires bufs[i].valid && !b.valid ==> bufs[i].data == disk[bufs[i].blockno]
    requires !bufs[i].valid && b.valid ==> b.blockno < |disk| && disk[b.blockno] == b.data
    requires bufs[i].valid && b.valid ==> b.blockno == bufs[i].blockno && b.data == bufs[i].data
    ensures SameView(bufs, disk, bufs[i := b], disk')
  {
    var bufs' := bufs[i := b];
    forall n, x
      ensures Sees(bufs, disk, n, x) <==> Sees(bufs', disk', n, x)
    {
      if k :| 0 <= k < NBUF && k != i && Holds(bufs[k], n) && bufs[k].valid {
        SeesOne(bufs, disk, k, x);
        assert bufs'[k] == bufs[k];
        SeesOne(bufs', disk', k, x);
      } else {
        if bufs[i].valid && Holds(bufs[i], n) { SeesOne(bufs, disk, i, x); } else { SeesDisk(bufs, disk, n, x); }
        if b.valid && Holds(b, n) { SeesOne(bufs', disk', i, x); } else { SeesDisk(bufs', disk', n, x); }
        assert GoodBuf(bufs[i], disk) && GoodBuf(b, disk') by { assert bufs'[i] == b; }
      }
    }
  }

  /** The list is in the order of the times at which its buffers came to the front, latest first. */
  ghost predicate Recent(order: seq<nat>, stamp: seq<nat>, clock: nat) {
    && |stamp| == NBUF && (forall k :: 0 <= k < |order| ==> order[k] < NBUF && stamp[order[k]] < clock)
    && forall j, k :: 0 <= j < k < |order| ==> order[j] < NBUF && order[k] < NBUF && stamp[order[j]] > stamp[order[k]]
  }

  lemma RecentFirst(order: seq<nat>, stamp: seq<nat>, clock: nat, b: nat)
    requires Recent(order, stamp, clock) && b < NBUF && b !in order
    ensures Recent([b] + order, stamp[b := clock], clock + 1)
  {
    var q, stamp' := [b] + order, stamp[b := clock];
    forall k | 0 <= k < |q|
      ensures q[k] < NBUF && stamp'[q[k]] < clock + 1
          && (k > 0 ==> q[k] == order[k - 1] && stamp'[q[k]] == stamp[order[k - 1]] < clock)
    {
      if k > 0 { assert order[k - 1] != b; }
    }
  }

  lemma RecentWithout(order: seq<nat>, stamp: seq<nat>, clock: nat, p: nat)
    requires Recent(order, stamp, clock) && p < |order|
    ensures Recent(Without(order, p), stamp, clock)
  {
    var q := Without(order, p);
    forall k | 0 <= k < |q|
      ensures q[k] == order[if k < p then k else k + 1]
    {
    }
  }

  ghost predicate Complete(order: seq<nat>) {
    forall b: nat :: b < NBUF ==> b in order
  }

  lemma Where(order: seq<nat>, b: nat) returns (p: nat)
    requires Complete(order) && b < NBUF
    ensures p < |order| && order[p] == b
  {
    assert b in order;
    p :| p < |order| && order[p] == b;
  }

  lemma MovedComplete(order: seq<nat>, p: nat)
    requires p < |order| && Complete(order) && NoDup(order)
    ensures Complete([order[p]] + Without(order, p)) && order[p] !in Without(order, p)
  {
    var b, q := order[p], Without(order, p);
    forall k | 0 <= k < |q|
      ensures q[k] == order[if k < p then k else k + 1] && q[k] != b
    {
    }
    forall c: nat | c < NBUF
      ensures c in [b] + q
    {
      var k := Where(order, c);
      if k < p { assert q[k] == c; } else if k > p { assert q[k - 1] == c; }
    }
  }

  datatype Got = Ready(b: nat) | Waiting(b: nat) | NoBuffer | BadBlock

  lemma GoodSize(bufs: seq<Buf>, disk: seq<FBlk>)
    requires Good(bufs, disk)
    ensures |bufs| == NBUF
  {
  }

  lemma GoodCached(bufs: seq<Buf>, disk: seq<FBlk>, i: nat)
    requires Good(bufs, disk) && i < NBUF && |bufs| == NBUF && bufs[i].dev == ROOTDEV
    ensures GoodBuf(bufs[i].(refcnt := bufs[i].refcnt + 1), disk)
  {
    assert GoodBuf(bufs[i], disk);
  }

  /** Reference counts, locks and the dirty mark change no contents. */
  lemma ChangeKept(bufs: seq<Buf>, disk: seq<FBlk>, i: nat, b: Buf)
    requires Good(bufs, disk) && i < NBUF && bufs[i].dev == ROOTDEV && GoodBuf(b, disk)
    requires b == bufs[i].(locked := b.locked, refcnt := b.refcnt, dirty := b.dirty)
    ensures Good(bufs[i := b], disk) && SameView(bufs, disk, bufs[i := b], disk)
  {
    OneChange(bufs, disk, i, b, disk);
    OneView(bufs, disk, i, b, disk);
  }

  lemma NotAllBusy(bufs: seq<Buf>)
    requires |bufs| == NBUF
    ensures |Busy(bufs)| <= NBUF
    ensures |Busy(bufs)| < NBUF <==> exists i: nat :: i < NBUF && i !in Busy(bufs)
  {
    hide Below;
    SubsetSize(Busy(bufs), Below(NBUF));
  }

  /** A buffer that nobody references and that is not dirty gives up a block that the disk has too. */
  lemma Recycled(bufs: seq<Buf>, disk: seq<FBlk>, i: nat, b: Buf, n: nat)
    requires Good(bufs, disk) && i < NBUF && bufs[i].refcnt == 0 && !bufs[i].dirty
    requires b == bufs[i].(dev := ROOTDEV, blockno := n, valid := false, dirty := false, refcnt := 1)
    requires forall j :: 0 <= j < NBUF ==> !Holds(bufs[j], n)
    ensures Good(bufs[i := b], disk) && SameView(bufs, disk, bufs[i := b], disk) && !bufs[i].locked
  {
    assert GoodBuf(bufs[i], disk);
    assert forall j :: 0 <= j < NBUF ==> !Holds(bufs[j], n);
    OneChange(bufs, disk, i, b, disk);
    OneView(bufs, disk, i, b, disk);
  }

  lemma SameSelf(bufs: seq<Buf>, disk: seq<FBlk>)
    ensures SameView(bufs, disk, bufs, disk)
  {
  }

  lemma Nowhere(bufs: seq<Buf>, order: seq<nat>, n: nat)
    requires |bufs| == NBUF && Complete(order) && forall j :: 0 <= j < |order| ==>
              order[j] < NBUF && !Holds(bufs[order[j]], n)
    ensures !Cached(bufs, n)
  {
    forall i | 0 <= i < NBUF
      ensures !Holds(bufs[i], n)
    {
      var j := Where(order, i);
    }
  }

  /** Everything behind position p in the list was released earlier, and is in use. */
  lemma OlderBusy(bufs: seq<Buf>, order: seq<nat>, stamp: seq<nat>, clock: nat, p: nat)
    requires |bufs| == NBUF && Complete(order) && Recent(order, stamp, clock) && p < |order|
    requires forall j :: p < j < |order| ==> bufs[order[j]].refcnt > 0 || bufs[order[j]].dirty
    ensures forall i: nat :: i < NBUF && stamp[i] < stamp[order[p]] ==> i in Busy(bufs)
  {
    forall i: nat | i < NBUF && stamp[i] < stamp[order[p]]
      ensures i in Busy(bufs)
    {
      var j := Where(order, i);
      assert j > p;
    }
  }

  lemma AllBusy(bufs: seq<Buf>, order: seq<nat>)
    requires |bufs| == NBUF && Complete(order) && forall j :: 0 <= j < |order| ==>
              order[j] < NBUF && (bufs[order[j]].refcnt > 0 || bufs[order[j]].dirty)
    ensures forall i: nat :: i < NBUF ==> i in Busy(bufs)
  {
    forall i: nat | i < NBUF
      ensures i in Busy(bufs)
    {
      var j := Where(order, i);
    }
  }

  lemma ReadIn(bufs: seq<Buf>, disk: seq<FBlk>, i: nat, b: Buf)
    requires Good(bufs, disk) && i < NBUF && !bufs[i].valid && bufs[i].dev == ROOTDEV && bufs[i].locked
    requires bufs[i].blockno < |disk| && b == bufs[i].(valid := true, data := disk[bufs[i].blockno])
    ensures Good(bufs[i := b], disk) && SameView(bufs, disk, bufs[i := b], disk)
  {
    assert GoodBuf(bufs[i], disk);
    OneChange(bufs, disk, i, b, disk);
    OneView(bufs, disk, i, b, disk);
  }

  lemma ViewTwice(a: seq<Buf>, da: seq<FBlk>, b: seq<Buf>, db: seq<FBlk>, c: seq<Buf>, dc: seq<FBlk>)
    requires SameView(a, da, b, db) && SameView(b, db, c, dc)
    ensures SameView(a, da, c, dc)
  {
    hide Sees;
  }

  lemma ViewAt(a: seq<Buf>, b: seq<Buf>, disk: seq<FBlk>, n: nat, x: FBlk)
    requires SameView(a, disk, b, disk)
    ensures Sees(a, disk, n, x) <==> Sees(b, disk, n, x)
  {
  }

  lemma OneHolder(bufs: seq<Buf>, disk: seq<FBlk>, n: nat)
    requires Good(bufs, disk)
    ensures |bufs| == NBUF
    ensures forall i, j :: 0 <= i < NBUF && 0 <= j < NBUF && Holds(bufs[i], n) && Holds(bufs[j], n) ==> i == j
  {
  }

  lemma GoodAt(bufs: seq<Buf>, disk: seq<FBlk>, i: nat)
    requires Good(bufs, disk) && i < NBUF
    ensures |bufs| == NBUF && GoodBuf(bufs[i], disk)
  {
  }

  lemma CountsOnly(bufs: seq<Buf>, disk: seq<FBlk>, i: nat, b: Buf)
    requires Good(bufs, disk) && i < |bufs| && bufs[i].locked && bufs[i].refcnt > 0
    requires b == bufs[i].(locked := false, refcnt := bufs[i].refcnt - 1)
    ensures SameView(bufs, disk, bufs[i := b], disk)
    ensures Good(bufs[i := b], disk) <==> Saved(bufs[i], disk)
  {
    assert GoodBuf(bufs[i], disk);
    var bufs' := bufs[i := b];
    if Saved(bufs[i], disk) { OneChange(bufs, disk, i, b, disk); }
    assert bufs'[i] == b;
    forall n, x
      ensures Sees(bufs, disk, n, x) <==> Sees(bufs', disk, n, x)
    {
      assert forall k :: 0 <= k < |bufs| ==>
        Holds(bufs'[k], n) == Holds(bufs[k], n) && bufs'[k].valid == bufs[k].valid && bufs'[k].data == bufs[k].data;
    }
  }

  class Cache {
    var bufs: seq<Buf>
    var next: seq<nat>
    var prev: seq<nat>
    var disk: seq<FBlk>
    ghost var order: seq<nat>   // the list from head.next on
    ghost var clock: nat        // counts moves to the front of the list
    ghost var stamp: seq<nat>   // when each buffer was last moved there

    /** The list holds every buffer once, the most recently released one first. */
    ghost predicate Listed()
      reads this
    {
      Linked(next, prev, order) && Complete(order) && Recent(order, stamp, clock)
    }

    ghost predicate Valid()
      reads this
    {
      Good(bufs, disk) && Listed()
    }

    /** Puts b behind bcache.head. */
    method LinkAtHead(b: nat)
      requires Linked(next, prev, order) && Recent(order, stamp, clock) && b < NBUF && b !in order
      modifies this`next, this`prev, this`order, this`clock, this`stamp
      ensures Linked(next, prev, order) && Recent(order, stamp, clock) && order == [b] + old(order)
      ensures clock == old(clock) + 1 && stamp == old(stamp)[b := old(clock)]
    {
      assert LinkedAt(next, prev, order, 0);
      ghost var next0, prev0 := next, prev;
      next := next[b := next[HEAD]];
      prev := prev[b := HEAD];
      prev := prev[next[HEAD] := b];
      next := next[HEAD := b];
      LinkFirst(next0, prev0, order, b, next, prev);
      RecentFirst(order, stamp, clock, b);
      order, stamp, clock := [b] + order, stamp[b := clock], clock + 1;
    }

    /** binit, over a disk image. */
    constructor (disk: seq<FBlk>)
      ensures Valid() && this.disk == disk && Busy(bufs) == {} && forall n :: !Cached(bufs, n)
      ensures forall n: nat, x :: Sees(bufs, disk, n, x) <==> n < |disk| && disk[n] == x
    {
      this.disk := disk;
      bufs := seq(NBUF, i => Buf(0, 0, false, false, false, 0, ZeroFBlk()));
      next, prev := seq(NBUF + 1, i => HEAD), seq(NBUF + 1, i => HEAD);
      order, clock, stamp := [], 0, seq(NBUF, i => 0);
      new;
      EmptyLinked(next, prev);
      for b := 0 to NBUF
        invariant Good(bufs, disk) && this.disk == disk && Linked(next, prev, order) && Recent(order, stamp, clock)
        invariant forall c: nat :: c < b <==> c in order
        invariant forall i :: 0 <= i < NBUF ==> bufs[i].dev == 0 && bufs[i].refcnt == 0 && !bufs[i].dirty
      {
        LinkAtHead(b);
      }
    }

    /** The first loop of bget: forwards through the list for the block. */
    method FindCached(blockno: nat) returns (b: nat)
      requires |bufs| == NBUF && Listed()
      ensures b != HEAD ==> b < NBUF && Holds(bufs[b], blockno)
      ensures b != HEAD <==> Cached(bufs, blockno)
    {
      ghost var k := 1;
      assert LinkedAt(next, prev, order, 0);
      b := next[HEAD];
      while b != HEAD
        invariant 1 <= k <= |order| + 1 && b == At(order, k)
        invariant forall j :: 0 <= j < k - 1 ==> !Holds(bufs[order[j]], blockno)
        decreases |order| + 1 - k
      {
        assert b == order[k - 1];
        if bufs[b].dev == ROOTDEV && bufs[b].blockno == blockno { return; }
        Neighbours(next, prev, order, k - 1);
        b := next[b];
        k := k + 1;
      }
      Nowhere(bufs, order, blockno);
    }

    /** The second loop of bget: backwards, for the least recently released buffer that is free. */
    method FindUnused() returns (b: nat)
      requires |bufs| == NBUF && Listed()
      ensures b != HEAD ==> b < NBUF && b !in Busy(bufs)
      ensures b != HEAD ==> forall i: nat :: i < NBUF && stamp[i] < stamp[b] ==> i in Busy(bufs)
      ensures b == HEAD <==> forall i: nat :: i < NBUF ==> i in Busy(bufs)
    {
      ghost var k := |order|;
      assert LinkedAt(next, prev, order, |order|);
      b := prev[HEAD];
      while b != HEAD
        invariant 0 <= k <= |order| && b == At(order, k)
        invariant forall j :: k <= j < |order| ==> bufs[order[j]].refcnt > 0 || bufs[order[j]].dirty
        decreases k
      {
        assert b == order[k - 1];
        if bufs[b].refcnt == 0 && !bufs[b].dirty {
          OlderBusy(bufs, order, stamp, clock, k - 1);
          return b;
        }
        Neighbours(next, prev, order, k - 1);
        b := prev[b];
        k := k - 1;
      }
      AllBusy(bufs, order);
    }

    /** The part of bget under bcache.lock: the buffer of the block, with one more reference, recycled if need
        be.  False stands for the panic: the block has no buffer, and all NBUF are referenced or dirty. */
    method Bget(blockno: nat) returns (ok: bool, b: nat)
      requires Valid()
      modifies this`bufs
      ensures Valid() && SameView(old(bufs), disk, bufs, disk)
      ensures ok <==> Cached(old(bufs), blockno) || |Busy(old(bufs))| < NBUF
      ensures !ok ==> bufs == old(bufs)
      ensures ok ==> b < NBUF && Holds(bufs[b], blockno) && bufs == old(bufs)[b := bufs[b]]
      ensures ok ==> (Holds(old(bufs)[b], blockno) <==> Cached(old(bufs), blockno))
      ensures ok && Holds(old(bufs)[b], blockno) ==> bufs[b] == old(bufs)[b].(refcnt := old(bufs)[b].refcnt + 1)
      ensures ok && !Holds(old(bufs)[b], blockno) ==>
                b !in Busy(old(bufs)) && !old(bufs)[b].locked && bufs[b] == New(blockno, old(bufs)[b].data)
                && bufs[b].refcnt == 1 && !bufs[b].valid && !bufs[b].dirty && !bufs[b].locked
                && forall i: nat :: i < NBUF && stamp[i] < stamp[b] ==> i in Busy(old(bufs))
    {
      hide Good, GoodBuf, SameView, Sees;
      GoodSize(bufs, disk);
      b := FindCached(blockno);
      if b != HEAD {
        GoodCached(bufs, disk, b);
        ChangeKept(bufs, disk, b, bufs[b].(refcnt := bufs[b].refcnt + 1));
        bufs := bufs[b := bufs[b].(refcnt := bufs[b].refcnt + 1)];
        return true, b;
      }
      b := FindUnused();
      NotAllBusy(bufs);
      if b != HEAD {
        ghost var x := bufs[b].(dev := ROOTDEV, blockno := blockno, valid := false, dirty := false, refcnt := 1);
        Recycled(bufs, disk, b, x, blockno);
        bufs := bufs[b := bufs[b].(dev := ROOTDEV, blockno := blockno, valid := false, dirty := false)];
        bufs := bufs[b := bufs[b].(refcnt := 1)];
        assert bufs == old(bufs)[b := x];
        return true, b;
      }
      SameSelf(bufs, disk);
      return false, 0;
    }

    /** acquiresleep on a buffer that the caller has a reference to, once nobody else holds it. */
    method Acquire(b: nat)
      requires Valid() && b < NBUF && bufs[b].dev == ROOTDEV && bufs[b].refcnt > 0 && !bufs[b].locked
      modifies this`bufs
      ensures Valid() && SameView(old(bufs), disk, bufs, disk) && bufs == old(bufs)[b := old(bufs)[b].(locked := true)]
    {
      ChangeKept(bufs, disk, b, bufs[b].(locked := true));
      bufs := bufs[b := bufs[b].(locked := true)];
    }

    /** False stands for one of the four panics. */
    method Iderw(b: nat) returns (ok: bool)
      requires |bufs| == NBUF && b < NBUF
      modifies this`bufs, this`disk
      ensures ok <==> old(bufs[b].locked && !(bufs[b].valid && !bufs[b].dirty) && bufs[b].dev == ROOTDEV
                && bufs[b].blockno < |disk|)
      ensures !ok ==> bufs == old(bufs) && disk == old(disk)
      ensures ok && old(bufs[b].dirty) ==>
                disk == old(disk)[old(bufs[b].blockno) := old(bufs[b].data)]
                    && bufs == old(bufs)[b := old(bufs[b]).(valid := true, dirty := false)]
      ensures ok && !old(bufs[b].dirty) ==>
                disk == old(disk)
                    && bufs == old(bufs)[b := old(bufs[b]).(valid := true, data := disk[old(bufs[b].blockno)])]
    {
      if !bufs[b].locked { return false; }
      if bufs[b].valid && !bufs[b].dirty { return false; }
      if bufs[b].dev != ROOTDEV { return false; }
      if bufs[b].blockno >= |disk| { return false; }
      if bufs[b].dirty {
        bufs := bufs[b := bufs[b].(dirty := false)];
        disk := disk[bufs[b].blockno := bufs[b].data];
      } else {
        bufs := bufs[b := bufs[b].(data := disk[bufs[b].blockno])];
      }
      bufs := bufs[b := bufs[b].(valid := true)];
      ok := true;
    }

    /** acquiresleep on a buffer that the caller has a reference to, and the read that bread adds to it. */
    method Finish(b: nat) returns (got: Got)
      requires Valid() && b < NBUF && bufs[b].dev == ROOTDEV && bufs[b].refcnt > 0
      modifies this`bufs, this`disk
      ensures got == if old(bufs[b].locked) then Waiting(b)
                     else if old(bufs[b].blockno) < |disk| then Ready(b)
                     else BadBlock
      ensures disk == old(disk) && |bufs| == NBUF && bufs == old(bufs)[b := bufs[b]]
      ensures !got.BadBlock? ==> Valid() && SameView(old(bufs), disk, bufs, disk)
      ensures got.Waiting? ==> bufs == old(bufs)
      ensures got.Ready? ==> Sees(old(bufs), disk, bufs[b].blockno, bufs[b].data)
                             && bufs[b] == old(bufs[b]).(locked := true, valid := true, data := bufs[b].data)
                             && (old(bufs[b].valid) ==> bufs[b].data == old(bufs[b].data))
    {
      hide Recent, Complete;
      SameSelf(bufs, disk);
      if bufs[b].locked { return Waiting(b); }
      ghost var was := bufs;
      Acquire(b);
      ghost var s1 := bufs;
      if !bufs[b].valid {
        var ok := Iderw(b);
        if !ok { return BadBlock; }
        ReadIn(s1, disk, b, bufs[b]);
        ViewTwice(was, disk, s1, disk, bufs, disk);
      }
      SeesOne(bufs, disk, b, bufs[b].data);
      got := Ready(b);
    }

    /** bread: the newest contents of the block in a locked buffer, or asleep on the lock with the reference
        taken, from where it goes on with Finish. */
    method Bread(blockno: nat) returns (got: Got)
      requires Valid()
      modifies this`bufs, this`disk
      ensures disk == old(disk)
      ensures got.NoBuffer? <==> !Cached(old(bufs), blockno) && |Busy(old(bufs))| == NBUF
      ensures got.Waiting? <==> exists i :: 0 <= i < NBUF && Holds(old(bufs)[i], blockno) && old(bufs)[i].locked
      ensures got.BadBlock? ==> blockno >= |disk|
      ensures got.NoBuffer? ==> bufs == old(bufs)
      ensures !got.BadBlock? ==> Valid() && SameView(old(bufs), disk, bufs, disk)
      ensures got.Ready? || got.Waiting? ==>
                got.b < NBUF && Holds(bufs[got.b], blockno)
                && bufs == old(bufs)[got.b := bufs[got.b]]
      ensures got.Waiting? ==> bufs[got.b] == old(bufs)[got.b].(refcnt := old(bufs)[got.b].refcnt + 1)
      ensures got.Ready? ==> blockno < |disk| && bufs[got.b].valid && bufs[got.b].locked
                             && Sees(old(bufs), disk, blockno, bufs[got.b].data)
      ensures got.Ready? && Cached(old(bufs), blockno) ==>
                var x := old(bufs)[got.b];
                bufs[got.b] == x.(refcnt := x.refcnt + 1, locked := true, valid := true, data := bufs[got.b].data)
                && (x.valid ==> bufs[got.b].data == x.data)
      ensures got.Ready? && !Cached(old(bufs), blockno) ==>
                got.b !in Busy(old(bufs)) && bufs[got.b].refcnt == 1 && !bufs[got.b].dirty
    {
      hide Good, GoodBuf, SameView, Sees, Recent, Complete, Busy, Linked;
      GoodSize(bufs, disk);
      ghost var was := bufs;
      var ok, b := Bget(blockno);
      NotAllBusy(was);
      if !ok { return NoBuffer; }
      ghost var s1 := bufs;
      got := Finish(b);
      if !got.BadBlock? { ViewTwice(was, disk, s1, disk, bufs, disk); }
      if got.Ready? { ViewAt(was, s1, disk, blockno, bufs[b].data); }
      OneHolder(was, disk, blockno);
    }

    /** A caller that holds the buffer changes its data. */
    method SetData(b: nat, x: FBlk)
      requires Valid() && b < NBUF && bufs[b].locked && bufs[b].valid
      modifies this`bufs
      ensures Valid() && bufs == old(bufs)[b := old(bufs[b]).(data := x)] && Sees(bufs, disk, bufs[b].blockno, x)
    {
      assert GoodBuf(bufs[b], disk);
      OneChange(bufs, disk, b, bufs[b].(data := x), disk);
      bufs := bufs[b := bufs[b].(data := x)];
      SeesOne(bufs, disk, b, x);
    }

    /** log_write pins the buffer. */
    method MarkDirty(b: nat)
      requires Valid() && b < NBUF && bufs[b].locked && bufs[b].valid
      modifies this`bufs
      ensures Valid() && bufs == old(bufs)[b := old(bufs[b]).(dirty := true)] && SameView(old(bufs), disk, bufs, disk)
    {
      ChangeKept(bufs, disk, b, bufs[b].(dirty := true));
      bufs := bufs[b := bufs[b].(dirty := true)];
    }

    /** False stands for a panic.  The disk gets the buffer's data; the view does not change. */
    method Bwrite(b: nat) returns (ok: bool)
      requires Valid() && b < NBUF && bufs[b].valid
      modifies this`bufs, this`disk
      ensures ok <==> old(bufs[b].locked)
      ensures Valid() && SameView(old(bufs), old(disk), bufs, disk)
      ensures ok ==>
                disk == old(disk)[old(bufs[b].blockno) := old(bufs[b].data)]
                && bufs == old(bufs)[b := old(bufs[b]).(dirty := false)]
      ensures !ok ==> disk == old(disk) && bufs == old(bufs)
    {
      if !bufs[b].locked { return false; }
      ghost var was, old_disk := bufs, disk;
      assert GoodBuf(bufs[b], disk);
      bufs := bufs[b := bufs[b].(dirty := true)];
      ok := Iderw(b);
      assert bufs == was[b := was[b].(dirty := false)];
      OneChange(was, old_disk, b, was[b].(dirty := false), disk);
      OneView(was, old_disk, b, was[b].(dirty := false), disk);
    }

    /** Takes b out of the list and puts it behind bcache.head. */
    method MoveToFront(b: nat)
      requires Listed() && b < NBUF
      modifies this`next, this`prev, this`order, this`clock, this`stamp
      ensures Listed() && exists p: nat ::
                p < |old(order)| && old(order)[p] == b
                && order == [b] + Without(old(order), p)
    {
      ghost var p := Where(order, b);
      ghost var next0, prev0, order0 := next, prev, order;
      Neighbours(next, prev, order, p);
      assert next[b] != b by { assert p + 1 < |order| ==> order[p + 1] != order[p]; }
      prev := prev[next[b] := prev[b]];
      next := next[prev[b] := next[b]];
      Unlink(next0, prev0, order, p, next, prev);
      MovedComplete(order, p);
      RecentWithout(order, stamp, clock, p);
      order := Without(order, p);
      LinkAtHead(b);
      assert order0[p] == b && order == [b] + Without(order0, p);
    }

    /** False stands for the panic.  The last reference moves the buffer to the front of the list.  The cache
        stays sound exactly when the caller gives up no change of its own: a clean valid buffer has to be as on
        the disk. */
    method Brelse(b: nat) returns (ok: bool)
      requires Valid() && b < NBUF
      modifies this`bufs, this`next, this`prev, this`order, this`clock, this`stamp
      ensures ok <==> old(bufs[b].locked)
      ensures Listed() && SameView(old(bufs), disk, bufs, disk)
      ensures Valid() <==> !ok || Saved(old(bufs[b]), disk)
      ensures !ok ==> bufs == old(bufs) && order == old(order)
      ensures ok ==>
                old(bufs[b].refcnt) > 0
                && bufs == old(bufs)[b := old(bufs[b]).(locked := false, refcnt := old(bufs[b].refcnt) - 1)]
      ensures ok && bufs[b].refcnt == 0 ==>
                exists p: nat :: p < |old(order)| && old(order)[p] == b && order == [b] + Without(old(order), p)
      ensures ok && bufs[b].refcnt > 0 ==> order == old(order)
    {
      hide SameView, Sees, Linked, Recent, Complete, GoodBuf, Good;
      SameSelf(bufs, disk);
      GoodAt(bufs, disk, b);
      if !bufs[b].locked { return false; }
      ghost var x := bufs[b].(locked := false, refcnt := bufs[b].refcnt - 1);
      CountsOnly(bufs, disk, b, x);
      bufs := bufs[b := bufs[b].(locked := false)];
      bufs := bufs[b := bufs[b].(refcnt := bufs[b].refcnt - 1)];
      assert bufs == old(bufs)[b := x];
      if bufs[b].refcnt == 0 {
        MoveToFront(b);
      }
      ok := true;
    }
  }
}
