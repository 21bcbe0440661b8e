/** malloc, free and morecore over an object that holds the memory and freep. */
module UmallocCode {
  import opened Umalloc
  import opened UmallocFree
  import opened UmallocMalloc

  /** The two exits of the search loop of free(). */
  predicate Stops(bp: int, p: int, next: int) {
    (bp > p && bp < next) || (p >= next && (bp > p || bp < next))
  }

  /** The search of free() stops exactly at the last free block below bp. */
  lemma StopsAt(mem: map<int, Header>, bl: seq<Block>, i: nat, bp: int)
    requires Ordered(bl) && Linked(mem, bl) && i < |bl| && BASE < bp && forall j :: 0 <= j < |bl| ==> bl[j].at != bp
    ensures bl[i].at in mem
    ensures Stops(bp, bl[i].at, mem[bl[i].at].ptr) <==> i == Position(bl, bp)
  {
    NextPtr(mem, bl, i);
    var t := Position(bl, bp);
    if i + 1 < |bl| {
      InOrder(bl, i, i + 1);
      assert i < t ==> bl[i + 1].at < bp;
    } else if i > 0 {
      InOrder(bl, 0, i);
    }
  }

  ghost predicate Roomy(bl: seq<Block>, nunits: nat) {
    exists i :: 0 <= i < |bl| && bl[i].size >= nunits
  }

  lemma InsertedFits(bl: seq<Block>, t: nat, b: Block)
    requires Between(bl, t, b)
    ensures forall n: nat :: n <= b.size ==> Roomy(Inserted(bl, t, b), n)
  {
    var l1, next, prev := With(bl, t, b), TouchesNext(bl, t, b), TouchesPrev(bl, t, b);
    WithAt(bl, t, b, t);
    WithAt(bl, t, b, t + 1);
    var l2 := if next then Merge(l1, t + 1) else l1;
    if next {
      WithAt(bl, t, b, t + 2);
      MergeAt(l1, t + 1, t);
      MergeAt(l1, t + 1, t + 1);
    }
    assert l2[t + 1].size >= b.size && l2[t] == bl[t];
    if prev {
      MergeAt(l2, t, t);
      assert Inserted(bl, t, b)[t].size >= b.size;
    } else {
      assert Inserted(bl, t, b)[t + 1].size >= b.size;
    }
  }

  /** The units that morecore asks for. */
  function Units(nunits: nat): nat {
    if nunits < MIN_UNITS then MIN_UNITS else nunits
  }

  const UINT: nat := 0x1_0000_0000
  const UNIT_BYTES: nat := 8  // sizeof(Header)

  /** The units for a block of nbytes bytes, with its header: unsigned arithmetic, so the sum wraps around. */
  function NUnits(nbytes: nat): nat {
    (nbytes + UNIT_BYTES - 1) % UINT / UNIT_BYTES + 1
  }

  /** The bytes by which malloc wants the process to grow when no block fits. */
  function Asked(nbytes: nat): nat {
    UNIT_BYTES * Units(NUnits(nbytes))
  }

  /** The block is large enough unless the sum has wrapped around. */
  lemma SizesExactly(nbytes: nat)
    requires nbytes < UINT
    ensures NUnits(nbytes) > 0 && Asked(nbytes) <= UINT
    ensures UNIT_BYTES * (NUnits(nbytes) - 1) >= nbytes <==> nbytes < 0xffff_fff9
    ensures nbytes < 0xffff_fff9 ==> UNIT_BYTES * (NUnits(nbytes) - 1) < nbytes + UNIT_BYTES
  {
    if nbytes < 0xffff_fff9 {
      assert NUnits(nbytes) == (nbytes + 7) / 8 + 1;
    } else {
      assert (nbytes + 7) % UINT == nbytes + 7 - UINT && NUnits(nbytes) == 1;
    }
  }

  /** Which requests overflow the size of the process, a uint, when no block fits: those near the top of the address
      space, and every request once less than a minimal region is left. */
  lemma WrapsExactly(sz: nat, nbytes: nat)
    requires sz < UINT && sz % UNIT_BYTES == 0 && nbytes < UINT
    ensures sz + Asked(nbytes) >= UINT <==>
            sz + 0x8000 >= UINT || (nbytes < 0xffff_fff9 && sz + nbytes + 16 > UINT)
  {
    SizesExactly(nbytes);
    var n := NUnits(nbytes);
    if nbytes < 0xffff_fff9 {
      assert nbytes + 8 <= 8 * n < nbytes + 16;
      assert sz + 8 * n >= UINT <==> sz + nbytes + 16 > UINT;
    } else {
      assert n == 1;
    }
  }

  /** A process of 16 KB.  The first request is negative as the int that sbrk takes, and yet adds its region; the
      next ones shrink the process, or leave it as it is, and the last one gets a block of no bytes. */
  lemma TooManyBytes()
    ensures 0x4000 + Asked(0x7fff_fff1) == 0x8000_4000
    ensures (0x4000 + Asked(0xffff_fff0)) % UINT == 0x3ff8
    ensures (0x4000 + Asked(0xffff_fff1)) % UINT == 0x4000
    ensures NUnits(0xffff_fff9) == 1
  {
  }

  /** A unit in a page that the kernel has mapped for itself.  A write to it kills the process; elsewhere below the
      size of the process the page is there or the fault branch of trap() supplies it. */
  predicate KernelPage(u: int) {
    0x8000_0000 <= UNIT_BYTES * u < 0x8e00_0000 || UNIT_BYTES * u >= 0xfe00_0000
  }

  ghost predicate UserOnly(mem: map<int, Header>) {
    forall u :: u in mem ==> !KernelPage(u)
  }

  /** A block; or sbrk has wrapped the size of the process around, so that the region is not there; or the process has
      been killed at the header of a block in a page of the kernel.  In the last two cases the model stops. */
  datatype Got = Given(p: int) | Wrapped | Killed

  /** The block at u, once its header is written. */
  function HandedOut(u: int): Got {
    if KernelPage(u) then Killed else Given(u + 1)
  }

  lemma StopsHere(h: Heap, i: nat, bp: int)
    requires Good(h) && i < |h.bl| && bp in h.alloc
    ensures h.bl[i].at in h.mem
    ensures BASE < bp && Ordered(h.bl) && forall j :: 0 <= j < |h.bl| ==> h.bl[j].at != bp
    ensures Stops(bp, h.bl[i].at, h.mem[h.bl[i].at].ptr) <==> i == Position(h.bl, bp)
  {
    AllocFits(h, bp);
    StopsAt(h.mem, h.bl, i, bp);
  }

  /** The two tests and the two header reads of free(), in terms of the list. */
  lemma TouchCode(h: Heap, t: nat, bp: int)
    requires Good(h) && bp in h.alloc && t < |h.bl| && Between(h.bl, t, Block(bp, h.alloc[bp]))
    ensures var b, p := Block(bp, h.alloc[bp]), h.bl[t].at;
      && p in h.mem && p != bp && bp in h.mem && h.mem[bp].size == b.size && h.mem[p].size == h.bl[t].size
      && h.mem[p].ptr in h.mem && h.mem[p].ptr != bp && h.mem[p].ptr == h.bl[Succ(t, |h.bl|)].at
      && (bp + b.size == h.mem[p].ptr <==> TouchesNext(h.bl, t, b))
      && (TouchesNext(h.bl, t, b) ==>
            h.mem[h.mem[p].ptr] ==
            Header(if t + 2 < |h.bl| then h.bl[t + 2].at else BASE, h.bl[t + 1].size))
  {
    AllocFits(h, bp);
    OldLinkOf(h.mem, h.bl, t);
    OldLinkOf(h.mem, h.bl, Succ(t, |h.bl|));
  }

  lemma OldLinkOf2(h: Heap, i: nat)
    requires Good(h) && i < |h.bl|
    ensures h.bl[i].at in h.mem && h.mem[h.bl[i].at] == Header(h.bl[Succ(i, |h.bl|)].at, h.bl[i].size)
    ensures h.bl[Succ(i, |h.bl|)].at in h.mem
  {
    OldLinkOf(h.mem, h.bl, i);
    OldLinkOf(h.mem, h.bl, Succ(i, |h.bl|));
  }

  lemma BaseEmpty(h: Heap)
    requires Good(h)
    ensures |h.bl| > 0 && h.bl[0].size == 0
  {
  }

  lemma SameIndex(h: Heap, i: nat, j: nat)
    requires Good(h) && i < |h.bl| && j < |h.bl| && h.bl[i].at == h.bl[j].at
    ensures i == j
  {
    if i < j { InOrder(h.bl, i, j); } else if j < i { InOrder(h.bl, j, i); }
  }

  /** Blocks already looked at, when the search started after block f and stands at block b. */
  predicate Seen(f: nat, b: nat, j: nat) {
    if f < b then f < j < b else j > f || j < b
  }

  /** One more block has been looked at; a search that starts at f has seen none. */
  lemma SeenNext(bl: seq<Block>, f: nat, b: nat, nunits: nat)
    requires f < |bl| && b < |bl|
    requires b != f ==> bl[b].size < nunits && forall j :: 0 <= j < |bl| && Seen(f, b, j) ==> bl[j].size < nunits
    ensures forall j :: 0 <= j < |bl| && Seen(f, Succ(b, |bl|), j) ==> bl[j].size < nunits
  {
  }

  /** A full round without a fit has seen every block. */
  lemma NothingFits(bl: seq<Block>, f: nat, nunits: nat)
    requires f < |bl| && bl[f].size < nunits
    requires forall j :: 0 <= j < |bl| && Seen(f, f, j) ==> bl[j].size < nunits
    ensures !Roomy(bl, nunits) && forall i :: 0 <= i < |bl| ==> bl[i].size < nunits
  {
    forall i | 0 <= i < |bl|
      ensures bl[i].size < nunits
    {
      assert i == f || Seen(f, f, i);
    }
  }

  lemma FreepNotNull(h: Heap)
    requires Good(h)
    ensures h.freep != NULL
  {
    var i :| 0 <= i < |h.bl| && h.bl[i].at == h.freep;
    if i > 0 { InOrder(h.bl, 0, i); }
  }

  lemma AllocNotNull(h: Heap, a: int)
    requires Good(h) && a in h.alloc
    ensures a + 1 != NULL
  {
    AllocFits(h, a);
  }

  lemma FirstGood(mem: map<int, Header>, brk: int)
    requires BASE < brk
    ensures Good(Heap(mem[BASE := Header(BASE, 0)], BASE, brk, [Block(BASE, 0)], map[], {}))
  {
    var bl := [Block(BASE, 0)];
    assert bl[0].at == BASE;
    assert forall u :: !InFree(bl, u);
  }

  /** The heap after morecore: a region of nu units at the end of the process, freed into the list. */
  ghost function Enlarged(h: Heap, nu: nat): Heap
    requires Good(h)
  {
    Freed(Grown(h, h.brk, nu), |h.bl| - 1, h.brk)
  }

  lemma LastPlace(h: Heap, nu: nat, t: nat)
    requires Good(h) && Between(h.bl, t, Block(h.brk, nu))
    ensures t == |h.bl| - 1 && !TouchesNext(h.bl, t, Block(h.brk, nu))
  {
  }

  lemma NoneFits(bl: seq<Block>, nunits: nat)
    requires !Roomy(bl, nunits)
    ensures forall i :: 0 <= i < |bl| ==> bl[i].size < nunits
  {
  }

  /** If nothing fitted before, the block that ends where the process ends is the only one that fits. */
  lemma OnlyLastFits(h: Heap, nu: nat, nunits: nat)
    requires Good(h) && !Roomy(h.bl, nunits) && nu >= nunits > 0
    requires Between(h.bl, |h.bl| - 1, Block(h.brk, nu))
    ensures var l := Enlarged(h, nu).bl; var last := |l| - 1;
      && last > 0 && l[last].size >= nu && l[last].at + l[last].size == h.brk + nu
      && forall i :: 0 <= i < last ==> l[i].size < nunits
  {
    var bl, b := h.bl, Block(h.brk, nu);
    var t := |bl| - 1;
    LastPlace(h, nu, t);
    hide Roomy;
    NoneFits(bl, nunits);
    var l1 := With(bl, t, b);
    WithAt(bl, t, b, t);
    WithAt(bl, t, b, t + 1);
    var l := Enlarged(h, nu).bl;
    if TouchesPrev(bl, t, b) {
      MergeAt(l1, t, t);
      assert l == Merge(l1, t) && t > 0;
      forall i | 0 <= i < t
        ensures l[i] == bl[i]
      {
        MergeAt(l1, t, i);
        WithAt(bl, t, b, i);
      }
    } else {
      assert l == l1;
      forall i | 0 <= i <= t
        ensures l[i] == bl[i]
      {
        WithAt(bl, t, b, i);
      }
    }
  }

  lemma GrownBack(h: Heap, nu: nat, t: nat)
    requires Good(h) && nu > 0 && Between(h.bl, t, Block(h.brk, nu))
    ensures t == |h.bl| - 1 && Freed(Grown(h, h.brk, nu), t, h.brk) == Enlarged(h, nu)
    ensures Enlarged(h, nu).alloc == h.alloc
  {
    LastPlace(h, nu, t);
    GrownAllocated(h, h.brk, nu);
  }

  lemma BrkUp(h: Heap, brk: int)
    requires Good(h) && h.brk <= brk
    ensures Good(h.(brk := brk))
  {
  }

  lemma OneMoreHeader(mem: map<int, Header>, u: int, x: Header)
    requires UserOnly(mem) && !KernelPage(u)
    ensures UserOnly(mem[u := x])
  {
  }

  /** The block at the end of the process is the only one that fits. */
  ghost predicate OnlyLast(h: Heap, nunits: nat) {
    && |h.bl| > 1 && h.bl[|h.bl| - 1].at + h.bl[|h.bl| - 1].size == h.brk && h.bl[|h.bl| - 1].size >= nunits
    && forall i :: 0 <= i < |h.bl| - 1 ==> h.bl[i].size < nunits
  }

  lemma ThisFits(bl: seq<Block>, b: nat, nunits: nat)
    requires b < |bl| && bl[b].size >= nunits
    ensures Roomy(bl, nunits)
  {
  }

  lemma OnlyOne(h: Heap, nunits: nat, b: nat)
    requires OnlyLast(h, nunits) && b < |h.bl| && h.bl[b].size >= nunits
    ensures b == |h.bl| - 1 > 0 && h.bl[b].at + h.bl[b].size == h.brk
  {
  }

  lemma LastOnly(h: Heap, nunits: nat)
    requires Good(h) && !Roomy(h.bl, nunits) && nunits > 0
    requires Between(h.bl, |h.bl| - 1, Block(h.brk, Units(nunits)))
    ensures OnlyLast(Enlarged(h, Units(nunits)), nunits) && Enlarged(h, Units(nunits)).alloc == h.alloc
    ensures Roomy(Enlarged(h, Units(nunits)).bl, nunits)
  {
    OnlyLastFits(h, Units(nunits), nunits);
    GrownBack(h, Units(nunits), |h.bl| - 1);
  }

  /** free writes only headers that were there. */
  lemma FreedUserOnly(h: Heap, t: nat, a: int)
    requires Good(h) && a in h.alloc && t < |h.bl| && UserOnly(h.mem)
    ensures UserOnly(Freed(h, t, a).mem)
  {
    AllocFits(h, a);
    OldLinkOf2(h, t);
  }

  /** The first call of malloc sets up the list. */
  ghost function Started(h: Heap): Heap {
    if h.freep != NULL then h else h.(mem := h.mem[BASE := Header(BASE, 0)], freep := BASE, bl := [Block(BASE, 0)])
  }

  ghost function FreepAt(h: Heap): (i: nat)
    requires Good(h)
    ensures i < |h.bl| && h.bl[i].at == h.freep && h.freep in h.mem
  {
    var i :| 0 <= i < |h.bl| && h.bl[i].at == h.freep;
    OldLinkOf(h.mem, h.bl, i);
    i
  }

  /** Next fit: block b is the first one after freep that is large enough. */
  ghost predicate NextFit(h: Heap, b: nat, nunits: nat)
    requires Good(h)
  {
    && 0 < b < |h.bl| && h.bl[b].size >= nunits
    && forall j :: 0 <= j < |h.bl| && Seen(FreepAt(h), b, j) ==> h.bl[j].size < nunits
  }

  /** The heap after block b has served a request: gone from the list, or without its tail. */
  ghost function Served(h: Heap, b: nat, nunits: nat): Heap
    requires Good(h) && 0 < b < |h.bl|
  {
    OldLinkOf2(h, b);
    OldLinkOf2(h, b - 1);
    if h.bl[b].size == nunits then Taken(h, b, b - 1) else Split(h, b, b - 1, nunits)
  }

  class Allocator {
    var mem: map<int, Header>
    var freep: int
    var sz: nat  // the size of the process in bytes, a uint
    ghost var bl: seq<Block>
    ghost var alloc: map<int, int>
    ghost var owned: set<int>

    ghost function View(): Heap
      reads this
    {
      Heap(mem, freep, sz / UNIT_BYTES, bl, alloc, owned)
    }

    ghost predicate Ready()
      reads this
    {
      Good(View()) && UserOnly(mem) && sz < UINT && sz % UNIT_BYTES == 0
    }

    ghost predicate Valid()
      reads this
    {
      if freep != NULL then Ready()
      else
        && bl == [] && alloc == map[] && owned == {} && UserOnly(mem)
        && UNIT_BYTES * (BASE + 1) <= sz < UINT && sz % UNIT_BYTES == 0
    }

    constructor (size: nat)
      requires UNIT_BYTES * (BASE + 1) <= size < UINT && size % UNIT_BYTES == 0
      ensures Valid() && freep == NULL && sz == size
    {
      mem, freep, sz, bl, alloc, owned := map[], NULL, size, [], map[], {};
    }

    /** The search loop of free(): the last free block below bp. */
    method FindPlace(bp: int) returns (p: int, ghost t: nat)
      requires Good(View()) && bp in alloc
      ensures p in mem && Stops(bp, p, mem[p].ptr)
      ensures t < |bl| && p == bl[t].at && Between(bl, t, Block(bp, alloc[bp]))
      ensures Good(Freed(View(), t, bp))
    {
      hide Good, Linked, Allocated, Conserved, Between;
      ghost var h := View();
      AllocFits(h, bp);
      t := Position(bl, bp);
      FreedGood(h, bp);
      ghost var i: nat := FreepAt(h);
      p := freep;
      StopsHere(h, i, bp);
      while !(bp > p && bp < mem[p].ptr)
        invariant i < |bl| && p == bl[i].at && p in mem
        invariant Stops(bp, p, mem[p].ptr) <==> i == t
        decreases if i <= t then t - i else |bl| - i + t
      {
        if p >= mem[p].ptr && (bp > p || bp < mem[p].ptr) { break; }
        OldLinkOf2(h, i);
        StopsHere(h, Succ(i, |bl|), bp);
        i := Succ(i, |bl|);
        p := mem[p].ptr;
      }
    }

    /** The relinking of free(): coalesce upwards, then downwards. */
    method Relink(p: int, bp: int, ghost t: nat)
      requires Good(View()) && bp in alloc && t < |bl| && p == bl[t].at && Between(bl, t, Block(bp, alloc[bp]))
      modifies this`mem
      ensures mem == Relinked(old(mem), bl, t, Block(bp, alloc[bp]))
    {
      hide Good, Ordered, Linked, Allocated, Conserved, Between;
      TouchCode(View(), t, bp);
      var nx := mem[p].ptr;
      if bp + mem[bp].size == nx {
        mem := mem[bp := Header(mem[nx].ptr, mem[bp].size + mem[nx].size)];
      } else {
        mem := mem[bp := Header(nx, mem[bp].size)];
      }
      if p + mem[p].size == bp {
        mem := mem[p := Header(mem[bp].ptr, mem[p].size + mem[bp].size)];
      } else {
        mem := mem[p := Header(bp, mem[p].size)];
      }
    }

    /** t is the place in the old list; the new list and memory are spelled out by Freed. */
    method Free(ap: int) returns (ghost t: nat)
      requires Ready() && ap - 1 in alloc
      modifies this`mem, this`freep, this`bl, this`alloc
      ensures t < |old(bl)| && Between(old(bl), t, Block(ap - 1, old(alloc)[ap - 1]))
      ensures Ready() && View() == Freed(old(View()), t, ap - 1) && freep == old(bl)[t].at
    {
      hide Good, Between, Relinked, Inserted, UserOnly;
      ghost var h := View();
      var bp, p := ap - 1, NULL;
      p, t := FindPlace(bp);
      Relink(p, bp, t);
      freep := p;
      bl, alloc := Inserted(bl, t, Block(bp, alloc[bp])), Without(alloc, bp);
      FreedUserOnly(h, t, bp);
    }

    /** sys_sbrk and growproc: the old size is returned and the new one wraps around.  A program that grows on its own
        account leaves the heap as it is. */
    method Sbrk(n: nat) returns (p: nat)
      requires Ready() && n < UINT
      modifies this`sz
      ensures p == old(sz) && sz == (p + n) % UINT
      ensures n % UNIT_BYTES == 0 && p + n < UINT ==> Ready()
    {
      ghost var h := View();
      p := sz;
      sz := (sz + n) % UINT;
      hide Good, UserOnly;
      if n % UNIT_BYTES == 0 && p + n < UINT {
        assert sz == p + n;
        BrkUp(h, sz / UNIT_BYTES);
      }
    }

    /** The size grows by the region, unless it wraps around; the region is then freed into the list. */
    method Morecore(nunits: nat) returns (res: Got)
      requires Ready() && nunits > 0 && UNIT_BYTES * Units(nunits) <= UINT
      modifies this
      ensures sz == (old(sz) + UNIT_BYTES * Units(nunits)) % UINT
      ensures res == Wrapped <==> old(sz) + UNIT_BYTES * Units(nunits) >= UINT
      ensures res == Killed <==> res != Wrapped && KernelPage(old(sz) / UNIT_BYTES)
      ensures !res.Given? ==> alloc == old(alloc) && owned == old(owned)
      ensures res.Given? ==> Ready() && View() == Enlarged(old(View()), Units(nunits)) && res.p == freep != NULL
      ensures res.Given? ==> Between(old(bl), |old(bl)| - 1, Block(old(sz) / UNIT_BYTES, Units(nunits)))
    {
      hide Good, Between, Relinked, Inserted, UserOnly;
      var nu: nat := nunits;
      if nu < MIN_UNITS { nu := MIN_UNITS; }
      ghost var h := View();
      var addr := Sbrk(nu * UNIT_BYTES % UINT);
      if sz != addr + nu * UNIT_BYTES { return Wrapped; }
      var p := addr / UNIT_BYTES;
      if KernelPage(p) { return Killed; }
      GrownGood(h, p, nu);
      OneMoreHeader(mem, p, Header(NULL, nu));
      mem := mem[p := Header(NULL, nu)];
      alloc, owned := alloc[p := nu], owned + Range(p, nu);
      assert View() == Grown(h, p, nu);
      ghost var t := Free(p + 1);
      GrownBack(h, nu, t);
      FreepNotNull(View());
      res := Given(freep);
    }

    /** The block is large enough: unlink it, or cut its tail off. */
    method Take(prevp: int, p: int, nunits: nat, ghost a: nat, ghost b: nat) returns (res: Got)
      requires Ready() && a < |bl| && b == Succ(a, |bl|) && bl[a].at == prevp && bl[b].at == p && p in mem
      requires mem[p].size >= nunits > 0
      modifies this`mem, this`freep, this`bl, this`alloc
      ensures res == HandedOut(old(bl)[b].at + old(bl)[b].size - nunits)
      ensures res.Given? ==> Ready() && freep != NULL && 0 < b && View() == Served(old(View()), b, nunits)
      ensures res.Given? ==> freep == prevp == old(bl)[b - 1].at
      ensures res.Given? ==> res.p != NULL && res.p - 1 !in old(alloc) && alloc == old(alloc)[res.p - 1 := nunits]
    {
      hide Good;
      ghost var h := View();
      OldLinkOf2(h, a);
      OldLinkOf2(h, b);
      BaseEmpty(h);
      var u := p;
      if mem[p].size == nunits {
        TakenGood(h, b);
        mem := mem[prevp := Header(mem[p].ptr, mem[prevp].size)];
        bl, alloc := Removed(bl, b), alloc[p := nunits];
      } else {
        SplitGood(h, b, a, nunits);
        mem := mem[p := Header(mem[p].ptr, mem[p].size - nunits)];
        bl := bl[b := Block(p, mem[p].size)];
        u := p + mem[p].size;
        if KernelPage(u) { return Killed; }
        mem := mem[u := Header(NULL, nunits)];
        alloc := alloc[u := nunits];
      }
      freep := prevp;
      FreepNotNull(View());
      AllocNotNull(View(), u);
      res := Given(u + 1);
    }

    /** morecore has been called once, and only its block fits. */
    ghost predicate Regrown(h: Heap, size: nat, nunits: nat)
      requires Good(h)
      reads this
    {
      && !Roomy(h.bl, nunits) && sz == size + UNIT_BYTES * Units(nunits) && !KernelPage(size / UNIT_BYTES)
      && View() == Enlarged(h, Units(nunits)) && OnlyLast(View(), nunits) && Roomy(bl, nunits)
    }

    /** The search has come round to freep. */
    method ComeRound(nunits: nat, ghost f: nat) returns (res: Got)
      requires Ready() && freep != NULL && nunits > 0 && UNIT_BYTES * Units(nunits) <= UINT
      requires f < |bl| && bl[f].size < nunits && forall j :: 0 <= j < |bl| && Seen(f, f, j) ==> bl[j].size < nunits
      modifies this
      ensures !Roomy(old(bl), nunits) && sz == (old(sz) + UNIT_BYTES * Units(nunits)) % UINT
      ensures res == Wrapped <==> old(sz) + UNIT_BYTES * Units(nunits) >= UINT
      ensures res == Killed <==> res != Wrapped && KernelPage(old(sz) / UNIT_BYTES)
      ensures res.Given? ==> Ready() && Regrown(old(View()), old(sz), nunits) && alloc == old(alloc)
      ensures res.Given? ==> res.p == freep != NULL
    {
      hide Good, UserOnly, KernelPage, Enlarged, Units, OnlyLast, Between, Roomy;
      ghost var h := View();
      NothingFits(bl, f, nunits);
      res := Morecore(nunits);
      if res.Given? { LastOnly(h, nunits); }
    }

    /** The search loop of malloc, from the block after freep. */
    method Search(nunits: nat) returns (res: Got, ghost calls: nat, ghost b: nat)
      requires Ready() && freep != NULL && nunits > 0 && UNIT_BYTES * Units(nunits) <= UINT
      modifies this
      ensures calls == if Roomy(old(bl), nunits) then 0 else 1
      ensures res.Given? ==> Ready() && freep != NULL
      ensures res.Given? ==> res.p != NULL && res.p - 1 !in old(alloc) && alloc == old(alloc)[res.p - 1 := nunits]
      ensures calls == 0 ==> NextFit(old(View()), b, nunits)
                             && res == HandedOut(old(bl)[b].at + old(bl)[b].size - nunits)
      ensures calls == 0 && res.Given? ==> View() == Served(old(View()), b, nunits) && freep == old(bl)[b - 1].at
      ensures calls == 1 ==> sz == (old(sz) + UNIT_BYTES * Units(nunits)) % UINT
      ensures calls == 1 ==> var fits := old(sz) + UNIT_BYTES * Units(nunits) < UINT;
                             res == if !fits then Wrapped else if KernelPage(old(sz) / UNIT_BYTES) then Killed
                                    else HandedOut(sz / UNIT_BYTES - nunits)
      ensures calls == 1 && res.Given? ==> var e := Enlarged(old(View()), Units(nunits));
                                           Good(e) && |e.bl| > 1 && View() == Served(e, |e.bl| - 1, nunits)
    {
      hide Good, Units, Served, Taken, Split, Position, UserOnly, KernelPage, Enlarged, Between, Seen, OnlyLast, Roomy;
      calls := 0;
      ghost var h0, sz0 := View(), sz;
      ghost var f: nat := FreepAt(View());
      var prevp := freep;
      OldLinkOf2(View(), f);
      var p := mem[prevp].ptr;
      ghost var a: nat := f;
      b := Succ(f, |bl|);
      SeenNext(bl, f, f, nunits);
      while true
        invariant Ready() && calls <= 1 && freep != NULL && alloc == h0.alloc
        invariant calls == 0 ==> View() == h0 && f == FreepAt(h0) && sz == sz0
        invariant calls == 1 ==> Regrown(h0, sz0, nunits)
        invariant f < |bl| && a < |bl| && b == Succ(a, |bl|) && bl[f].at == freep && bl[a].at == prevp
            && bl[b].at == p && p in mem
        invariant forall j :: 0 <= j < |bl| && Seen(f, b, j) ==> bl[j].size < nunits
        decreases 1 - calls, if f < b then |bl| - b + f else f - b
      {
        OldLinkOf2(View(), a);
        OldLinkOf2(View(), b);
        BaseEmpty(View());
        if mem[p].size >= nunits {
          ThisFits(bl, b, nunits);
          if calls == 1 { OnlyOne(View(), nunits, b); }
          res := Take(prevp, p, nunits, a, b);
          return;
        }
        if p == freep {
          SameIndex(View(), b, f);
          calls := calls + 1;
          res := ComeRound(nunits, f);
          if !res.Given? { return; }
          p := res.p;
          f := FreepAt(View());
          b := f;
        }
        OldLinkOf2(View(), b);
        SeenNext(bl, f, b, nunits);
        prevp := p;
        p := mem[p].ptr;
        a, b := b, Succ(b, |bl|);
      }
    }

    /** nbytes is a uint. */
    method Malloc(nbytes: nat) returns (res: Got, ghost calls: nat, ghost b: nat)
      requires Valid() && nbytes < UINT
      modifies this
      ensures calls == if Roomy(old(bl), NUnits(nbytes)) then 0 else 1
      ensures res.Given? ==> Valid() && freep != NULL
      ensures res.Given? ==> res.p - 1 !in old(alloc) && alloc == old(alloc)[res.p - 1 := NUnits(nbytes)]
      ensures res.Given? ==> (UNIT_BYTES * (alloc[res.p - 1] - 1) >= nbytes <==> nbytes < 0xffff_fff9)
      ensures calls == 0 ==> var h, n := old(View()), NUnits(nbytes);
                             Good(h) && NextFit(h, b, n) && res == HandedOut(h.bl[b].at + h.bl[b].size - n)
                             && (res.Given? ==> View() == Served(h, b, n) && freep == h.bl[b - 1].at)
      ensures calls == 1 ==> sz == (old(sz) + Asked(nbytes)) % UINT
      ensures calls == 1 ==> res == if old(sz) + Asked(nbytes) >= UINT then Wrapped
                                    else if KernelPage(old(sz) / UNIT_BYTES) then Killed
                                    else HandedOut(sz / UNIT_BYTES - NUnits(nbytes))
      ensures calls == 1 && res.Given? ==>
                var h, n := Started(old(View())), NUnits(nbytes);
                Good(h) && var e := Enlarged(h, Units(n));
                Good(e) && |e.bl| > 1 && View() == Served(e, |e.bl| - 1, n)
    {
      hide Good, Enlarged, Served, UserOnly;
      var nunits := NUnits(nbytes);
      SizesExactly(nbytes);
      hide NUnits;
      if freep == NULL {
        FirstGood(mem, sz / UNIT_BYTES);
        OneMoreHeader(mem, BASE, Header(BASE, 0));
        mem := mem[BASE := Header(BASE, 0)];
        freep, bl := BASE, [Block(BASE, 0)];
      }
      res, calls, b := Search(nunits);
    }
  }
}
