/** What malloc and morecore do to the memory and to the free list, as lemmas about values. */
module UmallocMalloc {
  import opened Umalloc
  import opened UmallocFree

  // ----- taking a block off the list, or the tail of one -----

  /** Block i, of exactly the right size, leaves the list. */
  function Removed(bl: seq<Block>, i: nat): seq<Block>
    requires i < |bl|
  {
    seq(|bl| - 1, j requires 0 <= j < |bl| - 1 => if j < i then bl[j] else bl[j + 1])
  }

  function Taken(h: Heap, i: nat, prev: nat): Heap
    requires 0 < i < |h.bl| && prev < |h.bl| && h.bl[prev].at in h.mem && h.bl[i].at in h.mem
  {
    var p := h.bl[prev].at;
    Heap(h.mem[p := Header(h.mem[h.bl[i].at].ptr, h.mem[p].size)], p, h.brk, Removed(h.bl, i),
         h.alloc[h.bl[i].at := h.bl[i].size], h.owned)
  }

  function Split(h: Heap, i: nat, prev: nat, n: int): Heap
    requires 0 < i < |h.bl| && prev < |h.bl| && h.bl[i].at in h.mem
  {
    var p := h.bl[i].at;
    var left := h.bl[i].size - n;
    Heap(h.mem[p := Header(h.mem[p].ptr, left)][p + left := Header(NULL, n)], h.bl[prev].at, h.brk,
         h.bl[i := Block(p, left)], h.alloc[p + left := n], h.owned)
  }

  lemma RemovedLinked(mem: map<int, Header>, bl: seq<Block>, i: nat, mem': map<int, Header>)
    requires Ordered(bl) && Linked(mem, bl) && 0 < i < |bl| && bl[i].at in mem && bl[i - 1].at in mem
    requires mem' == mem[bl[i - 1].at := Header(mem[bl[i].at].ptr, mem[bl[i - 1].at].size)]
    ensures Linked(mem', Removed(bl, i))
  {
    var l := Removed(bl, i);
    assert LinkedAt(mem, bl, i) && LinkedAt(mem, bl, i - 1);
    forall j: nat | j < |l|
      ensures LinkedAt(mem', l, j)
    {
      var k := if j < i then j else j + 1;
      assert LinkedAt(mem, bl, k);
      assert k != i - 1 ==> bl[k].at != bl[i - 1].at;
    }
  }

  lemma SplitLinked(mem: map<int, Header>, bl: seq<Block>, i: nat, n: int, mem': map<int, Header>)
    requires Ordered(bl) && Linked(mem, bl) && 0 < i < |bl| && 0 < n < bl[i].size && bl[i].at in mem
    requires mem' ==
        mem[bl[i].at := Header(mem[bl[i].at].ptr, bl[i].size - n)][bl[i].at + bl[i].size - n := Header(NULL, n)]
    ensures Linked(mem', bl[i := Block(bl[i].at, bl[i].size - n)])
  {
    var l := bl[i := Block(bl[i].at, bl[i].size - n)];
    forall j: nat | j < |l|
      ensures LinkedAt(mem', l, j)
    {
      assert LinkedAt(mem, bl, j);
      assert j < i ==> bl[j].at < bl[i].at;
      assert j > i ==> bl[i].at + bl[i].size < bl[j].at;
    }
  }

  lemma SplitOrdered(bl: seq<Block>, i: nat, n: int)
    requires Ordered(bl) && 0 < i < |bl| && 0 < n < bl[i].size
    ensures Ordered(bl[i := Block(bl[i].at, bl[i].size - n)])
  {
  }

  lemma InFreeMeans(bl: seq<Block>, i: nat, u: int)
    requires i < |bl| && Inside(bl[i], u)
    ensures InFree(bl, u)
  {
  }

  lemma InAllocMeans(alloc: map<int, int>, a: int, u: int)
    requires a in alloc && Inside(Block(a, alloc[a]), u)
    ensures InAlloc(alloc, u)
  {
  }

  /** Unit by unit, what was covered stays covered when block i changes hands. */
  lemma TakenUnit(bl: seq<Block>, alloc: map<int, int>, i: nat, u: int)
    requires i < |bl| && bl[i].at !in alloc
    ensures InFree(bl, u) || InAlloc(alloc, u) <==>
              InFree(Removed(bl, i), u) || InAlloc(alloc[bl[i].at := bl[i].size], u)
  {
    var l, alloc', b := Removed(bl, i), alloc[bl[i].at := bl[i].size], bl[i];
    if InFree(bl, u) {
      var j :| 0 <= j < |bl| && Inside(bl[j], u);
      if j == i { InAllocMeans(alloc', b.at, u); } else { InFreeMeans(l, if j < i then j else j - 1, u); }
    }
    if InAlloc(alloc, u) {
      var a :| a in alloc && Inside(Block(a, alloc[a]), u);
      InAllocMeans(alloc', a, u);
    }
    if InFree(l, u) {
      var j :| 0 <= j < |l| && Inside(l[j], u);
      InFreeMeans(bl, if j < i then j else j + 1, u);
    }
    if InAlloc(alloc', u) {
      var a :| a in alloc' && Inside(Block(a, alloc'[a]), u);
      if a == b.at { InFreeMeans(bl, i, u); } else { InAllocMeans(alloc, a, u); }
    }
  }

  lemma SplitUnit(bl: seq<Block>, alloc: map<int, int>, i: nat, left: int, u: int)
    requires i < |bl| && 0 < left < bl[i].size && bl[i].at + left !in alloc
    ensures InFree(bl, u) || InAlloc(alloc, u) <==>
            InFree(bl[i := Block(bl[i].at, left)], u) || InAlloc(alloc[bl[i].at + left := bl[i].size - left], u)
  {
    var l, at := bl[i := Block(bl[i].at, left)], bl[i].at + left;
    var alloc' := alloc[at := bl[i].size - left];
    if InFree(bl, u) {
      var j :| 0 <= j < |bl| && Inside(bl[j], u);
      if j == i && u >= at { InAllocMeans(alloc', at, u); } else { InFreeMeans(l, j, u); }
    }
    if InAlloc(alloc, u) {
      var a :| a in alloc && Inside(Block(a, alloc[a]), u);
      InAllocMeans(alloc', a, u);
    }
    if InFree(l, u) {
      var j :| 0 <= j < |l| && Inside(l[j], u);
      InFreeMeans(bl, j, u);
    }
    if InAlloc(alloc', u) {
      var a :| a in alloc' && Inside(Block(a, alloc'[a]), u);
      if a == at { InFreeMeans(bl, i, u); } else { InAllocMeans(alloc, a, u); }
    }
  }

  lemma TakenConserved(h: Heap, i: nat)
    requires Conserved(h.bl, h.alloc, h.owned) && i < |h.bl| && h.bl[i].at !in h.alloc
    ensures Conserved(Removed(h.bl, i), h.alloc[h.bl[i].at := h.bl[i].size], h.owned)
  {
    forall u
      ensures u in h.owned <==> InFree(Removed(h.bl, i), u) || InAlloc(h.alloc[h.bl[i].at := h.bl[i].size], u)
    {
      TakenUnit(h.bl, h.alloc, i, u);
    }
  }

  lemma SplitConserved(h: Heap, i: nat, left: int)
    requires Conserved(h.bl, h.alloc, h.owned) && i < |h.bl| && 0 < left < h.bl[i].size && h.bl[i].at + left !in h.alloc
    ensures Conserved(h.bl[i := Block(h.bl[i].at, left)], h.alloc[h.bl[i].at + left := h.bl[i].size - left], h.owned)
  {
    var l, alloc' := h.bl[i := Block(h.bl[i].at, left)], h.alloc[h.bl[i].at + left := h.bl[i].size - left];
    forall u
      ensures u in h.owned <==> InFree(l, u) || InAlloc(alloc', u)
    {
      SplitUnit(h.bl, h.alloc, i, left, u);
    }
  }

  /** Nothing allocated overlaps a free block. */
  lemma AwayFrom(h: Heap, a: int, i: nat)
    requires Allocated(h.mem, h.bl, h.alloc, h.brk) && a in h.alloc && i < |h.bl|
    ensures Apart(a, h.alloc[a], h.bl[i].at, h.bl[i].size) && a != h.bl[i].at && h.alloc[a] > 0
  {
  }

  lemma InOrder(bl: seq<Block>, i: nat, j: nat)
    requires Ordered(bl) && i < j < |bl|
    ensures bl[i].at + bl[i].size < bl[j].at && bl[j].size > 0 && bl[i].size >= 0 && BASE < bl[j].at
  {
  }

  predicate CarvedFrom(bl: seq<Block>, i: nat, left: int, k: nat, b: Block)
    requires k < |bl|
  {
    if k == i then 0 < left == b.size else b == bl[k]
  }

  lemma CarvedSizes(h: Heap, alloc': map<int, int>, at: int, n: int, mem': map<int, Header>)
    requires Allocated(h.mem, h.bl, h.alloc, h.brk) && alloc' == h.alloc[at := n] && BASE < at && n > 0
        && at + n <= h.brk
    requires forall a :: a in h.alloc ==> a in mem' && mem'[a].size == h.mem[a].size && Apart(a, h.alloc[a], at, n)
    requires at in mem' && mem'[at].size == n
    ensures forall a :: a in alloc' ==> a in mem' && mem'[a].size == alloc'[a] > 0 && BASE < a && a + alloc'[a] <= h.brk
    ensures forall a, b :: a in alloc' && b in alloc' && a != b ==> Apart(a, alloc'[a], b, alloc'[b])
  {
  }

  lemma AllocatedFrom(mem: map<int, Header>, bl: seq<Block>, alloc: map<int, int>, brk: int)
    requires forall a :: a in alloc ==> a in mem && mem[a].size == alloc[a] > 0 && BASE < a && a + alloc[a] <= brk
    requires forall a, b :: a in alloc && b in alloc && a != b ==> Apart(a, alloc[a], b, alloc[b])
    requires forall a, i :: a in alloc && 0 <= i < |bl| ==> Apart(a, alloc[a], bl[i].at, bl[i].size) && a != bl[i].at
    ensures Allocated(mem, bl, alloc, brk)
  {
  }

  /** A piece of free block i that leaves the list, in front of which `left` units stay (0: the whole block). */
  lemma CarvedAllocated(h: Heap, i: nat, left: int, mem': map<int, Header>, l: seq<Block>)
    requires Ordered(h.bl) && Allocated(h.mem, h.bl, h.alloc, h.brk) && 0 < i < |h.bl| && 0 <= left < h.bl[i].size
    requires h.bl[i].at + h.bl[i].size <= h.brk
    requires forall a :: a in h.alloc ==> a in mem' && mem'[a].size == h.mem[a].size
    requires h.bl[i].at + left in mem' && mem'[h.bl[i].at + left].size == h.bl[i].size - left
    requires forall j :: 0 <= j < |l| ==>
              exists k :: 0 <= k < |h.bl| && l[j].at == h.bl[k].at && CarvedFrom(h.bl, i, left, k, l[j])
    ensures h.bl[i].at + left !in h.alloc
    ensures Allocated(mem', l, h.alloc[h.bl[i].at + left := h.bl[i].size - left], h.brk)
  {
    hide Ordered, Allocated;
    var at, n := h.bl[i].at + left, h.bl[i].size - left;
    var alloc' := h.alloc[at := n];
    InOrder(h.bl, 0, i);
    forall a | a in h.alloc
      ensures Apart(a, h.alloc[a], at, n) && a != at
    {
      AwayFrom(h, a, i);
    }
    forall a, j | a in alloc' && 0 <= j < |l|
      ensures Apart(a, alloc'[a], l[j].at, l[j].size) && a != l[j].at
    {
      var k :| 0 <= k < |h.bl| && l[j].at == h.bl[k].at && CarvedFrom(h.bl, i, left, k, l[j]);
      if a == at {
        if k < i { InOrder(h.bl, k, i); } else if k > i { InOrder(h.bl, i, k); }
      } else {
        AwayFrom(h, a, k);
      }
    }
    CarvedSizes(h, alloc', at, n, mem');
    AllocatedFrom(mem', l, alloc', h.brk);
  }

  lemma RemovedOrdered(bl: seq<Block>, i: nat)
    requires Ordered(bl) && 0 < i < |bl|
    ensures Ordered(Removed(bl, i))
  {
  }

  lemma OldLinkOf(mem: map<int, Header>, bl: seq<Block>, i: nat)
    requires Linked(mem, bl) && i < |bl|
    ensures bl[i].at in mem && mem[bl[i].at] == Header(bl[Succ(i, |bl|)].at, bl[i].size)
  {
    assert LinkedAt(mem, bl, i);
  }

  lemma TakenGood(h: Heap, i: nat)
    requires Good(h) && 0 < i < |h.bl| && h.bl[i].at in h.mem && h.bl[i - 1].at in h.mem
    ensures Good(Taken(h, i, i - 1))
    ensures h.bl[i].at !in h.alloc
  {
    hide Conserved, Linked, Ordered, Allocated;
    var h' := Taken(h, i, i - 1);
    forall a | a in h.alloc
      ensures a != h.bl[i].at && a != h.bl[i - 1].at && a in h.mem
    {
      AwayFrom(h, a, i);
      AwayFrom(h, a, i - 1);
      AllocFits(h, a);
    }
    TakenConserved(h, i);
    RemovedLinked(h.mem, h.bl, i, h'.mem);
    RemovedOrdered(h.bl, i);
    InOrder(h.bl, i - 1, i);
    OldLinkOf(h.mem, h.bl, i);
    forall j | 0 <= j < |h'.bl|
      ensures exists k :: 0 <= k < |h.bl| && h'.bl[j].at == h.bl[k].at && CarvedFrom(h.bl, i, 0, k, h'.bl[j])
    {
      assert CarvedFrom(h.bl, i, 0, if j < i then j else j + 1, h'.bl[j]);
    }
    CarvedAllocated(h, i, 0, h'.mem, h'.bl);
    assert h'.bl[i - 1] == h.bl[i - 1];
  }

  lemma SplitGood(h: Heap, i: nat, prev: nat, n: int)
    requires Good(h) && 0 < i < |h.bl| && prev < |h.bl| && 0 < n < h.bl[i].size && h.bl[i].at in h.mem
    ensures Good(Split(h, i, prev, n))
    ensures h.bl[i].at + h.bl[i].size - n !in h.alloc
  {
    hide Conserved, Linked, Ordered, Allocated;
    var h', left := Split(h, i, prev, n), h.bl[i].size - n;
    forall a | a in h.alloc
      ensures a != h.bl[i].at && a != h.bl[i].at + left && a in h.mem
    {
      AwayFrom(h, a, i);
      AllocFits(h, a);
    }
    SplitConserved(h, i, left);
    SplitOrdered(h.bl, i, n);
    SplitLinked(h.mem, h.bl, i, n, h'.mem);
    forall j | 0 <= j < |h'.bl|
      ensures exists k :: 0 <= k < |h.bl| && h'.bl[j].at == h.bl[k].at && CarvedFrom(h.bl, i, left, k, h'.bl[j])
    {
      assert CarvedFrom(h.bl, i, left, j, h'.bl[j]);
    }
    CarvedAllocated(h, i, left, h'.mem, h'.bl);
    assert h'.bl[prev].at == h.bl[prev].at;
  }

  // ----- growing -----

  function Range(p: int, n: nat): (r: set<int>)
    ensures forall u :: u in r <==> p <= u < p + n
  {
    if n == 0 then {} else Range(p, n - 1) + {p + n - 1}
  }

  /** The region sbrk has just returned, with its size written into its header. */
  function Grown(h: Heap, p: int, nu: nat): Heap {
    Heap(h.mem[p := Header(NULL, nu)], h.freep, p + nu, h.bl, h.alloc[p := nu], h.owned + Range(p, nu))
  }

  lemma GrownUnit(alloc: map<int, int>, p: int, nu: nat, u: int)
    requires p !in alloc
    ensures InAlloc(alloc[p := nu], u) <==> InAlloc(alloc, u) || p <= u < p + nu
  {
    var alloc' := alloc[p := nu];
    if InAlloc(alloc, u) {
      var a :| a in alloc && Inside(Block(a, alloc[a]), u);
      InAllocMeans(alloc', a, u);
    }
    if p <= u < p + nu { InAllocMeans(alloc', p, u); }
    if InAlloc(alloc', u) {
      var a :| a in alloc' && Inside(Block(a, alloc'[a]), u);
      if a != p { InAllocMeans(alloc, a, u); }
    }
  }

  lemma GrownAllocated(h: Heap, p: int, nu: nat)
    requires Good(h) && h.brk <= p && nu > 0
    ensures p !in h.alloc
    ensures Allocated(h.mem[p := Header(NULL, nu)], h.bl, h.alloc[p := nu], p + nu)
  {
  }

  lemma GrownLinked(h: Heap, p: int, nu: nat)
    requires Good(h) && h.brk <= p && nu > 0
    ensures Linked(h.mem[p := Header(NULL, nu)], h.bl)
  {
    var mem', bl := h.mem[p := Header(NULL, nu)], h.bl;
    forall j: nat | j < |bl|
      ensures LinkedAt(mem', bl, j)
    {
      assert LinkedAt(h.mem, bl, j);
      if j > 0 { InOrder(bl, 0, j); }
    }
  }

  lemma GrownGood(h: Heap, p: int, nu: nat)
    requires Good(h) && h.brk <= p && nu > 0
    ensures Good(Grown(h, p, nu)) && p !in h.alloc
  {
    var h' := Grown(h, p, nu);
    GrownAllocated(h, p, nu);
    GrownLinked(h, p, nu);
    hide Linked, Allocated, Ordered;
    forall u
      ensures u in h'.owned <==> InFree(h.bl, u) || InAlloc(h'.alloc, u)
    {
      GrownUnit(h.alloc, p, nu, u);
    }
  }
}
