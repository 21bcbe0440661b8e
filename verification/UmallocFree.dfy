/** What free() does to the memory and to the free list, as lemmas about values. */
module UmallocFree {
  import opened Umalloc

  // ----- linking -----

  function Hooked(mem: map<int, Header>, bl: seq<Block>, t: nat, b: Block): map<int, Header>
    requires t < |bl|
  {
    mem[b.at := Header(bl[Succ(t, |bl|)].at, b.size)][bl[t].at := Header(b.at, bl[t].size)]
  }

  lemma HookedAt(mem: map<int, Header>, bl: seq<Block>, t: nat, b: Block, i: nat)
    requires t < |bl| && i <= |bl| && b.at != bl[t].at && Linked(mem, bl)
    requires i != t ==> With(bl, t, b)[i].at != bl[t].at
    requires i != t + 1 ==> With(bl, t, b)[i].at != b.at
    ensures LinkedAt(Hooked(mem, bl, t, b), With(bl, t, b), i)
  {
    if i < t {
      assert LinkedAt(mem, bl, i);
    } else if i > t + 1 {
      assert LinkedAt(mem, bl, i - 1);
    }
  }

  lemma WithDistinct(bl: seq<Block>, t: nat, b: Block, i: nat, j: nat)
    requires Between(bl, t, b) && i <= |bl| && j <= |bl|
    ensures t < |bl| == |With(bl, t, b)| - 1
    ensures i != j ==> With(bl, t, b)[i].at != With(bl, t, b)[j].at
  {
    WithAt(bl, t, b, 0);
    WithWeak(bl, t, b);
  }

  lemma LinkedEach(mem: map<int, Header>, bl: seq<Block>)
    requires forall i: nat :: i < |bl| ==> LinkedAt(mem, bl, i)
    ensures Linked(mem, bl)
  {
  }

  lemma LinkWith(mem: map<int, Header>, bl: seq<Block>, t: nat, b: Block)
    requires t < |bl| && Between(bl, t, b) && Linked(mem, bl)
    ensures Linked(Hooked(mem, bl, t, b), With(bl, t, b))
  {
    hide Between, Linked, Hooked, With, LinkedAt;
    var l := With(bl, t, b);
    WithDistinct(bl, t, b, t, t + 1);
    WithAt(bl, t, b, t);
    WithAt(bl, t, b, t + 1);
    forall i: nat | i < |l|
      ensures LinkedAt(Hooked(mem, bl, t, b), l, i)
    {
      WithDistinct(bl, t, b, i, t);
      WithDistinct(bl, t, b, i, t + 1);
      HookedAt(mem, bl, t, b, i);
    }
    LinkedEach(Hooked(mem, bl, t, b), l);
  }

  lemma LinkMergeAt(mem: map<int, Header>, bl: seq<Block>, i: nat, j: nat)
    requires Weak(bl) && i + 1 < |bl| && Linked(mem, bl) && j < |bl| - 1
    ensures bl[i + 1].at in mem
        && LinkedAt(mem[bl[i].at := Header(mem[bl[i + 1].at].ptr, bl[i].size + bl[i + 1].size)], Merge(bl, i), j)
  {
    MergeAt(bl, i, j);
    MergeAt(bl, i, Succ(j, |bl| - 1));
    assert LinkedAt(mem, bl, i + 1);
    var k := if j <= i then j else j + 1;
    assert LinkedAt(mem, bl, k);
    assert k != i ==> bl[k].at != bl[i].at;
    hide Linked, Merge, Weak;
  }

  lemma LinkMerge(mem: map<int, Header>, bl: seq<Block>, i: nat)
    requires Weak(bl) && i + 1 < |bl| && Linked(mem, bl)
    ensures bl[i + 1].at in mem
        && Linked(mem[bl[i].at := Header(mem[bl[i + 1].at].ptr, bl[i].size + bl[i + 1].size)], Merge(bl, i))
  {
    assert LinkedAt(mem, bl, i + 1);
    var mem' := mem[bl[i].at := Header(mem[bl[i + 1].at].ptr, bl[i].size + bl[i + 1].size)];
    MergeAt(bl, i, 0);
    forall j: nat | j < |Merge(bl, i)|
      ensures LinkedAt(mem', Merge(bl, i), j)
    {
      LinkMergeAt(mem, bl, i, j);
    }
  }

  /** The memory free() leaves behind. */
  function Relinked(mem: map<int, Header>, bl: seq<Block>, t: nat, b: Block): map<int, Header>
    requires t < |bl|
  {
    var nx := bl[Succ(t, |bl|)];
    var after := if t + 2 == |bl| then BASE else if t + 2 < |bl| then bl[t + 2].at else BASE;
    var hb := if TouchesNext(bl, t, b) then Header(after, b.size + nx.size) else Header(nx.at, b.size);
    mem[b.at := hb][bl[t].at := if TouchesPrev(bl, t, b) then Header(hb.ptr, bl[t].size + hb.size)
        else Header(b.at, bl[t].size)]
  }

  lemma NextPtr(mem: map<int, Header>, bl: seq<Block>, i: nat)
    requires Ordered(bl) && Linked(mem, bl) && i < |bl|
    ensures bl[i].at in mem && mem[bl[i].at].ptr == if i + 1 < |bl| then bl[i + 1].at else BASE
  {
    assert LinkedAt(mem, bl, i);
  }

  lemma RelinkedOk(mem: map<int, Header>, bl: seq<Block>, t: nat, b: Block)
    requires Between(bl, t, b) && Linked(mem, bl)
    ensures Linked(Relinked(mem, bl, t, b), Inserted(bl, t, b))
    ensures Inserted(bl, t, b)[t].at == bl[t].at && t < |Inserted(bl, t, b)|
  {
    hide With, Merge, Linked;
    var l1, next, prev := With(bl, t, b), TouchesNext(bl, t, b), TouchesPrev(bl, t, b);
    var nx := bl[Succ(t, |bl|)];
    var mem1 := Hooked(mem, bl, t, b);
    LinkWith(mem, bl, t, b);
    WithWeak(bl, t, b);
    WithAt(bl, t, b, t);
    WithAt(bl, t, b, t + 1);
    var l2, mem2 := l1, mem1;
    if next {
      WithAt(bl, t, b, t + 2);
      WithTouch(bl, t, b, t + 1);
      var after := if t + 2 < |bl| then bl[t + 2].at else BASE;
      NextPtr(mem, bl, t + 1);
      LinkMerge(mem1, l1, t + 1);
      MergeWeak(l1, t + 1);
      l2, mem2 := Merge(l1, t + 1), mem1[b.at := Header(after, b.size + nx.size)];
      MergeAt(l1, t + 1, t);
      MergeAt(l1, t + 1, t + 1);
    }
    if prev {
      LinkMerge(mem2, l2, t);
      MergeAt(l2, t, t);
      assert l2[t].at != l2[t + 1].at;
      assert Relinked(mem, bl, t, b) == mem2[l2[t].at := Header(mem2[l2[t + 1].at].ptr, l2[t].size + l2[t + 1].size)];
    } else {
      assert l1[t].at != l1[t + 1].at;
      assert Relinked(mem, bl, t, b) == mem2;
    }
  }

  // ----- what free() keeps -----

  lemma OverlapUnit(a: int, n: int, b: int, m: int) returns (u: int)
    requires n > 0 && m > 0 && !Apart(a, n, b, m)
    ensures Inside(Block(a, n), u) && Inside(Block(b, m), u)
  {
    u := if a < b then b else a;
  }

  lemma FreeKeepsApart(bl: seq<Block>, t: nat, b: Block, a: int, n: int, i: nat)
    requires Between(bl, t, b) && i < |Inserted(bl, t, b)| && n > 0 && BASE < a
    requires Apart(a, n, b.at, b.size) && forall j :: 0 <= j < |bl| ==> Apart(a, n, bl[j].at, bl[j].size)
    ensures Apart(a, n, Inserted(bl, t, b)[i].at, Inserted(bl, t, b)[i].size) && a != Inserted(bl, t, b)[i].at
  {
    var bl' := Inserted(bl, t, b);
    InsertedOrdered(bl, t, b);
    if i > 0 && !Apart(a, n, bl'[i].at, bl'[i].size) {
      var u := OverlapUnit(a, n, bl'[i].at, bl'[i].size);
      assert InFree(bl', u);
      InsertedCovers(bl, t, b, u);
    }
  }

  lemma FreeKeepsEnd(bl: seq<Block>, t: nat, b: Block, brk: int, i: nat)
    requires Between(bl, t, b) && i < |Inserted(bl, t, b)| && b.at + b.size <= brk && BASE < brk
    requires forall j :: 0 <= j < |bl| ==> bl[j].at + bl[j].size <= brk
    ensures Inserted(bl, t, b)[i].at + Inserted(bl, t, b)[i].size <= brk
  {
    var bl' := Inserted(bl, t, b);
    InsertedOrdered(bl, t, b);
    if i > 0 {
      var u := bl'[i].at + bl'[i].size - 1;
      assert Inside(bl'[i], u);
      InsertedCovers(bl, t, b, u);
    }
  }

  function Without(alloc: map<int, int>, a: int): map<int, int> {
    map x | x in alloc && x != a :: alloc[x]
  }

  lemma AllocFits(h: Heap, a: int)
    requires Good(h) && a in h.alloc
    ensures BASE < a && h.alloc[a] > 0 && forall i :: 0 <= i < |h.bl| ==> h.bl[i].at != a
    ensures a in h.mem && h.mem[a].size == h.alloc[a]
    ensures Between(h.bl, Position(h.bl, a), Block(a, h.alloc[a]))
  {
    assert forall i :: 0 <= i < |h.bl| ==> Apart(a, h.alloc[a], h.bl[i].at, h.bl[i].size) && h.bl[i].at != a;
  }

  function Freed(h: Heap, t: nat, a: int): Heap
    requires a in h.alloc && t < |h.bl|
  {
    var b := Block(a, h.alloc[a]);
    Heap(Relinked(h.mem, h.bl, t, b), h.bl[t].at, h.brk, Inserted(h.bl, t, b), Without(h.alloc, a), h.owned)
  }

  lemma FreedAllocated(h: Heap, a: int)
    requires Good(h) && a in h.alloc
    ensures var t := (AllocFits(h, a); Position(h.bl, a));
      Allocated(Freed(h, t, a).mem, Freed(h, t, a).bl, Without(h.alloc, a), h.brk)
  {
    AllocFits(h, a);
    var t := Position(h.bl, a);
    var h', b := Freed(h, t, a), Block(a, h.alloc[a]);
    forall x | x in h'.alloc
      ensures x in h'.mem && h'.mem[x].size == h'.alloc[x]
      ensures forall i :: 0 <= i < |h'.bl| ==> Apart(x, h'.alloc[x], h'.bl[i].at, h'.bl[i].size) && x != h'.bl[i].at
    {
      assert x != h.bl[t].at;
      forall i | 0 <= i < |h'.bl|
        ensures Apart(x, h'.alloc[x], h'.bl[i].at, h'.bl[i].size) && x != h'.bl[i].at
      {
        FreeKeepsApart(h.bl, t, b, x, h.alloc[x], i);
      }
    }
  }

  lemma FreedConserved(h: Heap, a: int)
    requires Good(h) && a in h.alloc
    ensures var t := (AllocFits(h, a); Position(h.bl, a));
      Conserved(Freed(h, t, a).bl, Without(h.alloc, a), h.owned)
  {
    AllocFits(h, a);
    var t := Position(h.bl, a);
    var h', b := Freed(h, t, a), Block(a, h.alloc[a]);
    forall u
      ensures u in h.owned <==> InFree(h'.bl, u) || InAlloc(h'.alloc, u)
    {
      InsertedCovers(h.bl, t, b, u);
      if InAlloc(h.alloc, u) {
        var x :| x in h.alloc && Inside(Block(x, h.alloc[x]), u);
        if x != a { assert x in h'.alloc && Inside(Block(x, h'.alloc[x]), u); }
      }
      if InAlloc(h'.alloc, u) {
        var x :| x in h'.alloc && Inside(Block(x, h'.alloc[x]), u);
        assert x in h.alloc && Inside(Block(x, h.alloc[x]), u);
      }
    }
  }

  lemma AllocEnd(h: Heap, a: int)
    requires Good(h) && a in h.alloc
    ensures a + h.alloc[a] <= h.brk
  {
  }

  /** free keeps the allocator's invariant; exactly this block has gone from the allocated ones. */
  lemma FreedGood(h: Heap, a: int)
    requires Good(h) && a in h.alloc
    ensures var t := (AllocFits(h, a); Position(h.bl, a)); Good(Freed(h, t, a))
  {
    AllocFits(h, a);
    hide Allocated, Conserved, Linked, Ordered;
    var t := Position(h.bl, a);
    var b := Block(a, h.alloc[a]);
    FreedAllocated(h, a);
    FreedConserved(h, a);
    InsertedOrdered(h.bl, t, b);
    RelinkedOk(h.mem, h.bl, t, b);
    forall i | 0 <= i < |Inserted(h.bl, t, b)|
      ensures Inserted(h.bl, t, b)[i].at + Inserted(h.bl, t, b)[i].size <= h.brk
    {
      AllocEnd(h, a);
      FreeKeepsEnd(h.bl, t, b, h.brk, i);
    }
  }
}
