/** The Kernighan-Ritchie allocator of umalloc.c.  Addresses count in units of one Header. */
module Umalloc {
  /** s.ptr and s.size of a header. */
  datatype Header = Header(ptr: int, size: int)

  /** A run of units starting with its header. */
  datatype Block = Block(at: int, size: int)

  const NULL: int := 0
  const BASE: int := 1  // &base: static data, below everything sbrk returns
  const MIN_UNITS: int := 4096

  // ----- the free list: circular, address-ordered, coalesced -----

  function Succ(i: nat, n: nat): nat {
    if i + 1 == n then 0 else i + 1
  }

  ghost predicate Ordered(bl: seq<Block>) {
    && |bl| > 0 && bl[0] == Block(BASE, 0)
    && (forall i :: 0 < i < |bl| ==> bl[i].size > 0)
    && (forall i, j :: 0 <= i < j < |bl| ==> bl[i].at + bl[i].size < bl[j].at)
  }

  predicate LinkedAt(mem: map<int, Header>, bl: seq<Block>, i: nat) {
    i < |bl| && bl[i].at in mem && mem[bl[i].at] == Header(bl[Succ(i, |bl|)].at, bl[i].size)
  }

  ghost predicate Linked(mem: map<int, Header>, bl: seq<Block>) {
    forall i: nat :: i < |bl| ==> LinkedAt(mem, bl, i)
  }

  predicate Apart(a: int, n: int, b: int, m: int) {
    a + n <= b || b + m <= a
  }

  /** Blocks handed out: their sizes are intact and they overlap neither each other nor a free block. */
  ghost predicate Allocated(mem: map<int, Header>, bl: seq<Block>, alloc: map<int, int>, brk: int) {
    && (forall a :: a in alloc ==> a in mem && mem[a].size == alloc[a] > 0 && BASE < a && a + alloc[a] <= brk)
    && (forall a, b :: a in alloc && b in alloc && a != b ==> Apart(a, alloc[a], b, alloc[b]))
    && (forall a, i :: a in alloc && 0 <= i < |bl| ==> Apart(a, alloc[a], bl[i].at, bl[i].size) && a != bl[i].at)
  }

  predicate Inside(b: Block, u: int) {
    b.at <= u < b.at + b.size
  }

  ghost predicate InFree(bl: seq<Block>, u: int) {
    exists i :: 0 <= i < |bl| && Inside(bl[i], u)
  }

  ghost predicate InAlloc(alloc: map<int, int>, u: int) {
    exists a :: a in alloc && Inside(Block(a, alloc[a]), u)
  }

  /** Conservation: the units obtained from sbrk are exactly those in free or allocated blocks. */
  ghost predicate Conserved(bl: seq<Block>, alloc: map<int, int>, owned: set<int>) {
    forall u :: u in owned <==> InFree(bl, u) || InAlloc(alloc, u)
  }

  datatype Heap = Heap(mem: map<int, Header>, freep: int, brk: int,
                       bl: seq<Block>, alloc: map<int, int>, owned: set<int>)

  ghost predicate Good(h: Heap) {
    && Ordered(h.bl) && Linked(h.mem, h.bl) && Allocated(h.mem, h.bl, h.alloc, h.brk)
        && Conserved(h.bl, h.alloc, h.owned)
    && (exists i :: 0 <= i < |h.bl| && h.bl[i].at == h.freep)
    && (forall i :: 0 <= i < |h.bl| ==> h.bl[i].at + h.bl[i].size <= h.brk)
    && BASE < h.brk
  }

  // ----- where a block belongs -----

  ghost function PositionFrom(bl: seq<Block>, at: int, i: nat): (t: nat)
    requires Ordered(bl) && BASE < at && i < |bl| && forall i :: 0 <= i < |bl| ==> bl[i].at != at
    requires forall j :: i < j < |bl| ==> at < bl[j].at
    ensures t < |bl| && bl[t].at < at
    ensures forall j :: 0 <= j <= t ==> bl[j].at < at
    ensures forall j :: t < j < |bl| ==> at < bl[j].at
  {
    if bl[i].at < at then i else PositionFrom(bl, at, i - 1)
  }

  /** The last free block below `at`. */
  ghost function Position(bl: seq<Block>, at: int): (t: nat)
    requires Ordered(bl) && BASE < at && forall i :: 0 <= i < |bl| ==> bl[i].at != at
    ensures t < |bl| && bl[t].at < at && (t + 1 < |bl| ==> at < bl[t + 1].at)
    ensures forall i :: 0 <= i <= t ==> bl[i].at < at
    ensures forall i :: t < i < |bl| ==> at < bl[i].at
  {
    PositionFrom(bl, at, |bl| - 1)
  }

  // ----- the four ways free() can change the list -----

  function With(bl: seq<Block>, t: nat, b: Block): seq<Block>
    requires t < |bl|
  {
    seq(|bl| + 1, i requires 0 <= i <= |bl| => if i <= t then bl[i] else if i == t + 1 then b else bl[i - 1])
  }

  /** Blocks i and i+1, which touch, become one. */
  function Merge(bl: seq<Block>, i: nat): seq<Block>
    requires i + 1 < |bl|
  {
    seq(|bl| - 1, j requires 0 <= j < |bl| - 1 =>
      if j < i then bl[j] else if j == i then Block(bl[i].at, bl[i].size + bl[i + 1].size) else bl[j + 1])
  }

  predicate TouchesNext(bl: seq<Block>, t: nat, b: Block) {
    t + 1 < |bl| && b.at + b.size == bl[t + 1].at
  }

  predicate TouchesPrev(bl: seq<Block>, t: nat, b: Block)
    requires t < |bl|
  {
    bl[t].at + bl[t].size == b.at
  }

  /** The new block after bl[t], merged with the next one, then with the previous one, where they touch. */
  function Inserted(bl: seq<Block>, t: nat, b: Block): seq<Block>
    requires t < |bl|
  {
    var l1 := With(bl, t, b);
    var l2 := if TouchesNext(bl, t, b) then Merge(l1, t + 1) else l1;
    if TouchesPrev(bl, t, b) then Merge(l2, t) else l2
  }

  /** b fits between bl[t] and its successor. */
  ghost predicate Between(bl: seq<Block>, t: nat, b: Block) {
    && Ordered(bl) && t < |bl| && b.size > 0 && BASE < b.at
    && bl[t].at + bl[t].size <= b.at && (t + 1 < |bl| ==> b.at + b.size <= bl[t + 1].at)
  }

  /** In order, but neighbours may touch. */
  ghost predicate Weak(bl: seq<Block>) {
    && |bl| > 0 && bl[0] == Block(BASE, 0)
    && (forall i :: 0 < i < |bl| ==> bl[i].size > 0)
    && (forall i, j :: 0 <= i < j < |bl| ==> bl[i].at + bl[i].size <= bl[j].at && bl[i].at < bl[j].at)
  }

  predicate Touch(bl: seq<Block>, i: nat) {
    i + 1 < |bl| && bl[i].at + bl[i].size == bl[i + 1].at
  }

  lemma StrictIsOrdered(bl: seq<Block>)
    requires Weak(bl) && forall i: nat :: !Touch(bl, i)
    ensures Ordered(bl)
  {
    forall i, j | 0 <= i < j < |bl|
      ensures bl[i].at + bl[i].size < bl[j].at
    {
      assert !Touch(bl, i);
    }
  }

  lemma WithAt(bl: seq<Block>, t: nat, b: Block, i: nat)
    requires t < |bl| && i <= |bl|
    ensures |With(bl, t, b)| == |bl| + 1
    ensures With(bl, t, b)[i] == if i <= t then bl[i] else if i == t + 1 then b else bl[i - 1]
  {
  }

  lemma WithWeak(bl: seq<Block>, t: nat, b: Block)
    requires Between(bl, t, b)
    ensures Weak(With(bl, t, b))
  {
    var l := With(bl, t, b);
    WithAt(bl, t, b, 0);
    hide With;
    forall i | 0 < i < |l|
      ensures l[i].size > 0
    {
      WithAt(bl, t, b, i);
    }
    forall i, j | 0 <= i < j < |l|
      ensures l[i].at + l[i].size <= l[j].at && l[i].at < l[j].at
    {
      WithAt(bl, t, b, i);
      WithAt(bl, t, b, j);
    }
  }

  lemma WithTouch(bl: seq<Block>, t: nat, b: Block, i: nat)
    requires Between(bl, t, b)
    ensures Touch(With(bl, t, b), i) <==> (i == t && TouchesPrev(bl, t, b)) || (i == t + 1 && TouchesNext(bl, t, b))
  {
    WithAt(bl, t, b, 0);
    if i < |bl| {
      WithAt(bl, t, b, i);
      WithAt(bl, t, b, i + 1);
    }
  }

  lemma MergeAt(bl: seq<Block>, i: nat, j: nat)
    requires i + 1 < |bl| && j < |bl| - 1
    ensures |Merge(bl, i)| == |bl| - 1
    ensures Merge(bl, i)[j] == if j < i then bl[j] else if j == i then Block(bl[i].at, bl[i].size + bl[i + 1].size)
              else bl[j + 1]
  {
  }

  lemma MergeWeak(bl: seq<Block>, i: nat)
    requires Weak(bl) && Touch(bl, i) && i > 0
    ensures Weak(Merge(bl, i))
  {
    var l := Merge(bl, i);
    MergeAt(bl, i, 0);
    hide Merge;
    forall j | 0 < j < |l|
      ensures l[j].size > 0
    {
      MergeAt(bl, i, j);
    }
    forall j, k | 0 <= j < k < |l|
      ensures l[j].at + l[j].size <= l[k].at && l[j].at < l[k].at
    {
      MergeAt(bl, i, j);
      MergeAt(bl, i, k);
    }
  }

  lemma MergeTouch(bl: seq<Block>, i: nat, j: nat)
    requires Weak(bl) && Touch(bl, i) && i > 0
    ensures Touch(Merge(bl, i), j) <==> Touch(bl, if j < i then j else j + 1)
  {
    MergeAt(bl, i, 0);
    if j < |bl| - 2 {
      MergeAt(bl, i, j);
      MergeAt(bl, i, j + 1);
    }
  }

  lemma InsertedOrdered(bl: seq<Block>, t: nat, b: Block)
    requires Between(bl, t, b)
    ensures Ordered(Inserted(bl, t, b))
  {
    hide With, Merge, Touch;
    var l1, next, prev := With(bl, t, b), TouchesNext(bl, t, b), TouchesPrev(bl, t, b);
    WithAt(bl, t, b, 0);
    WithWeak(bl, t, b);
    WithTouch(bl, t, b, t);
    WithTouch(bl, t, b, t + 1);
    var l2 := if next then Merge(l1, t + 1) else l1;
    if next { MergeWeak(l1, t + 1); MergeTouch(l1, t + 1, t); }
    if prev { MergeWeak(l2, t); }
    forall i: nat
      ensures !Touch(Inserted(bl, t, b), i)
    {
      var j := if prev && i >= t then i + 1 else i;
      if prev { MergeTouch(l2, t, i); }
      if next { MergeTouch(l1, t + 1, j); }
      WithTouch(bl, t, b, if next && j >= t + 1 then j + 1 else j);
    }
    StrictIsOrdered(Inserted(bl, t, b));
  }

  lemma WithCovers(bl: seq<Block>, t: nat, b: Block, u: int)
    requires t < |bl|
    ensures InFree(With(bl, t, b), u) <==> InFree(bl, u) || Inside(b, u)
  {
    var l := With(bl, t, b);
    if InFree(bl, u) {
      var i :| 0 <= i < |bl| && Inside(bl[i], u);
      assert l[if i <= t then i else i + 1] == bl[i];
    }
    if Inside(b, u) { assert l[t + 1] == b; }
    if InFree(l, u) {
      var j :| 0 <= j < |l| && Inside(l[j], u);
      if j != t + 1 { assert l[j] == bl[if j <= t then j else j - 1]; }
    }
  }

  lemma MergeCovers(bl: seq<Block>, i: nat, u: int)
    requires Touch(bl, i) && bl[i].size >= 0 && bl[i + 1].size >= 0
    ensures InFree(Merge(bl, i), u) <==> InFree(bl, u)
  {
    var l := Merge(bl, i);
    if InFree(bl, u) {
      var j :| 0 <= j < |bl| && Inside(bl[j], u);
      var k := if j <= i then j else j - 1;
      assert j == i || j == i + 1 || l[k] == bl[j];
      assert Inside(l[k], u);
    }
    if InFree(l, u) {
      var k :| 0 <= k < |l| && Inside(l[k], u);
      if k == i {
        assert Inside(bl[i], u) || Inside(bl[i + 1], u);
      } else {
        assert l[k] == bl[if k < i then k else k + 1];
      }
    }
  }

  lemma InsertedCovers(bl: seq<Block>, t: nat, b: Block, u: int)
    requires Between(bl, t, b)
    ensures InFree(Inserted(bl, t, b), u) <==> InFree(bl, u) || Inside(b, u)
  {
    hide With, Merge, Weak;
    var l1, next, prev := With(bl, t, b), TouchesNext(bl, t, b), TouchesPrev(bl, t, b);
    WithCovers(bl, t, b, u);
    WithTouch(bl, t, b, t);
    WithTouch(bl, t, b, t + 1);
    WithAt(bl, t, b, t);
    WithAt(bl, t, b, t + 1);
    if next {
      WithAt(bl, t, b, t + 2);
      WithWeak(bl, t, b);
      MergeTouch(l1, t + 1, t);
      MergeAt(l1, t + 1, t);
      MergeAt(l1, t + 1, t + 1);
      MergeCovers(l1, t + 1, u);
    }
    if prev {
      MergeCovers(if next then Merge(l1, t + 1) else l1, t, u);
    }
  }
}
