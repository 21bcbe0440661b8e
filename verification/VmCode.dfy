/** kalloc, kfree, in_free_table, walkpgdir and mappages as code. */
module VmCode {
  import opened Octets
  import opened VmSpec

  const PHYSTOP: nat := 0xE000   // in pages
  const EXTMEM: nat := 0x100
  const DEVSPACE: nat := 0xFE000

  datatype Outcome = Done | Fail | Panic

  /** One line of kmap: virtual pages first .. first + count map physical pages from pa on. */
  datatype Seg = Seg(first: nat, count: nat, pa: nat, w: bool)

  /** The table kmap; `data` is the page where the kernel's data begins. */
  function Kmap(data: nat): seq<Seg>
    requires USER + EXTMEM < data < USER + PHYSTOP
  {
    [ Seg(USER, EXTMEM, 0, true),
      Seg(USER + EXTMEM, data - USER - EXTMEM, EXTMEM, false),
      Seg(data, USER + PHYSTOP - data, data - USER, true),
      Seg(DEVSPACE, PAGES - DEVSPACE, DEVSPACE, true) ]
  }

  /** The kernel entry of page n after the first k lines of kmap. */
  function KernPte(m: seq<Seg>, k: nat, n: nat): Pte
    requires k <= |m|
  {
    if k == 0 then ZERO_PTE
    else if m[k - 1].first <= n < m[k - 1].first + m[k - 1].count
        then Pte(m[k - 1].pa + n - m[k - 1].first, true, m[k - 1].w, false)
    else KernPte(m, k - 1, n)
  }

  /** The kernel half, page by page: the first pages of memory at KERNBASE, writable except the kernel's own text, the
      devices where they are, and nothing for the user. */
  ghost predicate KernelHalf(s: Vm, d: nat, data: nat)
    requires 0x8_0100 < data < 0x8_e000
  {
    forall n: nat ::
      PteAt(s, d, n) ==
        if 0x8_0000 <= n < 0x8_0100 then Pte(n - 0x8_0000, true, true, false)
        else if 0x8_0100 <= n < data then Pte(n - 0x8_0000, true, false, false)
        else if data <= n < 0x8_e000 then Pte(n - 0x8_0000, true, true, false)
        else if 0xf_e000 <= n < 0x10_0000 then Pte(n, true, true, false)
        else Pte(0, false, false, false)
  }

  function Up(a: nat): nat {
    (a + PGSIZE - 1) / PGSIZE
  }

  /** The frames that k user pages from page n on own when they are mapped to pa, pa + 1, ... */
  function UserFrames(n: nat, k: nat, pa: nat): (r: set<nat>)
    ensures forall f: nat :: f in r <==> pa <= f < pa + k && n + f - pa < USER
    ensures USER <= n || k == 0 ==> r == {}
    ensures n < USER && k == 1 ==> r == {pa}
  {
    if k == 0 then {} else UserFrames(n, k - 1, pa) + if n + k - 1 < USER then {pa + k - 1} else {}
  }

  lemma UserFramesNext(n: nat, k: nat, pa: nat)
    ensures UserFrames(n, k + 1, pa) == UserFrames(n, k, pa) + UserFrames(n + k, 1, pa + k)
    ensures pa + k !in UserFrames(n, k, pa)
  {
  }

  /** The byte of frame f at the offset of address a. */
  function FrameByte(s: Vm, f: nat, a: nat): byte {
    if f in s.mem && s.mem[f].Page? then s.mem[f].b[a % PGSIZE] else 0
  }

  /** `k` pages from page n of d on are mapped to frames pa, pa + 1, ...; user pages take their frames over. */
  ghost predicate Mapped(s: Vm, s': Vm, d: nat, n: nat, k: nat, pa: nat, w: bool, u: bool) {
    && s'.dirs == s.dirs && s'.mem.Keys == s.mem.Keys && s'.held == s.held - UserFrames(n, k, pa)
    && (forall d': nat, m: nat ::
          PteAt(s', d', m) == if d' == d && n <= m < n + k then Pte(pa + m - n, true, w, u) else PteAt(s, d', m))
    && forall d': nat, a: nat :: a < USER * PGSIZE ==>
         ByteAt(s', d', a) == if d' == d && n <= a / PGSIZE < n + k then FrameByte(s, pa + a / PGSIZE - n, a)
                              else ByteAt(s, d', a)
  }

  /** The user pages lo .. hi of d are gone. */
  ghost predicate Dropped(s: Vm, s': Vm, d: nat, lo: nat, hi: nat) {
    && s'.dirs == s.dirs && s'.mem.Keys == s.mem.Keys && s'.held == s.held
    && (forall d': nat, m: nat :: PteAt(s', d', m) == if d' == d && lo <= m < hi then ZERO_PTE else PteAt(s, d', m))
    && forall d': nat, a: nat :: a < USER * PGSIZE ==>
         ByteAt(s', d', a) == if d' == d && lo <= a / PGSIZE < hi then 0 else ByteAt(s, d', a)
  }

  /** The frames of the machine before any of them is used. */
  function Boot(first: nat, end: nat): (m: map<nat, Frame>)
    requires first <= end
    ensures forall f: nat :: f in m <==> first <= f < end
    ensures forall f :: f in m ==> m[f] == ZeroPage()
    decreases end - first
  {
    if first == end then map[] else Boot(first + 1, end)[first := ZeroPage()]
  }

  lemma BootInv(s: Vm, first: nat)
    requires 0 < first <= PHYSTOP && s == Vm(Boot(first, PHYSTOP), [], {}, Boot(first, PHYSTOP).Keys)
    ensures Inv(s)
  {
    assert forall q :: Ref(s, q) == 0;
  }

  lemma AlikeSelf(s: Vm)
    ensures Alike(s, s) && RefsKept(s, s) && forall d :: OthersKept(s, s, d)
  {
  }

  lemma HeldInMem(s: Vm)
    requires Inv(s)
    ensures s.held <= s.mem.Keys && 0 !in s.mem
  {
  }

  /** A present directory entry names a live table. */
  lemma PresentTable(s: Vm, d: nat, i: nat)
    requires Inv(s) && d in s.dirs && Entry(s, d, i).p
    ensures TableOf(s, d, i) == Entry(s, d, i).addr != 0 && TableOf(s, d, i) in s.mem && s.mem[TableOf(s, d, i)].Table?
  {
    TabIsTable(s, d, i);
  }

  lemma EntryAbsent(s: Vm, d: nat, i: nat)
    requires d in s.dirs && !Entry(s, d, i).p
    ensures TableOf(s, d, i) == 0
  {
  }

  lemma AbsentIsZero(s: Vm, d: nat, n: nat)
    requires Inv(s) && !PteAt(s, d, n).p
    ensures PteAt(s, d, n) == ZERO_PTE
  {
  }

  lemma MappedPage(s: Vm, s': Vm, d: nat, n: nat, pa: nat, w: bool, u: bool)
    requires n < USER && pa in s.mem && s.mem[pa].Page? && s'.held == s.held - {pa}
    requires PageSet(s, s', d, n, Pte(pa, true, w, u), s.mem[pa].b)
    ensures Mapped(s, s', d, n, 1, pa, w, u)
  {
    hide PteAt, ByteAt;
  }

  lemma MappedKernel(s: Vm, s': Vm, d: nat, n: nat, pa: nat, w: bool, u: bool)
    requires USER <= n && s'.dirs == s.dirs && s'.held == s.held && s'.mem.Keys == s.mem.Keys && SameBytes(s, s')
    requires forall d': nat, m: nat ::
               PteAt(s', d', m) == if d' == d && m == n then Pte(pa, true, w, u) else PteAt(s, d', m)
    ensures Mapped(s, s', d, n, 1, pa, w, u)
  {
    hide PteAt, ByteAt;
  }

  /** The entry behind the last one that k pages from page n on need. */
  function EndTable(n: nat, k: nat): (e: nat)
    ensures e >= n / ENTRIES
  {
    if k == 0 then n / ENTRIES else (n + k - 1) / ENTRIES + 1
  }

  /** How mappages ends after k of count pages. */
  ghost predicate Ended(s: Vm, s': Vm, d: nat, n: nat, count: nat, res: Outcome, k: nat) {
    match res
    case Done => k == count
    case Fail => k < count && s'.free == [] && |s.free| < Missing(s, d, n / ENTRIES, EndTable(n, count))
    case Panic => k < count && PteAt(s, d, n + k).p
  }

  /** What holds in the loop of mappages: k pages are mapped, and the tables before entry e are there. */
  ghost predicate Mapping(s: Vm, s': Vm, d: nat, n: nat, k: nat, e: nat, pa: nat, w: bool, u: bool) {
    && Mapped(s, s', d, n, k, pa, w, u) && OthersKept(s, s', d)
    && (forall f :: f in s'.held ==> f in s'.mem && f in s.mem && s'.mem[f] == s.mem[f])
    && (forall m: nat :: n <= m < n + k ==> !PteAt(s, d, m).p)
    && TabsKept(s, s', d, n / ENTRIES, e)
    && (forall i: nat :: n / ENTRIES <= i < e ==> TableOf(s', d, i) != 0)
    && |s'.free| + Missing(s, d, n / ENTRIES, e) == |s.free|
  }

  lemma MappedNone(s: Vm, d: nat, n: nat, pa: nat, w: bool, u: bool)
    ensures Mapped(s, s, d, n, 0, pa, w, u)
  {
  }

  lemma MissingNone(s: Vm, d: nat, lo: nat)
    ensures Missing(s, d, lo, lo) == 0
  {
  }

  lemma MappingNone(s: Vm, d: nat, n: nat, pa: nat, w: bool, u: bool)
    requires Inv(s)
    ensures Mapping(s, s, d, n, 0, EndTable(n, 0), pa, w, u)
  {
    HeldInMem(s);
    AlikeSelf(s);
    MappedNone(s, d, n, pa, w, u);
    MissingNone(s, d, n / ENTRIES);
  }

  lemma MappingParts(s: Vm, s': Vm, d: nat, n: nat, k: nat, e: nat, pa: nat, w: bool, u: bool)
    requires Mapping(s, s', d, n, k, e, pa, w, u)
    ensures s'.dirs == s.dirs && s'.held == s.held - UserFrames(n, k, pa) && OthersKept(s, s', d)
    ensures Mapped(s, s', d, n, k, pa, w, u)
    ensures forall f :: f in s'.held ==> f in s'.mem && f in s.mem && s'.mem[f] == s.mem[f]
    ensures forall m: nat :: n <= m < n + k ==> !PteAt(s, d, m).p
    ensures TabsKept(s, s', d, n / ENTRIES, e) && forall i: nat :: n / ENTRIES <= i < e ==> TableOf(s', d, i) != 0
    ensures |s'.free| + Missing(s, d, n / ENTRIES, e) == |s.free|
  {
    hide PteAt, ByteAt, OthersKept, TabsKept, TableOf, Missing, UserFrames;
  }

  lemma EndTableNext(n: nat, k: nat)
    ensures EndTable(n, k + 1) == (n + k) / ENTRIES + 1
    ensures EndTable(n, k) == EndTable(n, k + 1) || EndTable(n, k) == (n + k) / ENTRIES
  {
  }

  lemma MissingNext(s: Vm, s1: Vm, d: nat, n: nat, k: nat)
    requires TabsKept(s, s1, d, n / ENTRIES, EndTable(n, k))
    requires forall i: nat :: n / ENTRIES <= i < EndTable(n, k) ==> TableOf(s1, d, i) != 0
    ensures Missing(s, d, n / ENTRIES, EndTable(n, k + 1)) == Missing(s, d, n / ENTRIES, EndTable(n, k))
              + if TableOf(s1, d, (n + k) / ENTRIES) == 0 then 1 else 0
  {
    hide TableOf;
    EndTableNext(n, k);
  }

  lemma EndTableUpTo(n: nat, k: nat, m: nat)
    requires k <= m
    ensures EndTable(n, k) <= EndTable(n, m)
  {
  }

  lemma MappedWalk(s: Vm, s1: Vm, s2: Vm, d: nat, n: nat, k: nat, pa: nat, w: bool, u: bool)
    requires Mapped(s, s1, d, n, k, pa, w, u) && Alike(s1, s2) && s2.held == s1.held
    ensures Mapped(s, s2, d, n, k, pa, w, u)
  {
    hide PteAt, ByteAt;
  }

  lemma MappingWalked(s: Vm, s1: Vm, s2: Vm, d: nat, n: nat, k: nat, pa: nat, w: bool, u: bool)
    requires Mapping(s, s1, d, n, k, EndTable(n, k), pa, w, u) && Alike(s1, s2) && OthersKept(s1, s2, d)
    requires s2.held == s1.held && forall f :: f in s1.held ==> f in s2.mem && f in s1.mem && s2.mem[f] == s1.mem[f]
    requires TabsKept(s1, s2, d, (n + k) / ENTRIES, (n + k) / ENTRIES + 1) && TableOf(s2, d, (n + k) / ENTRIES) != 0
    requires |s1.free| == |s2.free| + if TableOf(s1, d, (n + k) / ENTRIES) == 0 then 1 else 0
    ensures Mapping(s, s2, d, n, k, EndTable(n, k + 1), pa, w, u)
  {
    hide Mapped, Alike, PteAt, TableOf, OthersKept;
    EndTableNext(n, k);
    MissingNext(s, s1, d, n, k);
    MappedWalk(s, s1, s2, d, n, k, pa, w, u);
    OthersKeptTwice(s, s1, s2, d);
  }

  lemma EntryIsPte(s: Vm, d: nat, n: nat)
    requires var t := TableOf(s, d, n / ENTRIES); t in s.mem && s.mem[t].Table?
    ensures s.mem[TableOf(s, d, n / ENTRIES)].e[n % ENTRIES] == PteAt(s, d, n)
  {
  }

  lemma MappedBefore(s: Vm, s1: Vm, d: nat, n: nat, k: nat, pa: nat, w: bool, u: bool)
    requires Mapped(s, s1, d, n, k, pa, w, u)
    ensures PteAt(s1, d, n + k) == PteAt(s, d, n + k)
  {
    hide PteAt, ByteAt;
  }

  lemma UserFramesIn(n: nat, k: nat, count: nat, pa: nat)
    requires k < count
    ensures n + k < USER ==> pa + k in UserFrames(n, count, pa) && pa + k !in UserFrames(n, k, pa)
  {
  }

  lemma MappedParts(s: Vm, s': Vm, d: nat, n: nat, k: nat, pa: nat, w: bool, u: bool)
    requires Mapped(s, s', d, n, k, pa, w, u)
    ensures s'.dirs == s.dirs && s'.mem.Keys == s.mem.Keys && s'.held == s.held - UserFrames(n, k, pa)
  {
  }

  lemma MappedNext(s: Vm, s1: Vm, s2: Vm, d: nat, n: nat, k: nat, pa: nat, w: bool, u: bool)
    requires Mapped(s, s1, d, n, k, pa, w, u) && Mapped(s1, s2, d, n + k, 1, pa + k, w, u)
    requires n + k < USER ==> pa + k in s.mem && pa + k in s1.mem && s1.mem[pa + k] == s.mem[pa + k]
    ensures Mapped(s, s2, d, n, k + 1, pa, w, u)
  {
    UserFramesNext(n, k, pa);
    hide PteAt, ByteAt, UserFrames;
    forall d': nat, a: nat | a < USER * PGSIZE
      ensures ByteAt(s2, d', a) == if d' == d && n <= a / PGSIZE < n + k + 1 then FrameByte(s, pa + a / PGSIZE - n, a)
                                   else ByteAt(s, d', a)
    {
      if a / PGSIZE == n + k { assert FrameByte(s1, pa + k, a) == FrameByte(s, pa + k, a); }
    }
  }

  lemma MappingSet(s: Vm, s1: Vm, s2: Vm, d: nat, n: nat, k: nat, pa: nat, w: bool, u: bool)
    requires Mapping(s, s1, d, n, k, EndTable(n, k + 1), pa, w, u) && Mapped(s1, s2, d, n + k, 1, pa + k, w, u)
    requires OthersKept(s1, s2, d) && s2.free == s1.free && !PteAt(s, d, n + k).p
    requires forall f :: f in s2.held ==> f in s2.mem && f in s1.mem && s2.mem[f] == s1.mem[f]
    requires n + k < USER ==> pa + k in s1.held
    requires forall i: nat :: TableOf(s2, d, i) == TableOf(s1, d, i)
    ensures Mapping(s, s2, d, n, k + 1, EndTable(n, k + 1), pa, w, u)
  {
    hide Mapped, PteAt, TableOf, OthersKept, UserFrames, Missing;
    MappedParts(s1, s2, d, n + k, 1, pa + k, w, u);
    MappedNext(s, s1, s2, d, n, k, pa, w, u);
    OthersKeptTwice(s, s1, s2, d);
  }

  class Kernel {
    const first: nat   // the first page behind the kernel
    const data: nat
    var mem: map<nat, Frame>
    var free: seq<nat>
    ghost var dirs: set<nat>
    ghost var held: set<nat>

    ghost function V(): Vm
      reads this
    {
      Vm(mem, free, dirs, held)
    }

    ghost predicate Ok()
      reads this
    {
      Inv(V()) && (forall f :: f in mem ==> first <= f < PHYSTOP) && USER + EXTMEM < data < USER + PHYSTOP
    }

    /** kfree: junk into the frame, and the frame in front of the list.  The precondition is what it panics
        without. */
    method PutFree(f: nat)
      requires first <= f < PHYSTOP
      modifies this`mem, this`free
      ensures mem == old(mem)[f := Junk()] && free == [f] + old(free)
    {
      mem := mem[f := Junk()];
      free := [f] + free;
    }

    /** kfree of a frame in the caller's hands. */
    method Kfree(f: nat)
      requires Ok() && f in held && first <= f < PHYSTOP
      modifies this`mem, this`free, this`held
      ensures Ok() && Alike(old(V()), V()) && RefsKept(old(V()), V())
      ensures free == [f] + old(free) && held == old(held) - {f}
      ensures f in mem && mem[f].Page? && forall k: nat :: k < PGSIZE ==> mem[f].b[k] == 1
      ensures forall g :: g in mem && g != f ==> mem[g] == old(mem)[g]
    {
      PutFree(f);
      held := held - {f};
      GiveAlike(old(V()), f, V());
    }

    /** kinit: every page from `first` to PHYSTOP goes through kfree. */
    constructor (first: nat, data: nat)
      requires 0 < first <= PHYSTOP && USER + EXTMEM < data < USER + PHYSTOP
      ensures Ok() && dirs == {} && held == {} && this.data == data
      ensures forall f: nat :: f in free <==> first <= f < PHYSTOP
    {
      this.first, this.data := first, data;
      mem, free := Boot(first, PHYSTOP), [];
      dirs, held := {}, Boot(first, PHYSTOP).Keys;
      new;
      BootInv(V(), first);
      for p := first to PHYSTOP
        invariant Ok() && dirs == {} && mem.Keys == Boot(first, PHYSTOP).Keys
        invariant (forall f: nat :: f in held <==> p <= f < PHYSTOP) && forall f: nat :: f in free <==> first <= f < p
      {
        hide Inv, Alike, RefsKept;
        Kfree(p);
      }
    }

    /** 0 when there is no frame. */
    method Kalloc() returns (f: nat)
      requires Ok()
      modifies this`free, this`held
      ensures Ok() && Alike(old(V()), V()) && RefsKept(old(V()), V())
      ensures old(free) == [] ==> f == 0 && V() == old(V())
      ensures old(free) != [] ==>
                f != 0 && f == old(free[0]) && f !in old(held) && f in mem && free == old(free[1..])
                    && held == old(held) + {f}
    {
      if free == [] { return 0; }
      f := free[0];
      free := free[1..];
      held := held + {f};
      TakeAlike(old(V()), V());
    }

    /** memset or memmove into a frame in the caller's hands. */
    method FillFrame(f: nat, x: Frame)
      requires Ok() && f in held && (x.Table? ==> x == ZeroTable())
      modifies this`mem
      ensures Ok() && Alike(old(V()), V()) && RefsKept(old(V()), V()) && mem == old(mem)[f := x]
    {
      mem := mem[f := x];
      FillAlike(old(V()), f, x, V());
    }

    method InFreeTable(f: nat) returns (found: bool)
      ensures found <==> f in free
    {
      var k := 0;
      while k < |free|
        invariant k <= |free| && f !in free[..k]
      {
        if free[k] == f { return true; }
        k := k + 1;
      }
      return false;
    }

    /** The page table that covers page n; 0 when there is none and none is made. */
    method Walkpgdir(d: nat, n: nat, alloc: bool) returns (t: nat)
      requires Ok() && d in dirs && n < PAGES
      modifies this
      ensures Ok() && Alike(old(V()), V()) && OthersKept(old(V()), V(), d) && held == old(held)
      ensures t == TableOf(V(), d, n / ENTRIES) && (t != 0 ==> t in mem && mem[t].Table?)
      ensures !alloc || old(TableOf(V(), d, n / ENTRIES)) != 0 ==> V() == old(V())
      ensures alloc && t == 0 ==> free == [] && V() == old(V())
      ensures alloc && old(TableOf(V(), d, n / ENTRIES)) == 0 && old(free) == [] ==> t == 0
      ensures alloc && old(TableOf(V(), d, n / ENTRIES)) == 0 && old(free) != [] ==> t != 0 && free == old(free[1..])
      ensures TabsKept(old(V()), V(), d, n / ENTRIES, n / ENTRIES + 1)
      ensures forall f :: f in old(held) ==> f in mem && f in old(mem) && mem[f] == old(mem[f])
    {
      hide Inv, Alike, PteAt, ByteAt, OthersKept, RefsKept, Ref;
      DirIsTable(V(), d);
      ghost var s := V();
      AlikeSelf(s);
      HeldInMem(s);
      var i := n / ENTRIES;
      if mem[d].e[i].p {
        t := mem[d].e[i].addr;
        PresentTable(s, d, i);
      } else {
        if !alloc { return 0; }
        t := Kalloc();
        if t == 0 { return 0; }
        ghost var s0 := V();
        FillFrame(t, ZeroTable());
        ghost var s1 := V();
        AlikeTwice(s, s0, s1);
        RefsKeptOthers(s, s0, d);
        RefsKeptOthers(s0, s1, d);
        OthersKeptTwice(s, s0, s1, d);
        EntryAbsent(s, d, i);
        DirIsTable(s1, d);
        mem := mem[d := Table(mem[d].e[i := Pte(t, true, true, true)])];
        held := held - {t};
        HangTableAlike(s1, d, i, t, V());
        AlikeTwice(s, s1, V());
        OthersKeptTwice(s, s1, V(), d);
        HeldInMem(V());
      }
    }

    /** The store *pte = ... of mappages, into the table t that covers page n. */
    method SetEntryAt(d: nat, n: nat, t: nat, x: Pte)
      requires Ok() && t == TableOf(V(), d, n / ENTRIES) != 0 && t in mem && mem[t].Table?
      requires !PteAt(V(), d, n).p && x.p && (n < USER ==> x.addr in held && x.addr in mem && mem[x.addr].Page?)
      modifies this`mem, this`held
      ensures Ok() && Mapped(old(V()), V(), d, n, 1, x.addr, x.w, x.u) && OthersKept(old(V()), V(), d)
      ensures (forall i: nat :: TableOf(V(), d, i) == old(TableOf(V(), d, i))) && free == old(free)
      ensures forall f :: f in held ==> f in mem && f in old(mem) && mem[f] == old(mem)[f]
    {
      hide Inv, Mapped, PteAt, ByteAt, OthersKept, RefsKept, Ref;
      ghost var s := V();
      AbsentIsZero(s, d, n);
      HeldInMem(s);
      TabIsTable(s, d, n / ENTRIES);
      mem := mem[t := Table(mem[t].e[n % ENTRIES := x])];
      if n < USER {
        held := held - {x.addr};
        HangPage(s, d, n, x, V());
        MappedPage(s, V(), d, n, x.addr, x.w, x.u);
      } else {
        MapKernelPage(s, d, n, x, V());
        RefsKeptOthers(s, V(), d);
        MappedKernel(s, V(), d, n, x.addr, x.w, x.u);
      }
    }

    /** `k` pages are mapped when it ends: all of them, or as many as the frames for tables allowed, or all up to
        one that was mapped already.  Every table that was missing takes one frame.  The frames of user pages
        come from the caller's hands. */
    method Mappages(d: nat, n: nat, count: nat, pa: nat, w: bool, u: bool) returns (res: Outcome, ghost k: nat)
      requires Ok() && d in dirs && 0 < count && n + count <= PAGES
      requires forall f :: f in UserFrames(n, count, pa) ==> f in held && f in mem && mem[f].Page?
      modifies this
      ensures Ok() && Ended(old(V()), V(), d, n, count, res, k)
      ensures Mapping(old(V()), V(), d, n, k, EndTable(n, if res == Panic then k + 1 else k), pa, w, u)
    {
      hide Inv, Alike, Mapped, PteAt, ByteAt, OthersKept, RefsKept, Ref, TableOf, Missing, UserFrames, Mapping,
        TabsKept, EndTable;
      ghost var s := V();
      MappingNone(s, d, n, pa, w, u);
      var a, p, last := n, pa, n + count - 1;
      k := 0;
      while true
        invariant Ok() && d in dirs && k < count && a == n + k && p == pa + k
        invariant Mapping(s, V(), d, n, k, EndTable(n, k), pa, w, u)
        decreases count - k
      {
        ghost var s1 := V();
        MappingParts(s, s1, d, n, k, EndTable(n, k), pa, w, u);
        var t := Walkpgdir(d, a, true);
        MissingNext(s, s1, d, n, k);
        if t == 0 {
          EndTableUpTo(n, k + 1, count);
          MissingUpTo(s, d, n / ENTRIES, EndTable(n, k + 1), EndTable(n, count));
          return Fail, k;
        }
        ghost var s2 := V();
        MappingWalked(s, s1, s2, d, n, k, pa, w, u);
        MappingParts(s, s2, d, n, k, EndTable(n, k + 1), pa, w, u);
        EntryIsPte(s2, d, a);
        MappedBefore(s, s2, d, n, k, pa, w, u);
        if mem[t].e[a % ENTRIES].p { return Panic, k; }
        UserFramesIn(n, k, count, pa);
        SetEntryAt(d, a, t, Pte(p, true, w, u));
        MappingSet(s, s2, V(), d, n, k, pa, w, u);
        k := k + 1;
        if a == last { return Done, k; }
        a := a + 1;
        p := p + 1;
      }
    }
  }

  lemma TabsKeptMore(s: Vm, s': Vm, d: nat, lo: nat, mid: nat, hi: nat)
    requires TabsKept(s, s', d, lo, mid) && mid <= hi
    ensures TabsKept(s, s', d, lo, hi)
  {
  }

  lemma MappingEnds(s: Vm, s': Vm, d: nat, n: nat, count: nat, res: Outcome, k: nat, pa: nat, w: bool, u: bool)
    requires Ended(s, s', d, n, count, res, k) && count > 0
    requires Mapping(s, s', d, n, k, EndTable(n, if res == Panic then k + 1 else k), pa, w, u)
    ensures Mapped(s, s', d, n, k, pa, w, u) && OthersKept(s, s', d) && k <= count
    ensures res == Done ==> k == count && forall m: nat :: n <= m < n + count ==> !PteAt(s, d, m).p
    ensures res == Fail ==> k < count && |s.free| < Missing(s, d, n / ENTRIES, EndTable(n, count))
    ensures res == Panic ==> k < count && PteAt(s, d, n + k).p
    ensures res != Panic ==> |s'.free| + Missing(s, d, n / ENTRIES, EndTable(n, k)) == |s.free|
    ensures TabsKept(s, s', d, n / ENTRIES, EndTable(n, count))
    ensures forall i: nat :: n / ENTRIES <= i < EndTable(n, k) ==> TableOf(s', d, i) != 0
    ensures forall f :: f in s'.held ==> f in s'.mem && f in s.mem && s'.mem[f] == s.mem[f]
  {
    hide PteAt, ByteAt, OthersKept, TabsKept, TableOf, Missing, UserFrames, Mapped, EndTable;
    EndTableUpTo(n, k, if res == Panic then k + 1 else k);
    EndTableUpTo(n, if res == Panic then k + 1 else k, count);
    TabsKeptMore(s, s', d, n / ENTRIES, EndTable(n, if res == Panic then k + 1 else k), EndTable(n, count));
  }
}
