/** allocuvm and copyuvm of vm.c. */
module VmGrow {
  import opened Octets
  import opened VmSpec
  import opened VmCode
  import opened VmSpace

  // ----- allocuvm -----

  /** The pages lo .. hi of d were absent and are now present, writable, for the user, and zero. */
  ghost predicate Grown(s: Vm, s': Vm, d: nat, lo: nat, hi: nat) {
    && s'.dirs == s.dirs && s'.held == s.held && s'.mem.Keys == s.mem.Keys && SameBytes(s, s')
    && (forall m: nat :: lo <= m < hi ==>
          !PteAt(s, d, m).p && PteAt(s', d, m).p && PteAt(s', d, m).w
          && PteAt(s', d, m).u)
    && forall d': nat, m: nat :: !(d' == d && lo <= m < hi) ==> PteAt(s', d', m) == PteAt(s, d', m)
  }

  lemma GrownNone(s: Vm, d: nat, lo: nat)
    ensures Grown(s, s, d, lo, lo)
  {
  }

  lemma GrownParts(s: Vm, s': Vm, d: nat, lo: nat, n: nat)
    requires Grown(s, s', d, lo, n)
    ensures s'.dirs == s.dirs && s'.held == s.held && PteAt(s', d, n) == PteAt(s, d, n)
  {
    hide PteAt, ByteAt;
  }

  lemma GrownNext(s: Vm, s1: Vm, s2: Vm, s3: Vm, d: nat, lo: nat, n: nat, f: nat)
    requires Grown(s, s1, d, lo, n) && lo <= n < USER && Alike(s1, s2) && s2.held == s1.held + {f} && f !in s1.held
    requires f in s2.mem && s2.mem[f] == ZeroPage() && !PteAt(s2, d, n).p && Mapped(s2, s3, d, n, 1, f, true, true)
    ensures Grown(s, s3, d, lo, n + 1)
  {
    forall a: nat | a / PGSIZE == n
      ensures ByteAt(s2, d, a) == 0
    {
    }
    hide PteAt, ByteAt;
  }

  /** Growing part of the way and dropping the whole range again. */
  lemma GrownDropped(s: Vm, s1: Vm, s2: Vm, s3: Vm, s4: Vm, d: nat, lo: nat, n: nat, hi: nat)
    requires Grown(s, s1, d, lo, n) && lo <= n <= hi && Alike(s1, s2) && Dropped(s2, s3, d, lo, hi) && Alike(s3, s4)
        && s4.held == s.held
    ensures Dropped(s, s4, d, lo, hi)
  {
    hide PteAt, ByteAt;
  }

  lemma MappedAlike(s: Vm, s': Vm, d: nat, n: nat, pa: nat, w: bool, u: bool)
    requires Mapped(s, s', d, n, 0, pa, w, u)
    ensures Alike(s, s') && s'.held == s.held
  {
    hide PteAt, ByteAt;
  }

  lemma AlikePte(s: Vm, s': Vm, d: nat, n: nat)
    requires Alike(s, s')
    ensures PteAt(s', d, n) == PteAt(s, d, n) && s'.dirs == s.dirs
  {
    hide PteAt, ByteAt;
  }

  /** For a single page, the tables that are missing are at most the one that covers it. */
  lemma OneTable(s: Vm, d: nat, n: nat)
    ensures Missing(s, d, n / ENTRIES, n / ENTRIES) == 0 && EndTable(n, 0) == n / ENTRIES
    ensures Missing(s, d, n / ENTRIES, n / ENTRIES + 1) == if TableOf(s, d, n / ENTRIES) == 0 then 1 else 0
    ensures EndTable(n, 1) == n / ENTRIES + 1
  {
  }

  /** One turn of the loop of allocuvm: kalloc, memset, mappages; on failure the whole range is dropped. */
  method AllocPage(kern: Kernel, ghost s: Vm, d: nat, ghost lo: nat, a: nat, ghost hi: nat, oldsz: nat, newsz: nat)
    returns (res: Outcome)
    requires kern.Ok() && d in kern.dirs && lo == Up(oldsz) && hi == Up(newsz) && lo <= a < hi <= USER
        && oldsz < newsz <= USER * PGSIZE
    requires Grown(s, kern.V(), d, lo, a) && OthersKept(s, kern.V(), d) && s.held == kern.held && s.dirs == kern.dirs
    modifies kern
    ensures kern.Ok() && OthersKept(s, kern.V(), d) && kern.dirs == old(kern.dirs)
    ensures res == Done ==> Grown(s, kern.V(), d, lo, a + 1) && |kern.free| + 2 >= |old(kern.free)|
    ensures res == Fail ==> Dropped(s, kern.V(), d, lo, hi) && |old(kern.free)| < 2
    ensures res == Panic ==> PteAt(s, d, a).p
  {
    hide Inv, Mapping, Missing, TableOf, EndTable, PteAt, ByteAt, OthersKept, RefsKept, Ref, Mapped, Alike, Dropped,
      Grown, Up;
    ghost var s1 := kern.V();
    AlikeSelf(s1);
    GrownParts(s, s1, d, lo, a);
    var f := kern.Kalloc();
    ghost var s2 := kern.V();
    RefsAll(s1, s2);
    OthersKeptTwice(s, s1, s2, d);
    if f == 0 {
      var r := Deallocuvm(kern, d, newsz, oldsz);
      OthersKeptTwice(s, s2, kern.V(), d);
      AlikeSelf(kern.V());
      DroppedParts(s2, kern.V(), d, lo, hi);
      GrownDropped(s, s1, s2, kern.V(), kern.V(), d, lo, a, hi);
      return Fail;
    }
    kern.FillFrame(f, ZeroPage());
    ghost var s3 := kern.V();
    AlikeTwice(s1, s2, s3);
    RefsAll(s2, s3);
    OthersKeptTwice(s, s2, s3, d);
    AlikePte(s1, s3, d, a);
    OneTable(s3, d, a);
    ghost var k: nat;
    res, k := kern.Mappages(d, a, 1, f, true, true);
    ghost var s4 := kern.V();
    MappingEnds(s3, s4, d, a, 1, res, k, f, true, true);
    OthersKeptTwice(s, s3, s4, d);
    MappedParts(s3, s4, d, a, k, f, true, true);
    if res == Fail {
      MappedAlike(s3, s4, d, a, f, true, true);
      AlikeTwice(s1, s3, s4);
      var r := Deallocuvm(kern, d, newsz, oldsz);
      ghost var s5 := kern.V();
      OthersKeptTwice(s, s4, s5, d);
      DroppedParts(s4, s5, d, lo, hi);
      HeldInMem(s5);
      kern.Kfree(f);
      RefsAll(s5, kern.V());
      OthersKeptTwice(s, s5, kern.V(), d);
      AlikeParts(s5, kern.V());
      GrownDropped(s, s1, s4, s5, kern.V(), d, lo, a, hi);
      return Fail;
    }
    if res == Panic { return Panic; }
    GrownNext(s, s1, s3, s4, d, lo, a, f);
  }

  /** r is the new size, or 0 when there are too few frames: then every page of the range is absent again. */
  method Allocuvm(kern: Kernel, d: nat, oldsz: nat, newsz: nat) returns (res: Outcome, r: nat)
    requires kern.Ok() && d in kern.dirs
    modifies kern
    ensures newsz >= USER * PGSIZE ==> res == Fail && r == 0 && kern.V() == old(kern.V())
    ensures newsz < USER * PGSIZE && newsz < oldsz ==> res == Done && r == oldsz && kern.V() == old(kern.V())
    ensures oldsz <= newsz < USER * PGSIZE && res == Done ==>
              r == newsz && Grown(old(kern.V()), kern.V(), d, Up(oldsz), Up(newsz))
    ensures oldsz <= newsz < USER * PGSIZE && res == Fail ==>
              r == 0 && Dropped(old(kern.V()), kern.V(), d, Up(oldsz), Up(newsz))
                  && |old(kern.free)| < 2 * (Up(newsz) - Up(oldsz))
    ensures res == Panic ==> exists m: nat :: Up(oldsz) <= m < Up(newsz) && old(PteAt(kern.V(), d, m).p)
    ensures kern.Ok() && OthersKept(old(kern.V()), kern.V(), d)
  {
    hide Inv, PteAt, ByteAt, OthersKept, RefsKept, Ref, Mapped, Alike, Dropped, Grown, Up;
    ghost var s := kern.V();
    AlikeSelf(s);
    if newsz >= USER * PGSIZE { return Fail, 0; }
    if newsz < oldsz { return Done, oldsz; }
    UpBounds(oldsz, newsz);
    var a := Up(oldsz);
    GrownNone(s, d, a);
    while a * PGSIZE < newsz
      invariant kern.Ok() && d in kern.dirs && Up(oldsz) <= a && (a <= Up(newsz))
      invariant Grown(s, kern.V(), d, Up(oldsz), a) && OthersKept(s, kern.V(), d)
      invariant |kern.free| + 2 * (a - Up(oldsz)) >= |s.free|
    {
      UpMeans(a, newsz);
      UpMeans(a, oldsz);
      GrownParts(s, kern.V(), d, Up(oldsz), a);
      var made;
      made := AllocPage(kern, s, d, Up(oldsz), a, Up(newsz), oldsz, newsz);
      if made == Panic { return Panic, 0; }
      if made == Fail { return Fail, 0; }
      a := a + 1;
    }
    UpMeans(a, newsz);
    r, res := newsz, Done;
  }

  /** A failed allocuvm leaves the mappings and the bytes exactly as they were, if and only if no page of the
      range was mapped when it was called. */
  lemma RestoredExactly(s: Vm, s': Vm, d: nat, lo: nat, hi: nat)
    requires Inv(s) && Dropped(s, s', d, lo, hi)
    ensures Alike(s, s') <==> forall m: nat :: lo <= m < hi ==> !PteAt(s, d, m).p
  {
    if forall m: nat :: lo <= m < hi ==> !PteAt(s, d, m).p {
      forall a: nat | a < USER * PGSIZE && lo <= a / PGSIZE < hi
        ensures ByteAt(s, d, a) == 0
      {
        assert !PteAt(s, d, a / PGSIZE).p;
      }
      forall m: nat | lo <= m < hi
        ensures PteAt(s, d, m) == ZERO_PTE
      {
        AbsentIsZero(s, d, m);
      }
    } else {
      var m: nat :| lo <= m < hi && PteAt(s, d, m).p;
      assert PteAt(s', d, m) == ZERO_PTE;
    }
    hide PteAt, ByteAt;
  }

  // ----- copyuvm -----

  predicate SameFlags(x: Pte, y: Pte) {
    x.p == y.p && x.w == y.w && x.u == y.u
  }

  /** c is a copy of the pages of d below `hi`: the same pages are present with the same flags and the same
      bytes, in frames of their own; every other space is as before. */
  ghost predicate Copied(s: Vm, s': Vm, d: nat, c: nat, m: seq<Seg>, hi: nat)
    requires |m| == 4
  {
    && c != 0 && c !in s.dirs && s'.dirs == s.dirs + {c} && s'.held == s.held && s'.mem.Keys == s.mem.Keys
    && (forall d': nat, n: nat :: d' != c ==> PteAt(s', d', n) == PteAt(s, d', n))
    && (forall n: nat :: n < hi ==> SameFlags(PteAt(s', c, n), PteAt(s, d, n)))
    && (forall n: nat :: hi <= n ==> PteAt(s', c, n) == KernPte(m, 4, n))
    && (forall d': nat, a: nat :: a < USER * PGSIZE && d' != c ==> ByteAt(s', d', a) == ByteAt(s, d', a))
    && forall a: nat :: a < USER * PGSIZE ==> ByteAt(s', c, a) == if a / PGSIZE < hi then ByteAt(s, d, a) else 0
  }

  lemma CopiedStart(s: Vm, s1: Vm, d: nat, c: nat, m: seq<Seg>)
    requires Inv(s) && |m| == 4 && NewDir(s, s1, c, m, 4)
    ensures Copied(s, s1, d, c, m, 0)
  {
    forall a: nat | a < USER * PGSIZE
      ensures ByteAt(s, c, a) == 0
    {
      assert TableOf(s, c, a / PGSIZE / ENTRIES) == 0;
    }
    hide PteAt, ByteAt;
  }

  /** A page that the parent has not touched yet is left to the child's page faults. */
  lemma CopiedSkip(s: Vm, s1: Vm, d: nat, c: nat, m: seq<Seg>, n: nat)
    requires |m| == 4 && Copied(s, s1, d, c, m, n) && d != c && PteAt(s1, d, n) == ZERO_PTE
        && KernPte(m, 4, n) == ZERO_PTE
    ensures Copied(s, s1, d, c, m, n + 1)
  {
    forall a: nat | a / PGSIZE == n
      ensures ByteAt(s1, d, a) == 0
    {
    }
    hide PteAt, ByteAt;
  }

  lemma PageByte(s: Vm, d: nat, n: nat, a: nat)
    requires Inv(s) && n < USER && PteAt(s, d, n).p && a / PGSIZE == n
    ensures PteAt(s, d, n).addr in s.mem && s.mem[PteAt(s, d, n).addr].Page?
    ensures ByteAt(s, d, a) == s.mem[PteAt(s, d, n).addr].b[a % PGSIZE]
  {
    UserPage(s, d, n);
  }

  lemma CopiedEntries(s: Vm, s1: Vm, s2: Vm, s3: Vm, d: nat, c: nat, m: seq<Seg>, n: nat, f: nat, e: Pte)
    requires |m| == 4 && Copied(s, s1, d, c, m, n) && d != c && n < USER && e == PteAt(s1, d, n) && e.p
    requires Alike(s1, s2) && Mapped(s2, s3, c, n, 1, f, e.w, e.u)
    ensures forall k: nat :: k < n + 1 ==> SameFlags(PteAt(s3, c, k), PteAt(s, d, k))
    ensures forall k: nat :: n + 1 <= k ==> PteAt(s3, c, k) == KernPte(m, 4, k)
    ensures forall d': nat, k: nat :: d' != c ==> PteAt(s3, d', k) == PteAt(s, d', k)
  {
    hide PteAt, ByteAt, KernPte;
  }

  lemma CopiedBytes(s: Vm, s1: Vm, s2: Vm, s3: Vm, d: nat, c: nat, m: seq<Seg>, n: nat, f: nat, e: Pte)
    requires |m| == 4 && Copied(s, s1, d, c, m, n) && d != c && n < USER && f in s2.mem && s2.mem[f].Page?
    requires forall a: nat :: a / PGSIZE == n ==> ByteAt(s1, d, a) == s2.mem[f].b[a % PGSIZE]
    requires Alike(s1, s2) && Mapped(s2, s3, c, n, 1, f, e.w, e.u)
    ensures forall d': nat, a: nat :: a < USER * PGSIZE && d' != c ==> ByteAt(s3, d', a) == ByteAt(s, d', a)
    ensures forall a: nat :: a < USER * PGSIZE ==> ByteAt(s3, c, a) == if a / PGSIZE < n + 1 then ByteAt(s, d, a) else 0
  {
    hide PteAt, ByteAt, KernPte;
    forall a: nat | a < USER * PGSIZE
      ensures ByteAt(s3, c, a) == if a / PGSIZE < n + 1 then ByteAt(s, d, a) else 0
    {
      assert ByteAt(s1, d, a) == ByteAt(s, d, a);
    }
  }

  lemma CopiedNext(s: Vm, s1: Vm, s2: Vm, s3: Vm, d: nat, c: nat, m: seq<Seg>, n: nat, f: nat, e: Pte)
    requires |m| == 4 && Copied(s, s1, d, c, m, n) && d != c && n < USER && Inv(s1) && e == PteAt(s1, d, n) && e.p
    requires Alike(s1, s2) && s2.held == s1.held + {f} && f !in s1.held && f in s2.mem && s2.mem[f].Page?
    requires e.addr in s1.mem && s2.mem[f] == s1.mem[e.addr]
    requires Mapped(s2, s3, c, n, 1, f, e.w, e.u)
    ensures Copied(s, s3, d, c, m, n + 1)
  {
    hide PteAt, ByteAt, Inv;
    forall a: nat | a / PGSIZE == n
      ensures ByteAt(s1, d, a) == s2.mem[f].b[a % PGSIZE]
    {
      PageByte(s1, d, n, a);
    }
    CopiedEntries(s, s1, s2, s3, d, c, m, n, f, e);
    CopiedBytes(s, s1, s2, s3, d, c, m, n, f, e);
  }

  lemma CopiedParts(s: Vm, s': Vm, d: nat, c: nat, m: seq<Seg>, hi: nat)
    requires |m| == 4 && Copied(s, s', d, c, m, hi)
    ensures c != 0 && c !in s.dirs && s'.dirs == s.dirs + {c} && s'.held == s.held && s'.mem.Keys == s.mem.Keys
    ensures PteAt(s', c, hi) == KernPte(m, 4, hi) && (d != c ==> PteAt(s', d, hi) == PteAt(s, d, hi))
  {
    hide PteAt, ByteAt;
  }

  /** Freeing the unfinished copy leaves everything as it was. */
  lemma CopiedGone(s: Vm, s1: Vm, s2: Vm, s3: Vm, d: nat, c: nat, m: seq<Seg>, hi: nat)
    requires Inv(s) && |m| == 4 && Copied(s, s1, d, c, m, hi) && Alike(s1, s2) && s2.held == s.held && Gone(s2, s3, c)
    ensures Alike(s, s3) && s3.held == s.held
  {
    forall n: nat
      ensures PteAt(s, c, n) == ZERO_PTE
    {
      assert TableOf(s, c, n / ENTRIES) == 0;
    }
    forall a: nat | a < USER * PGSIZE
      ensures ByteAt(s, c, a) == 0
    {
      assert PteAt(s, c, a / PGSIZE) == ZERO_PTE;
    }
    hide PteAt, ByteAt;
  }

  lemma UserNotKernel(data: nat, n: nat)
    requires USER + EXTMEM < data < USER + PHYSTOP && n < USER
    ensures |Kmap(data)| == 4 && KernPte(Kmap(data), 4, n) == ZERO_PTE
  {
    var m := Kmap(data);
    assert KernPte(m, 4, n) == KernPte(m, 3, n) == KernPte(m, 2, n) == KernPte(m, 1, n) == KernPte(m, 0, n);
  }

  lemma TableKept(s: Vm, s': Vm, d: nat, c: nat, i: nat)
    requires OthersKept(s, s', c) && d != c
    ensures TableOf(s', d, i) == TableOf(s, d, i)
  {
    assert Tab(d, i).d != c;
    assert Ref(s', Tab(d, i)) == Ref(s, Tab(d, i));
  }

  /** The next page of the parent, and what it costs the child. */
  lemma BelowNext(s: Vm, d: nat, n: nat)
    ensures !PteAt(s, d, n).p ==> PagesBelow(s, d, n + 1) == PagesBelow(s, d, n)
    ensures PteAt(s, d, n).p ==>
              PagesBelow(s, d, n + 1) == PagesBelow(s, d, n) + {n}
              && Regions(PagesBelow(s, d, n + 1)) == Regions(PagesBelow(s, d, n)) + {n / ENTRIES}
              && Cost(PagesBelow(s, d, n + 1))
                 == Cost(PagesBelow(s, d, n)) + 1 + if n / ENTRIES in Regions(PagesBelow(s, d, n)) then 0 else 1
  {
    hide PteAt, Regions, Cost;
    if PteAt(s, d, n).p {
      assert PagesBelow(s, d, n + 1) == PagesBelow(s, d, n) + {n};
      CostNext(PagesBelow(s, d, n), n);
      RegionsNext(PagesBelow(s, d, n), n);
    } else {
      assert PagesBelow(s, d, n + 1) == PagesBelow(s, d, n);
    }
  }

  lemma BelowCost(s: Vm, d: nat, n: nat, m: nat)
    requires n <= m
    ensures Cost(PagesBelow(s, d, n)) <= Cost(PagesBelow(s, d, m))
  {
    hide PteAt;
    CostGrows(PagesBelow(s, d, n), PagesBelow(s, d, m));
  }

  lemma TabsNext(s: Vm, s': Vm, c: nat, i: nat)
    requires TabsKept(s, s', c, i, i + 1) && TableOf(s', c, i) != 0 && i < USER / ENTRIES
    ensures TabsOf(s', c) == TabsOf(s, c) + {i} && (i in TabsOf(s, c) <==> TableOf(s, c, i) != 0)
  {
    hide TableOf;
  }

  lemma NoTabs(s: Vm, s': Vm, c: nat, m: seq<Seg>, d: nat)
    requires |m| == 4 && NewDir(s, s', c, m, 4)
    ensures TabsOf(s', c) == {} && PagesBelow(s, d, 0) == {} && Regions({}) == {} && Cost({}) == 0
  {
    hide TableOf, PteAt;
    assert Regions({}) == {};
  }

  lemma GoneAsBefore(s: Vm, s1: Vm, s2: Vm, c: nat)
    requires Inv(s) && Inv(s2) && c !in s.dirs && OthersKept(s, s1, c) && OthersKept(s1, s2, c) && Gone(s1, s2, c)
    requires Alike(s, s2) && s2.held == s.held
    ensures RefsKept(s, s2) && multiset(s2.free) == multiset(s.free)
  {
    OthersKeptTwice(s, s1, s2, c);
    HeldInMem(s);
    HeldInMem(s2);
    AllKept(s, s2, c);
    SameFree(s, s2);
  }

  lemma RefsTables(s: Vm, s1: Vm, s2: Vm, d: nat)
    requires RefsKept(s, s1) && RefsKept(s1, s2)
    ensures forall i: nat :: TableOf(s2, d, i) == TableOf(s, d, i)
  {
    RefsKeptOthers(s, s1, d);
    RefsKeptOthers(s1, s2, d);
  }

  /** One turn of the loop of copyuvm: a frame, its bytes and its mapping; on failure the copy is freed. */
  method CopyPage(kern: Kernel, ghost s: Vm, d: nat, c: nat, n: nat, e: Pte) returns (res: Outcome)
    requires kern.Ok() && Inv(s) && d in s.dirs && n < USER && e == PteAt(kern.V(), d, n) && e.p
        && |Kmap(kern.data)| == 4
    requires Copied(s, kern.V(), d, c, Kmap(kern.data), n) && OthersKept(s, kern.V(), c)
    modifies kern
    ensures kern.Ok() && res != Panic
    ensures res == Done ==> Copied(s, kern.V(), d, c, Kmap(kern.data), n + 1) && OthersKept(s, kern.V(), c)
    ensures var i := n / ENTRIES; var need := if old(TableOf(kern.V(), c, i)) == 0 then 2 else 1;
      && (res == Done ==> |kern.free| + need == |old(kern.free)|)
      && (res == Done ==> TabsKept(old(kern.V()), kern.V(), c, i, i + 1) && TableOf(kern.V(), c, i) != 0)
      && (res == Fail ==> |old(kern.free)| < need)
    ensures res == Fail ==> Alike(s, kern.V()) && kern.held == s.held && RefsKept(s, kern.V())
                            && multiset(kern.free) == multiset(s.free)
  {
    hide Inv, Mapping, Missing, EndTable, PteAt, ByteAt, OthersKept, RefsKept, Ref, Mapped, Alike, Copied, Gone,
      Kmap, KernPte, TableOf;
    ghost var s1, m := kern.V(), Kmap(kern.data);
    CopiedParts(s, s1, d, c, m, n);
    UserNotKernel(kern.data, n);
    UserPage(s1, d, n);
    AlikeSelf(s1);
    OneTable(s1, c, n);
    var f := kern.Kalloc();
    ghost var s2 := kern.V();
    RefsAll(s1, s2);
    OthersKeptTwice(s, s1, s2, c);
    if f == 0 {
      Freevm(kern, c);
      CopiedGone(s, s1, s2, kern.V(), d, c, m, n);
      GoneAsBefore(s, s2, kern.V(), c);
      return Fail;
    }
    kern.FillFrame(f, kern.mem[e.addr]);
    ghost var s3 := kern.V();
    AlikeTwice(s1, s2, s3);
    AlikeParts(s1, s3);
    AlikePte(s1, s3, c, n);
    RefsAll(s2, s3);
    OthersKeptTwice(s, s2, s3, c);
    RefsTables(s1, s2, s3, c);
    OneTable(s3, c, n);
    ghost var k: nat;
    res, k := kern.Mappages(c, n, 1, f, e.w, e.u);
    ghost var s4 := kern.V();
    MappingEnds(s3, s4, c, n, 1, res, k, f, e.w, e.u);
    OthersKeptTwice(s, s3, s4, c);
    if res == Fail {
      MappedAlike(s3, s4, c, n, f, e.w, e.u);
      AlikeTwice(s1, s3, s4);
      HeldInMem(s4);
      kern.Kfree(f);
      ghost var s5 := kern.V();
      AlikeTwice(s1, s4, s5);
      AlikeParts(s1, s5);
      RefsAll(s4, s5);
      OthersKeptTwice(s, s4, s5, c);
      Freevm(kern, c);
      CopiedGone(s, s1, s5, kern.V(), d, c, m, n);
      GoneAsBefore(s, s5, kern.V(), c);
      return Fail;
    }
    CopiedNext(s, s1, s3, s4, d, c, m, n, f, e);
  }

  lemma TabsHave(s: Vm, c: nat, i: nat)
    requires i < USER / ENTRIES
    ensures i in TabsOf(s, c) <==> TableOf(s, c, i) != 0
  {
  }

  /** Done with the child's directory; Fail when frames run out; Panic when a page below sz has no page table.
      The child takes a frame for its directory, 64 for the kernel tables, one for each page of the parent and
      one for each region with a page.  The panic for an entry that is neither zero nor present is never
      reached. */
  method Copyuvm(kern: Kernel, d: nat, sz: nat) returns (res: Outcome, c: nat)
    requires kern.Ok() && d in kern.dirs && sz <= USER * PGSIZE
    modifies kern
    ensures res != Panic ==> kern.Ok()
    ensures |Kmap(kern.data)| == 4
    ensures res == Done ==>
              Copied(old(kern.V()), kern.V(), d, c, Kmap(kern.data), Up(sz)) && OthersKept(old(kern.V()), kern.V(), c)
    ensures res == Done ==> forall n: nat :: n < Up(sz) ==> old(TableOf(kern.V(), d, n / ENTRIES)) != 0
    ensures res == Done ==> TabsOf(kern.V(), c) == Regions(PagesBelow(old(kern.V()), d, Up(sz)))
    ensures res == Done ==> |kern.free| + KVM_FRAMES + Cost(PagesBelow(old(kern.V()), d, Up(sz))) == |old(kern.free)|
    ensures res == Panic ==> exists n: nat :: n < Up(sz) && old(TableOf(kern.V(), d, n / ENTRIES)) == 0
    ensures res == Fail ==> Alike(old(kern.V()), kern.V()) && kern.held == old(kern.held)
                            && RefsKept(old(kern.V()), kern.V()) && multiset(kern.free) == multiset(old(kern.free))
    ensures res == Fail ==> |old(kern.free)| < KVM_FRAMES + Cost(PagesBelow(old(kern.V()), d, Up(sz)))
  {
    hide Inv, PteAt, ByteAt, OthersKept, RefsKept, Ref, Mapped, Alike, Copied, Kmap, KernPte, NewDir, TableOf, Up,
      TabsOf, PagesBelow, Cost, Regions;
    ghost var s, m := kern.V(), Kmap(kern.data);
    UserNotKernel(kern.data, 0);
    UpBounds(0, sz);
    c := Setupkvm(kern);
    if c == 0 { return Fail, 0; }
    NewDirParts(s, kern.V(), c, m, 4);
    CopiedStart(s, kern.V(), d, c, m);
    NoTabs(s, kern.V(), c, m, d);
    var n := 0;
    while n * PGSIZE < sz
      invariant n <= Up(sz) && kern.Ok() && Copied(s, kern.V(), d, c, m, n) && OthersKept(s, kern.V(), c)
      invariant |kern.free| + KVM_FRAMES + Cost(PagesBelow(s, d, n)) == |s.free|
      invariant TabsOf(kern.V(), c) == Regions(PagesBelow(s, d, n))
      invariant forall k: nat :: k < n ==> TableOf(s, d, k / ENTRIES) != 0
    {
      ghost var s1 := kern.V();
      UpMeans(n, sz);
      CopiedParts(s, s1, d, c, m, n);
      TableKept(s, s1, d, c, n / ENTRIES);
      UserNotKernel(kern.data, n);
      BelowNext(s, d, n);
      var t := kern.Walkpgdir(d, n, false);
      if t == 0 { return Panic, 0; }
      EntryIsPte(s1, d, n);
      var e := kern.mem[t].e[n % ENTRIES];
      if e == ZERO_PTE {
        CopiedSkip(s, s1, d, c, m, n);
      } else {
        if !e.p { AbsentIsZero(s1, d, n); }
        assert e.p;
        var made := CopyPage(kern, s, d, c, n, e);
        if made != Done {
          TabsHave(s1, c, n / ENTRIES);
          BelowCost(s, d, n + 1, Up(sz));
          return Fail, 0;
        }
        TabsNext(s1, kern.V(), c, n / ENTRIES);
      }
      n := n + 1;
    }
    UpMeans(n, sz);
    res := Done;
  }
}
