/** deallocuvm, freevm and setupkvm of vm.c: making and taking down an
    address space.  Sizes are in bytes, pages are page numbers. */
module VmSpace {
  import opened Octets
  import opened VmSpec
  import opened VmCode

  // ----- deallocuvm -----

  lemma DroppedNone(s: Vm, d: nat, lo: nat)
    ensures Dropped(s, s, d, lo, lo)
  {
  }

  /** A page is dropped, and its frame goes back. */
  lemma DroppedNext(s: Vm, s1: Vm, s2: Vm, s3: Vm, d: nat, lo: nat, n: nat)
    requires Dropped(s, s1, d, lo, n) && lo <= n && PageSet(s1, s2, d, n, ZERO_PTE, ZeroPage().b)
    requires Alike(s2, s3) && s3.held == s1.held
    ensures Dropped(s, s3, d, lo, n + 1)
  {
    hide PteAt, ByteAt;
    assert ZeroPage().b == seq(PGSIZE, i => 0);
  }

  /** Absent pages need not be dropped: the 4 MB skip. */
  lemma DroppedSkip(s: Vm, s1: Vm, d: nat, lo: nat, n: nat, n': nat)
    requires Dropped(s, s1, d, lo, n) && lo <= n <= n' && forall m :: n <= m < n' ==> PteAt(s1, d, m) == ZERO_PTE
    ensures Dropped(s, s1, d, lo, n')
  {
    forall a: nat | n <= a / PGSIZE < n'
      ensures ByteAt(s1, d, a) == 0
    {
      assert PteAt(s1, d, a / PGSIZE) == ZERO_PTE;
    }
    hide PteAt, ByteAt;
  }

  /** Dropping beyond hi did nothing when there was nothing. */
  lemma DroppedCut(s: Vm, s1: Vm, d: nat, lo: nat, n: nat, hi: nat)
    requires Dropped(s, s1, d, lo, n) && lo <= hi <= n && forall m :: hi <= m < n ==> PteAt(s, d, m) == ZERO_PTE
    ensures Dropped(s, s1, d, lo, hi)
  {
    forall a: nat | hi <= a / PGSIZE < n
      ensures ByteAt(s, d, a) == 0
    {
      assert PteAt(s, d, a / PGSIZE) == ZERO_PTE;
    }
    hide PteAt, ByteAt;
  }

  lemma NoTableNoPage(s: Vm, d: nat, n: nat, m: nat)
    requires 0 !in s.mem && TableOf(s, d, n / ENTRIES) == 0 && n <= m < (n / ENTRIES + 1) * ENTRIES
    ensures PteAt(s, d, m) == ZERO_PTE
  {
    assert m / ENTRIES == n / ENTRIES;
  }

  lemma DroppedParts(s: Vm, s': Vm, d: nat, lo: nat, n: nat)
    requires Dropped(s, s', d, lo, n)
    ensures s'.dirs == s.dirs && s'.held == s.held && s'.mem.Keys == s.mem.Keys
    ensures forall m: nat :: n <= m ==> PteAt(s', d, m) == PteAt(s, d, m)
  {
    hide PteAt, ByteAt;
  }

  lemma UpMeans(n: nat, a: nat)
    ensures n * PGSIZE < a <==> n < Up(a)
  {
  }

  /** Frees the frame of a present entry and then clears the entry.  In between the frame is in the free list and
      mapped at once; the state after both is the one that clearing first would give. */
  method DropOne(kern: Kernel, d: nat, n: nat, t: nat)
    requires kern.Ok() && n < USER && PteAt(kern.V(), d, n).p
    requires t == TableOf(kern.V(), d, n / ENTRIES) != 0 && t in kern.mem && kern.mem[t].Table?
    modifies kern
    ensures kern.Ok() && OthersKept(old(kern.V()), kern.V(), d) && kern.dirs == old(kern.dirs)
    ensures kern.free == [old(PteAt(kern.V(), d, n).addr)] + old(kern.free)
    ensures forall s: Vm, lo: nat :: lo <= n && Dropped(s, old(kern.V()), d, lo, n) ==>
              Dropped(s, kern.V(), d, lo, n + 1)
    ensures forall g :: g in old(kern.held) ==> g in kern.mem && g in old(kern.mem) && kern.mem[g] == old(kern.mem[g])
  {
    hide Inv, PteAt, ByteAt, OthersKept, RefsKept, Ref, Dropped, Alike, PageSet;
    ghost var s1 := kern.V();
    EntryIsPte(s1, d, n);
    UserPage(s1, d, n);
    var pa := kern.mem[t].e[n % ENTRIES].addr;
    HeldInMem(s1);
    TabIsTable(s1, d, n / ENTRIES);
    kern.PutFree(pa);
    kern.mem := kern.mem[t := Table(kern.mem[t].e[n % ENTRIES := ZERO_PTE])];
    ghost var cleared := s1.mem[t := Table(s1.mem[t].e[n % ENTRIES := ZERO_PTE])];
    ghost var s2 := s1.(mem := cleared, held := s1.held + {pa});
    assert kern.mem == cleared[pa := Junk()];
    assert s1.held == s2.held - {pa};
    DropPage(s1, d, n, s2);
    GiveAlike(s2, pa, kern.V());
    RefsKeptOthers(s2, kern.V(), d);
    OthersKeptTwice(s1, s2, kern.V(), d);
    forall s: Vm, lo: nat | lo <= n && Dropped(s, s1, d, lo, n)
      ensures Dropped(s, kern.V(), d, lo, n + 1)
    {
      DroppedNext(s, s1, s2, kern.V(), d, lo, n);
    }
  }

  lemma UpBounds(a: nat, b: nat)
    ensures a <= b ==> Up(a) <= Up(b)
    ensures b <= USER * PGSIZE ==> Up(b) <= USER
  {
  }

  method Deallocuvm(kern: Kernel, d: nat, oldsz: nat, newsz: nat) returns (r: nat)
    requires kern.Ok() && d in kern.dirs && oldsz <= USER * PGSIZE
    modifies kern
    ensures kern.Ok() && OthersKept(old(kern.V()), kern.V(), d) && |kern.free| >= |old(kern.free)|
    ensures if newsz >= oldsz then r == oldsz && kern.V() == old(kern.V())
            else r == newsz && Dropped(old(kern.V()), kern.V(), d, Up(newsz), Up(oldsz))
    ensures forall g :: g in old(kern.held) ==> g in kern.mem && g in old(kern.mem) && kern.mem[g] == old(kern.mem[g])
  {
    hide Inv, PteAt, ByteAt, OthersKept, RefsKept, Ref, Dropped, Alike, Up;
    ghost var s := kern.V();
    AlikeSelf(s);
    HeldInMem(s);
    if newsz >= oldsz { return oldsz; }
    var n := Up(newsz);
    DroppedNone(s, d, n);
    UpBounds(newsz, oldsz);
    while n * PGSIZE < oldsz
      invariant kern.Ok() && d in kern.dirs && Up(newsz) <= n && |kern.free| >= |s.free|
      invariant Dropped(s, kern.V(), d, Up(newsz), n) && OthersKept(s, kern.V(), d)
      invariant forall m :: Up(oldsz) <= m < n ==> PteAt(s, d, m) == ZERO_PTE
      invariant forall g :: g in s.held ==> g in kern.mem && g in s.mem && kern.mem[g] == s.mem[g]
      decreases USER * PGSIZE - n * PGSIZE
    {
      ghost var s1 := kern.V();
      DroppedParts(s, s1, d, Up(newsz), n);
      UpMeans(n, oldsz);
      var t := kern.Walkpgdir(d, n, false);
      if t == 0 {
        HeldInMem(s1);
        ghost var n' := (n / ENTRIES + 1) * ENTRIES;
        forall m | n <= m < n'
          ensures PteAt(s1, d, m) == ZERO_PTE
        {
          NoTableNoPage(s1, d, n, m);
        }
        DroppedSkip(s, s1, d, Up(newsz), n, n');
        n := (n / ENTRIES + 1) * ENTRIES - 1;
      } else {
        EntryIsPte(s1, d, n);
        if kern.mem[t].e[n % ENTRIES].p {
          DropOne(kern, d, n, t);
          OthersKeptTwice(s, s1, kern.V(), d);
        } else {
          AbsentIsZero(s1, d, n);
          DroppedSkip(s, s1, d, Up(newsz), n, n + 1);
        }
      }
      n := n + 1;
    }
    UpMeans(n, oldsz);
    DroppedCut(s, kern.V(), d, Up(newsz), n, Up(oldsz));
    r := newsz;
  }

  // ----- freevm -----

  /** Directory d is gone, nothing else that user code can see has changed. */
  ghost predicate Gone(s: Vm, s': Vm, d: nat) {
    && s'.dirs == s.dirs - {d} && s'.held == s.held && s'.mem.Keys == s.mem.Keys
    && (forall d': nat, m: nat :: PteAt(s', d', m) == if d' == d then ZERO_PTE else PteAt(s, d', m))
    && forall d': nat, a: nat :: a < USER * PGSIZE ==> ByteAt(s', d', a) == if d' == d then 0 else ByteAt(s, d', a)
  }

  lemma GoneAll(s: Vm, s1: Vm, s2: Vm, s3: Vm, d: nat)
    requires Dropped(s, s1, d, 0, USER) && s2.dirs == s1.dirs - {d} && s2.mem.Keys == s1.mem.Keys && SameBytes(s1, s2)
    requires forall d': nat, m: nat :: PteAt(s2, d', m) == if d' == d then ZERO_PTE else PteAt(s1, d', m)
    requires Alike(s2, s3) && s3.held == s.held
    ensures Gone(s, s3, d)
  {
    forall a: nat | a < USER * PGSIZE
      ensures a / PGSIZE < USER
    {
    }
    hide PteAt, ByteAt;
  }

  lemma NoPages(s: Vm, s1: Vm, d: nat)
    requires Dropped(s, s1, d, 0, USER)
    ensures forall n: nat :: n < USER ==> !PteAt(s1, d, n).p
  {
    hide PteAt, ByteAt;
  }

  /** freevm holds the tables from entry i on, and the directory. */
  ghost predicate ToFree(s: Vm, d: nat, i: nat, held: set<nat>, free: set<nat>)
    requires i <= ENTRIES
  {
    && (forall j: nat :: i <= j < ENTRIES && TableOf(s, d, j) != 0 ==> TableOf(s, d, j) in held)
    && d in held && free <= held && 0 !in held
    && forall f :: f in held ==> f in free || f == d || exists j: nat :: i <= j < ENTRIES && TableOf(s, d, j) == f
  }

  lemma ToFreeStart(s: Vm, d: nat)
    requires Inv(s) && d in s.dirs
    ensures ToFree(s, d, 0, s.held + {d} + Tables(s, d, ENTRIES), s.held)
    ensures forall i :: Entry(s, d, i).p ==> TableOf(s, d, i) == Entry(s, d, i).addr != 0
    ensures forall i :: !Entry(s, d, i).p ==> TableOf(s, d, i) == 0
  {
    var held := s.held + {d} + Tables(s, d, ENTRIES);
    forall f | f in Tables(s, d, ENTRIES)
      ensures exists j: nat :: 0 <= j < ENTRIES && TableOf(s, d, j) == f
    {
      var j: nat :| j < ENTRIES && TableOf(s, d, j) == f;
    }
    forall j: nat | j < ENTRIES && TableOf(s, d, j) != 0
      ensures TableOf(s, d, j) in held
    {
    }
  }

  lemma ToFreeNext(s: Vm, d: nat, i: nat, held: set<nat>, free: set<nat>)
    requires Inv(s) && d in s.dirs && i < ENTRIES && ToFree(s, d, i, held, free) && free == s.held
    ensures TableOf(s, d, i) == 0 ==> ToFree(s, d, i + 1, held, free)
    ensures TableOf(s, d, i) != 0 ==>
              TableOf(s, d, i) in held && TableOf(s, d, i) != d && ToFree(s, d, i + 1, held - {TableOf(s, d, i)}, free)
  {
    var t := TableOf(s, d, i);
    if t != 0 {
      TabIsTable(s, d, i);
      forall j: nat | i < j < ENTRIES && TableOf(s, d, j) != 0
        ensures TableOf(s, d, j) != t
      {
        TabsDiffer(s, d, j, d, i);
      }
    }
    hide TableOf, Inv;
    forall f | f in held && f !in free && f != d && f != t
      ensures exists j: nat :: i < j < ENTRIES && TableOf(s, d, j) == f
    {
      var j: nat :| i <= j < ENTRIES && TableOf(s, d, j) == f;
      assert j != i;
    }
  }

  lemma ToFreeEnd(s: Vm, d: nat, held: set<nat>, free: set<nat>)
    requires ToFree(s, d, ENTRIES, held, free)
    ensures held == free + {d}
  {
  }

  lemma FreshOf(s: Vm, d: nat, i: nat, held: set<nat>)
    requires Inv(s) && TableOf(s, d, i) != 0 && held == s.held
    ensures TableOf(s, d, i) !in held
  {
    TabIsTable(s, d, i);
  }

  method Freevm(kern: Kernel, d: nat)
    requires kern.Ok() && d in kern.dirs
    modifies kern
    ensures kern.Ok() && OthersKept(old(kern.V()), kern.V(), d) && Gone(old(kern.V()), kern.V(), d)
    ensures forall g :: g in old(kern.held) ==> g in kern.mem && g in old(kern.mem) && kern.mem[g] == old(kern.mem[g])
  {
    hide Inv, PteAt, ByteAt, OthersKept, RefsKept, Ref, Dropped, Alike, Gone, ToFree, Tables, TableOf;
    ghost var s := kern.V();
    var r := Deallocuvm(kern, d, USER * PGSIZE, 0);
    assert Up(0) == 0 && Up(USER * PGSIZE) == USER;
    ghost var s1 := kern.V();
    DroppedParts(s, s1, d, 0, USER);
    NoPages(s, s1, d);
    DirIsTable(s1, d);
    ToFreeStart(s1, d);
    kern.dirs, kern.held := kern.dirs - {d}, kern.held + {d} + Tables(s1, d, ENTRIES);
    ghost var s2 := kern.V();
    Retire(s1, d, s2);
    OthersKeptTwice(s, s1, s2, d);
    HeldInMem(s2);
    AlikeSelf(s2);
    for i := 0 to ENTRIES
      invariant kern.Ok() && ToFree(s1, d, i, kern.held, s.held) && Alike(s2, kern.V()) && OthersKept(s, kern.V(), d)
      invariant d in kern.mem && kern.mem[d] == s1.mem[d]
      invariant forall g :: g in s.held ==> g in kern.mem && g in s.mem && kern.mem[g] == s.mem[g]
    {
      ghost var s3 := kern.V();
      ToFreeNext(s1, d, i, kern.held, s.held);
      if kern.mem[d].e[i].p {
        HeldInMem(s3);
        FreshOf(s1, d, i, s.held);
        kern.Kfree(kern.mem[d].e[i].addr);
        AlikeTwice(s2, s3, kern.V());
        RefsKeptOthers(s3, kern.V(), d);
        OthersKeptTwice(s, s3, kern.V(), d);
      }
    }
    ghost var s4 := kern.V();
    ToFreeEnd(s1, d, kern.held, s.held);
    HeldInMem(s4);
    kern.Kfree(d);
    AlikeTwice(s2, s4, kern.V());
    RefsKeptOthers(s4, kern.V(), d);
    OthersKeptTwice(s, s4, kern.V(), d);
    GoneAll(s, s1, s2, kern.V(), d);
  }

  // ----- setupkvm -----

  /** d is a new directory: the first k lines of kmap and nothing else. */
  ghost predicate NewDir(s: Vm, s': Vm, d: nat, m: seq<Seg>, k: nat)
    requires k <= |m|
  {
    && d != 0 && d !in s.dirs && s'.dirs == s.dirs + {d} && s'.held == s.held && s'.mem.Keys == s.mem.Keys
    && (forall d': nat, n: nat :: PteAt(s', d', n) == if d' == d then KernPte(m, k, n) else PteAt(s, d', n))
    && SameBytes(s, s') && forall i: nat :: i < USER / ENTRIES ==> TableOf(s', d, i) == 0
  }

  lemma NewDirStart(s: Vm, s1: Vm, s2: Vm, s3: Vm, d: nat, m: seq<Seg>)
    requires Alike(s, s1) && Alike(s1, s2) && s1.held == s.held + {d} && d !in s.held && s2.held == s1.held
    requires s3.dirs == s2.dirs + {d} && s3.held == s2.held - {d} && s3.mem.Keys == s2.mem.Keys && d !in s2.dirs
        && d != 0 && SameBytes(s2, s3)
    requires forall d': nat, n: nat :: PteAt(s3, d', n) == PteAt(s2, d', n)
    requires (forall n: nat :: PteAt(s3, d, n) == ZERO_PTE) && forall i: nat :: TableOf(s3, d, i) == 0
    ensures NewDir(s, s3, d, m, 0)
  {
    hide PteAt, ByteAt;
  }

  lemma NewDirNext(s: Vm, s1: Vm, s2: Vm, d: nat, m: seq<Seg>, k: nat)
    requires k < |m| && NewDir(s, s1, d, m, k) && USER <= m[k].first
    requires Mapped(s1, s2, d, m[k].first, m[k].count, m[k].pa, m[k].w, false)
    requires forall i: nat :: i < USER / ENTRIES ==> TableOf(s2, d, i) == TableOf(s1, d, i)
    ensures NewDir(s, s2, d, m, k + 1)
  {
    hide PteAt, ByteAt;
  }

  /** The lines of kmap do not overlap, so that mappages does not panic. */
  lemma SegsApart(data: nat, k: nat, n: nat)
    requires USER + EXTMEM < data < USER + PHYSTOP && k < 4
    requires var g := Kmap(data)[k]; g.first <= n < g.first + g.count
    ensures KernPte(Kmap(data), k, n) == ZERO_PTE
  {
    var m := Kmap(data);
    assert k == 1 ==> KernPte(m, 0, n) == ZERO_PTE;
    if k == 2 { assert KernPte(m, 1, n) == KernPte(m, 0, n); }
    if k == 3 { assert KernPte(m, 2, n) == KernPte(m, 1, n) == KernPte(m, 0, n); }
  }

  lemma NewDirPte(s: Vm, s': Vm, d: nat, m: seq<Seg>, k: nat, n: nat)
    requires k <= |m| && NewDir(s, s', d, m, k)
    ensures PteAt(s', d, n) == KernPte(m, k, n)
  {
    hide PteAt, ByteAt;
  }

  lemma NewDirParts(s: Vm, s': Vm, d: nat, m: seq<Seg>, k: nat)
    requires k <= |m| && NewDir(s, s', d, m, k)
    ensures d != 0 && d !in s.dirs && s'.dirs == s.dirs + {d} && s'.held == s.held && s'.mem.Keys == s.mem.Keys
  {
  }

  /** Making a directory, failing half-way and freeing it leaves everything as it was. */
  lemma NewDirGone(s: Vm, s1: Vm, s2: Vm, s3: Vm, d: nat, m: seq<Seg>, k: nat, j: nat)
    requires Inv(s) && k < |m| && NewDir(s, s1, d, m, k) && USER <= m[k].first
        && Mapped(s1, s2, d, m[k].first, j, m[k].pa, m[k].w, false)
    requires Gone(s2, s3, d)
    ensures Alike(s, s3) && s3.held == s.held
  {
    forall n: nat
      ensures PteAt(s, d, n) == ZERO_PTE
    {
      assert TableOf(s, d, n / ENTRIES) == 0;
    }
    hide PteAt;
    forall a: nat | a < USER * PGSIZE
      ensures ByteAt(s, d, a) == 0
    {
      assert PteAt(s, d, a / PGSIZE) == ZERO_PTE;
    }
    hide ByteAt;
  }

  const KVM_FRAMES: nat := 65  // a directory and the 64 tables of the kernel half

  /** The directory entries with a table after the first k lines of kmap: the first three lines lie side by side,
      the fourth on its own. */
  predicate KernelTable(data: nat, k: nat, i: nat) {
    if k == 0 then false
    else if k == 1 then i == 512
    else if k == 2 then 512 <= i <= (data - 1) / ENTRIES
    else if k == 3 then 512 <= i < 568
    else 512 <= i < 568 || 1016 <= i < 1024
  }

  /** How many they are. */
  function KernelTables(data: nat, k: nat): nat
    requires USER + EXTMEM < data < USER + PHYSTOP
  {
    if k == 0 then 0 else if k == 1 then 1 else if k == 2 then (data - 1) / ENTRIES - 511 else if k == 3 then 56 else 64
  }

  ghost predicate TablesAre(s: Vm, d: nat, data: nat, k: nat) {
    forall i: nat :: TableOf(s, d, i) != 0 <==> KernelTable(data, k, i)
  }

  /** Line k of kmap finds the tables of the lines before it, and makes the others. */
  lemma LineTables(s: Vm, d: nat, data: nat, k: nat)
    requires USER + EXTMEM < data < USER + PHYSTOP && k < 4 && TablesAre(s, d, data, k)
    ensures var g := Kmap(data)[k];
      Missing(s, d, g.first / ENTRIES, EndTable(g.first, g.count)) == KernelTables(data, k + 1) - KernelTables(data, k)
  {
    var g := Kmap(data)[k];
    var lo, hi := g.first / ENTRIES, EndTable(g.first, g.count);
    var mid := if k == 0 then 512 else if k == 1 then 513 else if k == 2 then (data - 1) / ENTRIES + 1 else 1016;
    hide TableOf, Missing;
    MissingIs(s, d, lo, mid, hi);
  }

  lemma LineDone(s: Vm, s': Vm, d: nat, data: nat, k: nat)
    requires USER + EXTMEM < data < USER + PHYSTOP && k < 4 && TablesAre(s, d, data, k)
    requires var g := Kmap(data)[k]; TabsKept(s, s', d, g.first / ENTRIES, EndTable(g.first, g.count))
    requires var g := Kmap(data)[k];
      forall i: nat :: g.first / ENTRIES <= i < EndTable(g.first, g.count) ==> TableOf(s', d, i) != 0
    ensures TablesAre(s', d, data, k + 1)
    ensures forall i: nat :: i < USER / ENTRIES ==> TableOf(s', d, i) == TableOf(s, d, i)
  {
    hide TableOf;
  }

  lemma KmapLines(data: nat, k: nat)
    requires USER + EXTMEM < data < USER + PHYSTOP && k < 4
    ensures var g := Kmap(data)[k]; USER <= g.first && 0 < g.count && g.first + g.count <= PAGES
    ensures |Kmap(data)| == 4
  {
  }

  lemma GoneDirs(s: Vm, s': Vm, d: nat)
    requires Gone(s, s', d)
    ensures d !in s'.dirs
  {
  }

  lemma RefsAll(s: Vm, s': Vm)
    requires RefsKept(s, s')
    ensures forall d :: OthersKept(s, s', d)
  {
  }

  /** The first half of setupkvm: a zeroed directory. */
  method EmptyDir(kern: Kernel) returns (d: nat)
    requires kern.Ok()
    modifies kern
    ensures kern.Ok()
    ensures d != 0 ==> NewDir(old(kern.V()), kern.V(), d, Kmap(kern.data), 0) && OthersKept(old(kern.V()), kern.V(), d)
    ensures d != 0 ==> |kern.free| + 1 == |old(kern.free)| && forall i: nat :: TableOf(kern.V(), d, i) == 0
    ensures d == 0 ==> kern.V() == old(kern.V()) && kern.free == []
  {
    hide Inv, PteAt, ByteAt, OthersKept, RefsKept, Ref, Alike, Kmap, NewDir;
    ghost var s := kern.V();
    d := kern.Kalloc();
    if d == 0 { return 0; }
    ghost var s1 := kern.V();
    RefsAll(s, s1);
    kern.FillFrame(d, ZeroTable());
    ghost var s2 := kern.V();
    RefsAll(s1, s2);
    kern.dirs, kern.held := kern.dirs + {d}, kern.held - {d};
    AddDir(s2, d, kern.V());
    NewDirStart(s, s1, s2, kern.V(), d, Kmap(kern.data));
    OthersKeptTwice(s, s1, s2, d);
    OthersKeptTwice(s, s2, kern.V(), d);
  }

  lemma NoTablesYet(s: Vm, d: nat, data: nat)
    requires USER + EXTMEM < data < USER + PHYSTOP && forall i: nat :: TableOf(s, d, i) == 0
    ensures TablesAre(s, d, data, 0) && KernelTables(data, 0) == 0
  {
  }

  lemma NotTwice(s: Vm, s': Vm, d: nat, data: nat, k: nat, j: nat, res: Outcome)
    requires USER + EXTMEM < data < USER + PHYSTOP && k < 4 && NewDir(s, s', d, Kmap(data), k)
    requires res == Panic ==> j < Kmap(data)[k].count && PteAt(s', d, Kmap(data)[k].first + j).p
    ensures res != Panic
  {
    if res == Panic {
      SegsApart(data, k, Kmap(data)[k].first + j);
      NewDirPte(s, s', d, Kmap(data), k, Kmap(data)[k].first + j);
    }
  }

  /** A directory that neither state has changes nothing about the others. */
  lemma AllKept(s: Vm, s': Vm, d: nat)
    requires OthersKept(s, s', d) && d !in s.dirs && d !in s'.dirs && 0 !in s.mem && 0 !in s'.mem
    ensures RefsKept(s, s')
  {
    forall q: Place | q.d == d
      ensures Ref(s', q) == Ref(s, q)
    {
    }
    hide Ref;
  }

  lemma AlikeParts(s: Vm, s': Vm)
    requires Alike(s, s')
    ensures s'.dirs == s.dirs && s'.mem.Keys == s.mem.Keys
  {
  }

  lemma FreeMeans(s: Vm, f: nat)
    requires Inv(s)
    ensures f in s.free <==> f in s.mem && f !in s.held && !Hangs(s, f)
  {
    hide Ref;
    ZeroNoFrame(s);
  }

  /** With the same references and the same frames in hand, the same frames are free. */
  lemma SameFree(s: Vm, s': Vm)
    requires Inv(s) && Inv(s') && RefsKept(s, s') && s'.mem.Keys == s.mem.Keys && s'.held == s.held
    ensures multiset(s'.free) == multiset(s.free)
  {
    hide Ref;
    ZeroNoFrame(s);
    SameHangs(s, s');
    forall f
      ensures f in s'.free <==> f in s.free
    {
      FreeMeans(s, f);
      FreeMeans(s', f);
    }
    forall f
      ensures multiset(s'.free)[f] == multiset(s.free)[f]
    {
      if f in s.free {
        OnceIn(s.free, f);
        OnceIn(s'.free, f);
      }
    }
  }

  lemma TablesBound(data: nat, k: nat)
    requires USER + EXTMEM < data < USER + PHYSTOP && k <= 4
    ensures KernelTables(data, k) <= KernelTables(data, 4) == 64
  {
  }

  lemma KmapPage(data: nat, n: nat)
    requires USER + EXTMEM < data < USER + PHYSTOP
    ensures KernPte(Kmap(data), 4, n) ==
      if 0x8_0000 <= n < 0x8_0100 then Pte(n - 0x8_0000, true, true, false)
      else if 0x8_0100 <= n < data then Pte(n - 0x8_0000, true, false, false)
      else if data <= n < 0x8_e000 then Pte(n - 0x8_0000, true, true, false)
      else if 0xf_e000 <= n < 0x10_0000 then Pte(n, true, true, false)
      else Pte(0, false, false, false)
  {
    var m := Kmap(data);
    assert KernPte(m, 1, n) == if 0x8_0000 <= n < 0x8_0100 then Pte(n - 0x8_0000, true, true, false) else ZERO_PTE;
    assert KernPte(m, 3, n) == if data <= n < 0x8_e000 then Pte(n - 0x8_0000, true, true, false) else KernPte(m, 2, n);
  }

  /** The lines of kmap, page by page. */
  lemma KmapIs(s: Vm, s': Vm, d: nat, data: nat)
    requires USER + EXTMEM < data < USER + PHYSTOP && NewDir(s, s', d, Kmap(data), 4)
    ensures KernelHalf(s', d, data)
  {
    forall n: nat
      ensures KernPte(Kmap(data), 4, n) ==
        if 0x8_0000 <= n < 0x8_0100 then Pte(n - 0x8_0000, true, true, false)
        else if 0x8_0100 <= n < data then Pte(n - 0x8_0000, true, false, false)
        else if data <= n < 0x8_e000 then Pte(n - 0x8_0000, true, true, false)
        else if 0xf_e000 <= n < 0x10_0000 then Pte(n, true, true, false)
        else Pte(0, false, false, false)
    {
      KmapPage(data, n);
    }
    hide PteAt, KernPte, Kmap;
  }

  /** 0 exactly when there are fewer than 65 frames; the panic for a page mapped twice is never reached. */
  method Setupkvm(kern: Kernel) returns (d: nat)
    requires kern.Ok()
    modifies kern
    ensures kern.Ok()
    ensures d != 0 ==> NewDir(old(kern.V()), kern.V(), d, Kmap(kern.data), 4) && OthersKept(old(kern.V()), kern.V(), d)
    ensures d != 0 ==> KernelHalf(kern.V(), d, kern.data) && |kern.free| + KVM_FRAMES == |old(kern.free)|
    ensures d == 0 ==> Alike(old(kern.V()), kern.V()) && kern.held == old(kern.held) && |old(kern.free)| < KVM_FRAMES
    ensures d == 0 ==> RefsKept(old(kern.V()), kern.V()) && multiset(kern.free) == multiset(old(kern.free))
  {
    hide Inv, Mapping, Ended, Missing, PteAt, ByteAt, OthersKept, RefsKept, Ref, Mapped, Alike, Gone, Kmap, KernPte,
        NewDir, TableOf, KernelHalf, KernelTables, EndTable, UserFrames, TablesAre, TabsKept;
    ghost var s := kern.V();
    AlikeSelf(s);
    d := EmptyDir(kern);
    if d == 0 { return 0; }
    var m := Kmap(kern.data);
    KmapLines(kern.data, 0);
    NoTablesYet(kern.V(), d, kern.data);
    for k := 0 to 4
      invariant kern.Ok() && NewDir(s, kern.V(), d, m, k) && OthersKept(s, kern.V(), d)
      invariant TablesAre(kern.V(), d, kern.data, k) && |kern.free| + 1 + KernelTables(kern.data, k) == |s.free|
    {
      ghost var s3 := kern.V();
      NewDirParts(s, s3, d, m, k);
      KmapLines(kern.data, k);
      LineTables(s3, d, kern.data, k);
      ghost var j: nat;
      var res;
      res, j := kern.Mappages(d, m[k].first, m[k].count, m[k].pa, m[k].w, false);
      ghost var s4 := kern.V();
      MappingEnds(s3, s4, d, m[k].first, m[k].count, res, j, m[k].pa, m[k].w, false);
      OthersKeptTwice(s, s3, s4, d);
      if res != Done {
        NotTwice(s, s3, d, kern.data, k, j, res);
        MappedParts(s3, s4, d, m[k].first, j, m[k].pa, m[k].w, false);
        Freevm(kern, d);
        NewDirGone(s, s3, s4, kern.V(), d, m, k, j);
        OthersKeptTwice(s, s4, kern.V(), d);
        GoneDirs(s4, kern.V(), d);
        HeldInMem(s);
        HeldInMem(kern.V());
        AllKept(s, kern.V(), d);
        AlikeParts(s, kern.V());
        SameFree(s, kern.V());
        TablesBound(kern.data, k + 1);
        return 0;
      }
      LineDone(s3, s4, d, kern.data, k);
      NewDirNext(s, s3, s4, d, m, k);
    }
    TablesBound(kern.data, 4);
    KmapIs(s, kern.V(), d, kern.data);
  }
}
