/** Whole runs of paged memory against flat memory: sbrk, loads, stores and forks of any number of processes. */
module VmRun {
  import opened Octets
  import opened VmSpec
  import opened VmCode
  import opened VmSpace
  import opened VmGrow
  import opened VmPaging

  /** The answers xs to the first operations of a run are those of flat memory. */
  ghost predicate FlatRun(f: Flat, ops: seq<Op>, xs: seq<Answer>)
    decreases |xs|
  {
    xs == [] || (ops != [] && Legal(f, ops[0]) && Answers(f, ops[0], xs[0])
        && FlatRun(Next(f, ops[0], xs[0]), ops[1..], xs[1..]))
  }

  ghost function FlatEnd(f: Flat, ops: seq<Op>, xs: seq<Answer>): Flat
    requires FlatRun(f, ops, xs)
    decreases |xs|
  {
    if xs == [] then f else FlatEnd(Next(f, ops[0], xs[0]), ops[1..], xs[1..])
  }

  /** What a process owns in the user half: the 4 MB regions with a page table, and the pages. */
  datatype Owned = Owned(tables: set<nat>, pages: set<nat>)

  type Track = map<nat, Owned>

  /** An access brings in the page and its table; a child has a table only where its parent has a page. */
  ghost function NextTrack(k: Track, op: Op, x: Answer): Track {
    if op.d !in k then k
    else
      var o := k[op.d];
      match op
      case Sbrk(_, _) => k
      case Load(d, a) => k[d := Owned(o.tables + {a / PGSIZE / ENTRIES}, o.pages + {a / PGSIZE})]
      case Store(d, a, _) => k[d := Owned(o.tables + {a / PGSIZE / ENTRIES}, o.pages + {a / PGSIZE})]
      case Fork(_) => if x.Child? then k[x.c := Owned(Regions(o.pages), o.pages)] else k
  }

  ghost function TrackEnd(k: Track, ops: seq<Op>, xs: seq<Answer>): Track
    requires |xs| <= |ops|
    decreases |xs|
  {
    if xs == [] then k else TrackEnd(NextTrack(k, ops[0], xs[0]), ops[1..], xs[1..])
  }

  /** Exactly the frames that an operation takes: a missing page and its missing table, or a kernel stack, a new
      directory, the 64 kernel tables, a copy of every page and a table for every region with a page. */
  ghost function FramesFor(k: Track, op: Op): nat {
    if op.d !in k then 0
    else
      match op
      case Sbrk(_, _) => 0
      case Load(d, a) => Needs(k[d].tables, k[d].pages, a / PGSIZE)
      case Store(d, a, _) => Needs(k[d].tables, k[d].pages, a / PGSIZE)
      case Fork(d) => 1 + KVM_FRAMES + Cost(k[d].pages)
  }

  /** The frames that the answered operations have taken. */
  ghost function Taken(k: Track, ops: seq<Op>, xs: seq<Answer>): nat
    requires |xs| <= |ops|
    decreases |xs|
  {
    if xs == [] then 0 else FramesFor(k, ops[0]) + Taken(NextTrack(k, ops[0], xs[0]), ops[1..], xs[1..])
  }

  /** Every 4 MB region that reaches below the size has a page table. */
  ghost predicate Covered(tables: set<nat>, sz: nat) {
    forall i: nat :: i * ENTRIES < Up(sz) ==> i in tables
  }

  ghost predicate MayFork(f: Flat, k: Track, op: Op) {
    op.Fork? ==> op.d in f && op.d in k && Covered(k[op.d].tables, |f[op.d].bytes|)
  }

  /** Every answered fork found all its tables. */
  ghost predicate CoveredForks(f: Flat, k: Track, ops: seq<Op>, xs: seq<Answer>)
    requires FlatRun(f, ops, xs)
    decreases |xs|
  {
    xs == [] || (MayFork(f, k, ops[0])
                 && CoveredForks(Next(f, ops[0], xs[0]), NextTrack(k, ops[0], xs[0]), ops[1..], xs[1..]))
  }

  lemma {:induction false} FlatShort(f: Flat, ops: seq<Op>, xs: seq<Answer>)
    requires FlatRun(f, ops, xs)
    ensures |xs| <= |ops|
    decreases |xs|
  {
    if xs != [] { FlatShort(Next(f, ops[0], xs[0]), ops[1..], xs[1..]); }
  }

  lemma {:induction false} FlatMore(f: Flat, k: Track, ops: seq<Op>, xs: seq<Answer>, x: Answer)
    requires FlatRun(f, ops, xs) && |xs| < |ops|
    requires Legal(FlatEnd(f, ops, xs), ops[|xs|]) && Answers(FlatEnd(f, ops, xs), ops[|xs|], x)
    ensures FlatRun(f, ops, xs + [x]) && FlatEnd(f, ops, xs + [x]) == Next(FlatEnd(f, ops, xs), ops[|xs|], x)
    ensures TrackEnd(k, ops, xs + [x]) == NextTrack(TrackEnd(k, ops, xs), ops[|xs|], x)
    ensures Taken(k, ops, xs + [x]) == Taken(k, ops, xs) + FramesFor(TrackEnd(k, ops, xs), ops[|xs|])
    ensures CoveredForks(f, k, ops, xs) && MayFork(FlatEnd(f, ops, xs), TrackEnd(k, ops, xs), ops[|xs|]) ==>
              CoveredForks(f, k, ops, xs + [x])
    decreases |xs|
  {
    hide Legal, Answers, Next, NextTrack, FramesFor, MayFork;
    var ys := xs + [x];
    if xs == [] {
      assert ys[1..] == [];
      assert FlatRun(Next(f, ops[0], x), ops[1..], []);
    } else {
      FlatMore(Next(f, ops[0], xs[0]), NextTrack(k, ops[0], xs[0]), ops[1..], xs[1..], x);
      assert ys[1..] == xs[1..] + [x];
    }
  }

  /** k is what every process owns. */
  ghost predicate Tracks(s: Vm, f: Flat, k: Track) {
    k.Keys == f.Keys && forall d: nat :: d in k ==> k[d] == Owned(TabsOf(s, d), PagesOf(s, d))
  }

  /** Why a run ended before its operations did: an operation that the theorem does not cover (an address at or
      above the size, a size above the user half), too few free frames, or the panic of copyuvm. */
  datatype Stop = Finished | Illegal | NoFrames | ForkPanic

  lemma RepOp(s: Vm, sizes: map<nat, nat>, f: Flat, d: nat)
    requires Rep(s, sizes, f) && d in sizes
    ensures d in f && sizes[d] == |f[d].bytes| <= USER * PGSIZE && Shows(s, d, sizes[d], f[d]) && d in s.dirs
  {
    hide PteAt, ByteAt;
  }

  lemma RepKeys(s: Vm, sizes: map<nat, nat>, f: Flat)
    requires Rep(s, sizes, f)
    ensures forall d :: d in f ==> d in s.dirs
    ensures forall d :: d in sizes <==> d in f
  {
  }

  /** Every other process still shows what it did. */
  lemma RepSet(s: Vm, s': Vm, sizes: map<nat, nat>, f: Flat, d: nat, sz: nat, x: Space)
    requires Rep(s, sizes, f) && Shows(s', d, sz, x)
    requires forall d': nat, sz': nat, y: Space :: d' != d && Shows(s, d', sz', y) ==> Shows(s', d', sz', y)
    ensures Rep(s', sizes[d := sz], f[d := x])
  {
    hide Shows;
    var sizes', f' := sizes[d := sz], f[d := x];
    assert sizes'.Keys == f'.Keys;
    forall d': nat | d' in f'
      ensures Shows(s', d', sizes'[d'], f'[d'])
    {
      if d' != d { assert Shows(s, d', sizes[d'], f[d']); }
    }
  }

  lemma SbrkShows(s: Vm, d: nat, sz: nat, x: Space, n: nat)
    requires Shows(s, d, sz, x) && sz + n <= USER * PGSIZE
    ensures Shows(s, d, sz + n, x.(bytes := x.bytes + Zeros(n)))
  {
    UpBounds(sz, sz + n);
    hide PteAt, ByteAt, Up;
  }

  /** After a successful copyuvm the child shows what the parent shows, and so does everyone else. */
  lemma ForkShows(s: Vm, s': Vm, d: nat, c: nat, m: seq<Seg>, sz: nat, x: Space)
    requires Inv(s) && |m| == 4 && Shows(s, d, sz, x) && Copied(s, s', d, c, m, Up(sz))
    requires forall n: nat :: n < USER ==> KernPte(m, 4, n) == ZERO_PTE
    ensures c !in s.dirs && c != d && Shows(s', c, sz, x)
    ensures forall d': nat, sz': nat, y: Space :: d' != c && Shows(s, d', sz', y) ==> Shows(s', d', sz', y)
  {
    hide PteAt, ByteAt, KernPte;
    forall a: nat | a < USER * PGSIZE
      ensures ByteAt(s', c, a) == if a < sz then x.bytes[a] else 0
    {
      UpMeans(a / PGSIZE, sz);
    }
    hide Up;
    forall n: nat | n in x.guard && n < USER
      ensures PteAt(s', c, n).p
    {
      assert PteAt(s, d, n).p;
    }
  }

  lemma NoSuchProcess(f: Flat, op: Op)
    requires op.d !in f
    ensures !Legal(f, op)
  {
  }

  lemma TracksAt(s: Vm, f: Flat, k: Track, d: nat)
    requires Tracks(s, f, k) && d in f
    ensures d in k && k[d].tables == TabsOf(s, d) && k[d].pages == PagesOf(s, d)
  {
    hide TabsOf, PagesOf;
  }

  lemma TracksSame(s: Vm, f: Flat, k: Track, d: nat, x: Space)
    requires Tracks(s, f, k) && d in f
    ensures Tracks(s, f[d := x], k)
  {
    hide TabsOf, PagesOf;
  }

  /** Without changed references another process owns what it did. */
  lemma OthersOwn(s: Vm, s': Vm, d: nat, d': nat)
    requires Inv(s) && Inv(s') && OthersKept(s, s', d) && d' != d
    ensures TabsOf(s', d') == TabsOf(s, d') && PagesOf(s', d') == PagesOf(s, d')
  {
    forall i: nat
      ensures TableOf(s', d', i) == TableOf(s, d', i)
    {
      assert Ref(s', Tab(d', i)) == Ref(s, Tab(d', i));
    }
    forall n: nat | n < USER
      ensures PteAt(s', d', n).p <==> PteAt(s, d', n).p
    {
      assert Ref(s', Pg(d', n)) == Ref(s, Pg(d', n));
    }
    hide TableOf, PteAt;
    assert TabsOf(s', d') == TabsOf(s, d');
    assert PagesOf(s', d') == PagesOf(s, d');
  }

  lemma TracksThere(s: Vm, s': Vm, f: Flat, k: Track, d: nat, n: nat, x: Space)
    requires Inv(s) && Inv(s') && Tracks(s, f, k) && d in f && PageThere(s, s', d, n)
    ensures d in k && Tracks(s', f[d := x], k[d := Owned(k[d].tables + {n / ENTRIES}, k[d].pages + {n})])
    ensures |s'.free| + Needs(k[d].tables, k[d].pages, n) == |s.free|
  {
    hide Inv, TabsOf, PagesOf, OthersKept, Needs;
    forall d': nat | d' in k && d' != d
      ensures k[d'] == Owned(TabsOf(s', d'), PagesOf(s', d'))
    {
      OthersOwn(s, s', d, d');
    }
  }

  lemma AlikeRep(s: Vm, s': Vm, sizes: map<nat, nat>, f: Flat)
    requires Rep(s, sizes, f) && Alike(s, s')
    ensures Rep(s', sizes, f)
  {
    hide PteAt, ByteAt, Up;
    forall d: nat | d in f
      ensures Shows(s', d, sizes[d], f[d])
    {
      assert Shows(s, d, sizes[d], f[d]);
    }
  }

  lemma TracksAlike(s: Vm, s': Vm, f: Flat, k: Track)
    requires Tracks(s, f, k) && Alike(s, s') && RefsKept(s, s')
    ensures Tracks(s', f, k)
  {
    hide PteAt, ByteAt, Ref, TableOf;
    forall d: nat | d in k
      ensures TabsOf(s', d) == TabsOf(s, d) && PagesOf(s', d) == PagesOf(s, d)
    {
      RefsKeptOthers(s, s', d);
    }
  }

  /** All pages of a process lie below its size. */
  lemma AllBelow(s: Vm, d: nat, sz: nat, x: Space)
    requires Shows(s, d, sz, x)
    ensures PagesBelow(s, d, Up(sz)) == PagesOf(s, d)
  {
    UpBounds(sz, sz);
    hide PteAt, ByteAt, Up;
  }

  lemma NotCovered(s: Vm, d: nat, sz: nat)
    requires exists n: nat :: n < Up(sz) && TableOf(s, d, n / ENTRIES) == 0
    ensures !Covered(TabsOf(s, d), sz)
  {
    hide TableOf, Up;
    var n: nat :| n < Up(sz) && TableOf(s, d, n / ENTRIES) == 0;
    assert n / ENTRIES !in TabsOf(s, d) && n / ENTRIES * ENTRIES <= n;
  }

  lemma IsCovered(s: Vm, d: nat, sz: nat)
    requires sz <= USER * PGSIZE && forall n: nat :: n < Up(sz) ==> TableOf(s, d, n / ENTRIES) != 0
    ensures Covered(TabsOf(s, d), sz)
  {
    hide TableOf;
    UpBounds(sz, sz);
    hide Up;
    forall i: nat | i * ENTRIES < Up(sz)
      ensures i in TabsOf(s, d)
    {
      assert i * ENTRIES / ENTRIES == i;
      assert TableOf(s, d, i * ENTRIES / ENTRIES) != 0;
    }
  }

  lemma NoKernelUser(data: nat)
    requires USER + EXTMEM < data < USER + PHYSTOP
    ensures |Kmap(data)| == 4 && forall n: nat :: n < USER ==> KernPte(Kmap(data), 4, n) == ZERO_PTE
  {
    forall n: nat | n < USER
      ensures KernPte(Kmap(data), 4, n) == ZERO_PTE
    {
      UserNotKernel(data, n);
    }
  }

  lemma CopiedPages(s: Vm, s': Vm, d: nat, c: nat, m: seq<Seg>, sz: nat, x: Space)
    requires |m| == 4 && Shows(s, d, sz, x) && Copied(s, s', d, c, m, Up(sz))
    requires forall n: nat :: n < USER ==> KernPte(m, 4, n) == ZERO_PTE
    ensures PagesOf(s', c) == PagesOf(s, d)
  {
    UpBounds(sz, sz);
    hide PteAt, ByteAt, Up, KernPte;
  }

  lemma TracksChild(s: Vm, s': Vm, f: Flat, k: Track, d: nat, c: nat, x: Space)
    requires Inv(s) && Inv(s') && Tracks(s, f, k) && d in f && c !in f && OthersKept(s, s', c)
    requires TabsOf(s', c) == Regions(PagesOf(s, d)) && PagesOf(s', c) == PagesOf(s, d)
    ensures d in k && Tracks(s', f[c := x], k[c := Owned(Regions(k[d].pages), k[d].pages)])
  {
    hide Inv, TabsOf, PagesOf, OthersKept, Regions;
    forall d': nat | d' in k
      ensures d' != c && k[d'] == Owned(TabsOf(s', d'), PagesOf(s', d'))
    {
      OthersOwn(s, s', c, d');
    }
  }

  /** fork: the kernel stack of the child, which stays in the hands of the kernel, and then copyuvm. */
  method ForkStep(kern: Kernel, sizes: map<nat, nat>, d: nat, ghost f: Flat, ghost k: Track)
    returns (x: Answer, sizes': map<nat, nat>, stop: Stop)
    requires kern.Ok() && Rep(kern.V(), sizes, f) && Tracks(kern.V(), f, k) && d in sizes && d in f
    modifies kern
    ensures stop != Illegal && Legal(f, Fork(d))
    ensures stop == Finished ==> Answers(f, Fork(d), x) && kern.Ok() && Rep(kern.V(), sizes', Next(f, Fork(d), x))
    ensures stop == Finished ==> |kern.free| + FramesFor(k, Fork(d)) == |old(kern.free)| && MayFork(f, k, Fork(d))
                                 && Tracks(kern.V(), Next(f, Fork(d), x), NextTrack(k, Fork(d), x))
    ensures stop != Finished ==> sizes' == sizes
    ensures stop == NoFrames ==> kern.Ok() && Rep(kern.V(), sizes, f) && multiset(kern.free) == multiset(old(kern.free))
                                 && |old(kern.free)| < FramesFor(k, Fork(d))
    ensures stop == ForkPanic ==> !MayFork(f, k, Fork(d))
  {
    hide Inv, PteAt, ByteAt, Shows, Rep, Copied, Alike, TableOf, Up, KernPte, Kmap, Tracks, TabsOf, PagesOf, PagesBelow,
      Cost, Regions, Covered, OthersKept, RefsKept;
    TracksAt(kern.V(), f, k, d);
    x, sizes' := Resized, sizes;
    ghost var s0 := kern.V();
    var stack := kern.Kalloc();
    if stack == 0 { return x, sizes, NoFrames; }
    ghost var s := kern.V();
    AlikeRep(s0, s, sizes, f);
    TracksAlike(s0, s, f, k);
    TracksAt(s, f, k, d);
    RepOp(s, sizes, f, d);
    RepKeys(s, sizes, f);
    var sz := sizes[d];
    AllBelow(s, d, sz, f[d]);
    var res, c := Copyuvm(kern, d, sz);
    if res == Panic {
      NotCovered(s, d, sz);
      return x, sizes, ForkPanic;
    }
    if res == Fail {
      AlikeRep(s, kern.V(), sizes, f);
      ghost var s1 := kern.V();
      HeldInMem(s1);
      kern.Kfree(stack);
      assert s0.free == [stack] + s.free;
      AlikeRep(s1, kern.V(), sizes, f);
      return x, sizes, NoFrames;
    }
    IsCovered(s, d, sz);
    NoKernelUser(kern.data);
    ForkShows(s, kern.V(), d, c, Kmap(kern.data), sz, f[d]);
    RepSet(s, kern.V(), sizes, f, c, sz, f[d]);
    CopiedPages(s, kern.V(), d, c, Kmap(kern.data), sz, f[d]);
    TracksChild(s, kern.V(), f, k, d, c, f[d]);
    x, sizes', stop := Child(c), sizes[c := sz], Finished;
  }

  method Step(kern: Kernel, sizes: map<nat, nat>, op: Op, ghost f: Flat, ghost k: Track)
    returns (x: Answer, sizes': map<nat, nat>, stop: Stop)
    requires kern.Ok() && Rep(kern.V(), sizes, f) && Tracks(kern.V(), f, k) && op.d in sizes && op.d in f
    modifies kern
    ensures stop == Finished ==> Legal(f, op) && Answers(f, op, x) && kern.Ok() && Rep(kern.V(), sizes', Next(f, op, x))
    ensures stop == Finished ==> |kern.free| + FramesFor(k, op) == |old(kern.free)| && MayFork(f, k, op)
                                 && Tracks(kern.V(), Next(f, op, x), NextTrack(k, op, x))
    ensures stop != Finished ==> sizes' == sizes
    ensures stop != Finished && stop != ForkPanic ==> kern.Ok() && Rep(kern.V(), sizes, f)
    ensures stop == Illegal ==> !Legal(f, op) && kern.V() == old(kern.V())
    ensures stop == NoFrames ==> Legal(f, op) && |old(kern.free)| < FramesFor(k, op)
    ensures stop == ForkPanic ==> op.Fork? && Legal(f, op) && !MayFork(f, k, op)
  {
    hide Inv, PteAt, ByteAt, Shows, Rep, Copied, Alike, TableOf, Up, KernPte, Kmap, Tracks, TabsOf, PagesOf, PagesBelow,
      Needs, Cost, Regions, PageThere, Covered, OthersKept, RefsKept;
    ghost var s := kern.V();
    RepOp(s, sizes, f, op.d);
    RepKeys(s, sizes, f);
    TracksAt(s, f, k, op.d);
    sizes' := sizes;
    x, stop := Resized, Finished;
    var sz := sizes[op.d];
    match op {
      case Sbrk(d, n) =>
        if sz + n > USER * PGSIZE { stop := Illegal; return; }
        SbrkShows(s, d, sz, f[d], n);
        RepSet(s, s, sizes, f, d, sz + n, f[d].(bytes := f[d].bytes + Zeros(n)));
        sizes' := sizes[d := sz + n];  // growproc
        TracksSame(s, f, k, d, f[d].(bytes := f[d].bytes + Zeros(n)));
      case Load(d, a) =>
        if a >= sz { stop := Illegal; return; }
        var res := LoadByte(kern, d, sz, a, f[d]);
        RepSet(s, kern.V(), sizes, f, d, sz, f[d]);
        assert sizes[d := sz] == sizes && f[d := f[d]] == f;
        if res == NoMemory { stop := NoFrames; return; }
        x := res.x;
        TracksThere(s, kern.V(), f, k, d, a / PGSIZE, f[d]);
      case Store(d, a, v) =>
        if a >= sz { stop := Illegal; return; }
        var res := StoreByte(kern, d, sz, a, v, f[d]);
        ghost var y := if res == Got(Stored) then f[d].(bytes := f[d].bytes[a := v]) else f[d];
        RepSet(s, kern.V(), sizes, f, d, sz, y);
        assert sizes[d := sz] == sizes && f[d := f[d]] == f;
        if res == NoMemory { stop := NoFrames; return; }
        x := res.x;
        TracksThere(s, kern.V(), f, k, d, a / PGSIZE, y);
      case Fork(d) =>
        x, sizes', stop := ForkStep(kern, sizes, d, f, k);
    }
  }

  /** The operations are answered as by flat memory, in frames that are counted exactly.  The run ends early only
      for an operation that is not legal, when the next one needs more frames than are left, or in the panic of
      copyuvm; and that panic comes exactly at a fork of a process with a 4 MB region, reaching below its size,
      that has no page table. */
  method Run(kern: Kernel, sizes0: map<nat, nat>, ops: seq<Op>, ghost f0: Flat, ghost k0: Track)
    returns (xs: seq<Answer>, sizes: map<nat, nat>, stop: Stop)
    requires kern.Ok() && Rep(kern.V(), sizes0, f0) && Tracks(kern.V(), f0, k0)
    modifies kern
    ensures |xs| <= |ops| && FlatRun(f0, ops, xs) && CoveredForks(f0, k0, ops, xs)
    ensures stop != ForkPanic ==> kern.Ok() && Rep(kern.V(), sizes, FlatEnd(f0, ops, xs))
    ensures stop == Finished <==> |xs| == |ops|
    ensures stop == Finished || stop == Illegal ==>
              Tracks(kern.V(), FlatEnd(f0, ops, xs), TrackEnd(k0, ops, xs))
              && |kern.free| + Taken(k0, ops, xs) == |old(kern.free)|
    ensures Taken(k0, ops, xs) <= |old(kern.free)|
    ensures stop == Illegal ==> !Legal(FlatEnd(f0, ops, xs), ops[|xs|])
    ensures stop == NoFrames ==> Legal(FlatEnd(f0, ops, xs), ops[|xs|])
                                 && |old(kern.free)| < Taken(k0, ops, xs) + FramesFor(TrackEnd(k0, ops, xs), ops[|xs|])
    ensures stop == ForkPanic ==> ops[|xs|].Fork? && Legal(FlatEnd(f0, ops, xs), ops[|xs|])
                                  && !MayFork(FlatEnd(f0, ops, xs), TrackEnd(k0, ops, xs), ops[|xs|])
  {
    xs, sizes := [], sizes0;
    ghost var f, k := f0, k0;
    while |xs| < |ops|
      invariant |xs| <= |ops| && FlatRun(f0, ops, xs) && f == FlatEnd(f0, ops, xs) && k == TrackEnd(k0, ops, xs)
      invariant kern.Ok() && Rep(kern.V(), sizes, f) && Tracks(kern.V(), f, k) && CoveredForks(f0, k0, ops, xs)
      invariant |kern.free| + Taken(k0, ops, xs) == |old(kern.free)|
      decreases |ops| - |xs|
    {
      hide Inv, PteAt, ByteAt, Shows, Rep, Tracks, FlatRun, FlatEnd, TrackEnd, NextTrack, Taken, FramesFor, TableOf, Up,
        MayFork, CoveredForks, Legal, Answers, Next;
      var op := ops[|xs|];
      RepKeys(kern.V(), sizes, f);
      if op.d !in sizes {
        NoSuchProcess(f, op);
        return xs, sizes, Illegal;
      }
      RepOp(kern.V(), sizes, f, op.d);
      var x;
      x, sizes, stop := Step(kern, sizes, op, f, k);
      if stop != Finished { return xs, sizes, stop; }
      FlatMore(f0, k0, ops, xs, x);
      f, k := Next(f, op, x), NextTrack(k, op, x);
      xs := xs + [x];
    }
    stop := Finished;
  }

  // ----- a process that has just started -----

  /** A new directory stands for zeros, of any size, and owns no table and no page. */
  lemma NewShows(s: Vm, s': Vm, d: nat, data: nat, sz: nat)
    requires USER + EXTMEM < data < USER + PHYSTOP && NewDir(s, s', d, Kmap(data), 4) && 0 !in s'.mem
    requires sz <= USER * PGSIZE
    ensures Shows(s', d, sz, Space(Zeros(sz), {}))
    ensures TabsOf(s', d) == {} && PagesOf(s', d) == {}
  {
    NoKernelUser(data);
    hide KernPte, Kmap;
    forall n: nat | n < USER
      ensures PteAt(s', d, n) == ZERO_PTE
    {
    }
    forall a: nat | a < USER * PGSIZE
      ensures ByteAt(s', d, a) == 0
    {
      assert PteAt(s', d, a / PGSIZE) == ZERO_PTE;
    }
    hide PteAt, ByteAt, TableOf, Up;
    assert TabsOf(s', d) == {};
    assert PagesOf(s', d) == {};
  }

  /** One answered operation, peeled off a run. */
  lemma Peel(f: Flat, k: Track, ops: seq<Op>, xs: seq<Answer>)
    requires FlatRun(f, ops, xs) && xs != []
    ensures ops != [] && Legal(f, ops[0]) && Answers(f, ops[0], xs[0]) && |xs| <= |ops|
    ensures FlatRun(Next(f, ops[0], xs[0]), ops[1..], xs[1..])
    ensures FlatEnd(f, ops, xs) == FlatEnd(Next(f, ops[0], xs[0]), ops[1..], xs[1..])
    ensures TrackEnd(k, ops, xs) == TrackEnd(NextTrack(k, ops[0], xs[0]), ops[1..], xs[1..])
    ensures Taken(k, ops, xs) == FramesFor(k, ops[0]) + Taken(NextTrack(k, ops[0], xs[0]), ops[1..], xs[1..])
    ensures CoveredForks(f, k, ops, xs) ==>
              MayFork(f, k, ops[0])
              && CoveredForks(Next(f, ops[0], xs[0]), NextTrack(k, ops[0], xs[0]), ops[1..], xs[1..])
  {
    hide Legal, Answers, Next, NextTrack, FramesFor, MayFork;
    FlatShort(f, ops, xs);
  }

  lemma Unpeeled(f: Flat, k: Track, ops: seq<Op>)
    ensures FlatRun(f, ops, []) && FlatEnd(f, ops, []) == f && TrackEnd(k, ops, []) == k && Taken(k, ops, []) == 0
  {
  }

  lemma FirstRegion(sz: nat)
    ensures Covered({0}, sz) <==> sz <= ENTRIES * PGSIZE
  {
    UpMeans(ENTRIES, sz);
    hide Up;
    var tables: set<nat> := {0};
    if ENTRIES < Up(sz) {
      var i: nat := 1;
      assert i * ENTRIES < Up(sz) && i !in tables;
    } else {
      forall i: nat | i * ENTRIES < Up(sz)
        ensures i in tables
      {
        assert i < 1;
      }
    }
  }

  lemma NoCost()
    ensures Regions({}) == {} && Cost({}) == 0
  {
    assert Regions({}) == {};
  }

  /** With the first page there and its table, a fork costs 68 frames and is good up to 4 MB. */
  lemma FirstPageOnly(d: nat, x: Space)
    ensures var k := map[d := Owned({0}, {0})];
      && FramesFor(k, Fork(d)) == KVM_FRAMES + 3
      && (MayFork(map[d := x], k, Fork(d)) <==> |x.bytes| <= ENTRIES * PGSIZE)
  {
    hide Covered, Regions;
    FirstRegion(|x.bytes|);
    CostNext({}, 0);
    NoCost();
    assert {} + {0} == {0};
  }

  function StoreSbrkForkOps(d: nat, v: byte, n: nat): seq<Op> {
    [Store(d, 0, v), Sbrk(d, n), Fork(d)]
  }

  lemma StoreSbrkForkRun(f0: Flat, k0: Track, d: nat, v: byte, n: nat, xs: seq<Answer>)
    requires f0 == map[d := Space(Zeros(PGSIZE), {})] && k0 == map[d := Owned({}, {})]
    requires PGSIZE + n <= USER * PGSIZE && |xs| <= 3 && FlatRun(f0, StoreSbrkForkOps(d, v, n), xs)
    ensures var ops := StoreSbrkForkOps(d, v, n); var f, k := FlatEnd(f0, ops, xs), TrackEnd(k0, ops, xs);
      && (|xs| < 3 ==> Legal(f, ops[|xs|]) && Taken(k0, ops, xs) + FramesFor(k, ops[|xs|]) <= KVM_FRAMES + 5)
      && (|xs| == 2 ==> (MayFork(f, k, Fork(d)) <==> PGSIZE + n <= ENTRIES * PGSIZE))
      && (|xs| == 3 && CoveredForks(f0, k0, ops, xs) ==> PGSIZE + n <= ENTRIES * PGSIZE)
  {
    var ops := StoreSbrkForkOps(d, v, n);
    Unpeeled(f0, k0, ops);
    if xs != [] {
      Peel(f0, k0, ops, xs);
      var f1, k1 := Next(f0, ops[0], xs[0]), NextTrack(k0, ops[0], xs[0]);
      assert xs[0] == Stored && k1 == map[d := Owned({0}, {0})];
      assert f1 == map[d := Space(Zeros(PGSIZE)[0 := v], {})];
      Unpeeled(f1, k1, ops[1..]);
      if |xs| > 1 {
        Peel(f1, k1, ops[1..], xs[1..]);
        var f2 := Next(f1, ops[1], xs[1]);
        assert f2 == map[d := Space(Zeros(PGSIZE)[0 := v] + Zeros(n), {})];
        FirstPageOnly(d, f2[d]);
        Unpeeled(f2, k1, ops[2..]);
        assert xs[1..][1..] == xs[2..] && ops[1..][1..] == ops[2..];
        if |xs| > 2 { Peel(f2, k1, ops[2..], xs[2..]); }
      }
    }
  }

  /** A new process stores a byte in its first page, grows by n bytes and forks.  With frames enough for all of
      this, the fork panics exactly when the size then reaches beyond 4 MB. */
  method StoreSbrkFork(kern: Kernel, v: byte, n: nat) returns (stop: Stop)
    requires kern.Ok() && PGSIZE + n <= USER * PGSIZE && |kern.free| >= 2 * KVM_FRAMES + 5
    modifies kern
    ensures stop == if PGSIZE + n <= ENTRIES * PGSIZE then Finished else ForkPanic
  {
    hide Inv, NewDir, Shows, TabsOf, PagesOf, OthersKept, Kmap, Needs, Cost, Covered, Zeros, Next, NextTrack, FramesFor,
      MayFork, Legal, Answers, Up;
    ghost var s := kern.V();
    var d := Setupkvm(kern);
    UserNotKernel(kern.data, 0);
    NewDirParts(s, kern.V(), d, Kmap(kern.data), 4);
    HeldInMem(kern.V());
    NewShows(s, kern.V(), d, kern.data, PGSIZE);
    ghost var f0: Flat := map[d := Space(Zeros(PGSIZE), {})];
    ghost var k0: Track := map[d := Owned({}, {})];
    var ops := StoreSbrkForkOps(d, v, n);
    var xs, sizes;
    xs, sizes, stop := Run(kern, map[d := PGSIZE], ops, f0, k0);
    StoreSbrkForkRun(f0, k0, d, v, n, xs);
  }
}
