/** Page tables, page frames and the free list of vm.c and kalloc.c, as values.  Addresses of pages are page
    numbers (address / 4096), both physical (a frame) and virtual. */
module VmSpec {
  import opened Collections
  import opened Octets

  const PGSIZE: nat := 4096
  const ENTRIES: nat := 1024
  const USER: nat := 0x80000     // page number of KERNBASE
  const PAGES: nat := 0x100000   // pages of the whole address space

  /** A page table or page directory entry: frame, and the flags P, W and U. */
  datatype Pte = Pte(addr: nat, p: bool, w: bool, u: bool)

  const ZERO_PTE: Pte := Pte(0, false, false, false)

  type Entries = e: seq<Pte> | |e| == ENTRIES witness seq(ENTRIES, i => Pte(0, false, false, false))
  type Bytes = b: seq<byte> | |b| == PGSIZE witness seq(PGSIZE, i => 0)

  /** What a frame is used for: entries, or the bytes of a page. */
  datatype Frame = Table(e: Entries) | Page(b: Bytes)

  function ZeroTable(): Frame {
    Table(seq(ENTRIES, i => Pte(0, false, false, false)))
  }

  function ZeroPage(): Frame {
    Page(seq(PGSIZE, i => 0))
  }

  /** What kfree writes into a frame. */
  function Junk(): Frame {
    Page(seq(PGSIZE, i => 1))
  }

  /** All frames with their contents, the free list, the live page directories, and the frames that the
      kernel holds for something else: those in the hands of a running function, kernel stacks, pipes. */
  datatype Vm = Vm(mem: map<nat, Frame>, free: seq<nat>, dirs: set<nat>, held: set<nat>)

  function Entry(s: Vm, t: nat, i: nat): Pte {
    if t in s.mem && s.mem[t].Table? && i < ENTRIES then s.mem[t].e[i] else ZERO_PTE
  }

  /** The three kinds of references that own a frame: a live directory owns itself, the tables it points to,
      and the user pages that those point to.  Page n is the virtual page number. */
  datatype Place = Dir(d: nat) | Tab(d: nat, i: nat) | Pg(d: nat, n: nat)

  function TableOf(s: Vm, d: nat, i: nat): nat {
    if d in s.dirs && Entry(s, d, i).p then Entry(s, d, i).addr else 0
  }

  /** The page table entry of virtual page n; zero where there is no table. */
  function PteAt(s: Vm, d: nat, n: nat): Pte {
    Entry(s, TableOf(s, d, n / ENTRIES), n % ENTRIES)
  }

  function Ref(s: Vm, p: Place): nat {
    match p
    case Dir(d) => if d in s.dirs then d else 0
    case Tab(d, i) => TableOf(s, d, i)
    case Pg(d, n) => if n < USER && PteAt(s, d, n).p then PteAt(s, d, n).addr else 0
  }

  ghost predicate Hangs(s: Vm, f: nat) {
    exists p: Place :: Ref(s, p) == f
  }

  ghost predicate Frames(s: Vm) {
    && 0 !in s.mem && 0 !in s.dirs && s.held <= s.mem.Keys
    && NoDup(s.free) && (forall f :: f in s.free ==> f in s.mem && f !in s.held)
    && forall t: nat, i: nat :: !Entry(s, t, i).p ==> Entry(s, t, i) == ZERO_PTE
  }

  /** A present directory entry or user entry names a frame; a directory entry forbids nothing, so that the entries
      of its table decide who may read and write. */
  ghost predicate Solid(s: Vm) {
    && (forall d: nat, i: nat :: d in s.dirs && Entry(s, d, i).p ==>
          Entry(s, d, i).addr != 0 && Entry(s, d, i).w && Entry(s, d, i).u)
    && forall d: nat, n: nat :: n < USER && PteAt(s, d, n).p ==> PteAt(s, d, n).addr != 0
  }

  /** Every frame is in the free list, held, or owned by exactly one reference. */
  ghost predicate Inv(s: Vm) {
    && Frames(s) && Solid(s)
    && (forall p :: Ref(s, p) != 0 ==>
          Ref(s, p) in s.mem && Ref(s, p) !in s.held && Ref(s, p) !in s.free && (s.mem[Ref(s, p)].Page? <==> p.Pg?))
    && (forall p, q :: p != q && Ref(s, p) != 0 ==> Ref(s, p) != Ref(s, q))
    && (forall f :: f in s.mem ==> f in s.free || f in s.held || Hangs(s, f))
  }

  /** No reference outside directory d changes. */
  ghost predicate OthersKept(s: Vm, s': Vm, d: nat) {
    forall q: Place :: q.d != d ==> Ref(s', q) == Ref(s, q)
  }

  lemma OthersKeptTwice(s: Vm, s1: Vm, s2: Vm, d: nat)
    requires OthersKept(s, s1, d) && OthersKept(s1, s2, d)
    ensures OthersKept(s, s2, d)
  {
    hide Ref;
  }

  ghost predicate RefsKept(s: Vm, s': Vm) {
    forall q :: Ref(s', q) == Ref(s, q)
  }

  lemma RefsKeptOthers(s: Vm, s': Vm, d: nat)
    requires RefsKept(s, s')
    ensures OthersKept(s, s', d) && forall i :: TableOf(s', d, i) == TableOf(s, d, i)
  {
    forall i
      ensures TableOf(s', d, i) == TableOf(s, d, i)
    {
      assert Ref(s', Tab(d, i)) == Ref(s, Tab(d, i));
    }
  }

  // ----- the tables and pages of the user half -----

  /** The 4 MB regions of the user half that have a page table. */
  ghost function TabsOf(s: Vm, d: nat): (r: set<nat>) {
    set i: nat | i < USER / ENTRIES && TableOf(s, d, i) != 0
  }

  /** The pages of the user half that are present. */
  ghost function PagesOf(s: Vm, d: nat): (r: set<nat>) {
    set n: nat | n < USER && PteAt(s, d, n).p
  }

  /** The pages below n that are present. */
  ghost function PagesBelow(s: Vm, d: nat, n: nat): (r: set<nat>) {
    set m: nat | m < n && PteAt(s, d, m).p
  }

  ghost function Regions(pages: set<nat>): (r: set<nat>)
    ensures forall n :: n in pages ==> n / ENTRIES in r
    ensures forall i :: i in r ==> exists n :: n in pages && n / ENTRIES == i
  {
    set n | n in pages :: n / ENTRIES
  }

  /** The frames that these pages and their tables take. */
  ghost function Cost(pages: set<nat>): nat {
    |pages| + |Regions(pages)|
  }

  lemma RegionsNext(pages: set<nat>, n: nat)
    ensures Regions(pages + {n}) == Regions(pages) + {n / ENTRIES}
  {
  }

  lemma CostNext(pages: set<nat>, n: nat)
    requires n !in pages
    ensures Cost(pages + {n}) == Cost(pages) + 1 + if n / ENTRIES in Regions(pages) then 0 else 1
  {
    RegionsNext(pages, n);
  }

  lemma CostGrows(pages: set<nat>, more: set<nat>)
    requires pages <= more
    ensures Cost(pages) <= Cost(more)
  {
    SubsetSize(pages, more);
    SubsetSize(Regions(pages), Regions(more));
  }

  /** Only the entries lo .. hi - 1 of directory d may have changed. */
  ghost predicate TabsKept(s: Vm, s': Vm, d: nat, lo: nat, hi: nat) {
    forall i: nat :: !(lo <= i < hi) ==> TableOf(s', d, i) == TableOf(s, d, i)
  }

  /** How many of the entries lo .. hi - 1 of directory d have no table. */
  function Missing(s: Vm, d: nat, lo: nat, hi: nat): nat {
    if hi <= lo then 0 else Missing(s, d, lo, hi - 1) + if TableOf(s, d, hi - 1) == 0 then 1 else 0
  }

  lemma {:induction false} MissingUpTo(s: Vm, d: nat, lo: nat, mid: nat, hi: nat)
    requires lo <= mid <= hi
    ensures Missing(s, d, lo, mid) <= Missing(s, d, lo, hi)
  {
    hide TableOf;
    if mid < hi { MissingUpTo(s, d, lo, mid, hi - 1); }
  }

  lemma {:induction false} MissingIs(s: Vm, d: nat, lo: nat, mid: nat, hi: nat)
    requires lo <= mid <= hi
    requires forall i: nat :: lo <= i < hi ==> (TableOf(s, d, i) != 0 <==> i < mid)
    ensures Missing(s, d, lo, hi) == hi - mid
  {
    hide TableOf;
    if lo < hi { MissingIs(s, d, lo, if mid < hi then mid else hi - 1, hi - 1); }
  }

  // ----- what a byte of user memory is -----

  function ByteAt(s: Vm, d: nat, a: nat): byte {
    var e := PteAt(s, d, a / PGSIZE);
    if e.p && e.addr in s.mem && s.mem[e.addr].Page? then s.mem[e.addr].b[a % PGSIZE] else 0
  }

  // ----- taking and giving frames -----

  /** Nothing hangs differently when the directories and the tables they reach are the same. */
  lemma SameEntries(s: Vm, s': Vm)
    requires s'.dirs == s.dirs && forall t: nat, i: nat :: Entry(s', t, i) == Entry(s, t, i)
    ensures forall p :: Ref(s', p) == Ref(s, p)
    ensures forall d: nat, n: nat :: PteAt(s', d, n) == PteAt(s, d, n)
    ensures Solid(s) ==> Solid(s')
  {
    forall d: nat, i: nat
      ensures TableOf(s', d, i) == TableOf(s, d, i)
    {
    }
  }

  lemma SameHangs(s: Vm, s': Vm)
    requires forall p :: Ref(s', p) == Ref(s, p)
    ensures forall f :: Hangs(s', f) <==> Hangs(s, f)
  {
    hide Ref;
    forall f
      ensures Hangs(s', f) <==> Hangs(s, f)
    {
      if Hangs(s, f) { var p :| Ref(s, p) == f; assert Ref(s', p) == f; }
      if Hangs(s', f) { var p :| Ref(s', p) == f; assert Ref(s, p) == f; }
    }
  }

  lemma TakeKeeps(s: Vm, s': Vm)
    requires Inv(s) && |s.free| > 0 && s' == s.(free := s.free[1..], held := s.held + {s.free[0]})
    ensures Inv(s') && s.free[0] in s'.held && s.free[0] !in s.held && forall p :: Ref(s', p) == Ref(s, p)
    ensures forall d: nat, n: nat :: PteAt(s', d, n) == PteAt(s, d, n)
  {
    var f := s.free[0];
    SameEntries(s, s');
    hide Ref, PteAt;
    forall k | 0 <= k < |s'.free|
      ensures s'.free[k] != f
    {
      assert s'.free[k] == s.free[k + 1];
    }
    assert f in s.free;
    assert forall g :: g in s.free ==> g == f || g in s'.free by {
      forall g | g in s.free && g != f
        ensures g in s'.free
      {
        var k :| 0 <= k < |s.free| && s.free[k] == g;
        assert s'.free[k - 1] == g;
      }
    }
    SameHangs(s, s');
  }

  /** A frame that hangs nowhere may hold anything. */
  lemma FillKeeps(s: Vm, f: nat, x: Frame, s': Vm)
    requires Inv(s) && f in s.held && s' == s.(mem := s.mem[f := x])
    requires x.Table? ==> x == ZeroTable()
    ensures Inv(s') && (forall p :: Ref(s', p) == Ref(s, p)) && forall d: nat, n: nat ::
              PteAt(s', d, n) == PteAt(s, d, n)
  {
    forall d: nat, i: nat
      ensures TableOf(s', d, i) == TableOf(s, d, i)
    {
      assert d in s.dirs ==> Ref(s, Dir(d)) != f;
    }
    forall d: nat, n: nat
      ensures PteAt(s', d, n) == PteAt(s, d, n)
    {
      assert Ref(s, Tab(d, n / ENTRIES)) != f;
    }
    forall p
      ensures Ref(s', p) == Ref(s, p)
    {
    }
    forall t: nat, i: nat | !Entry(s', t, i).p
      ensures Entry(s', t, i) == ZERO_PTE
    {
      if t != f { assert Entry(s', t, i) == Entry(s, t, i); }
    }
    assert Frames(s');
    assert Solid(s') by {
      forall d: nat, i: nat | d in s.dirs
        ensures Entry(s', d, i) == Entry(s, d, i)
      {
        assert Ref(s, Dir(d)) != f;
      }
    }
    hide Ref, PteAt, Frames, Solid;
    SameHangs(s, s');
    assert forall g :: g in s'.mem <==> g in s.mem;
  }

  lemma GiveKeeps(s: Vm, f: nat, s': Vm)
    requires Inv(s) && f in s.held
    requires s' == s.(mem := s.mem[f := Junk()], free := [f] + s.free, held := s.held - {f})
    ensures Inv(s') && (forall p :: Ref(s', p) == Ref(s, p)) && forall d: nat, n: nat ::
              PteAt(s', d, n) == PteAt(s, d, n)
  {
    var s1 := s.(mem := s.mem[f := Junk()]);
    FillKeeps(s, f, Junk(), s1);
    SameEntries(s1, s');
    hide Ref, PteAt;
    SameHangs(s1, s');
    assert forall g :: g in s'.free <==> g == f || g in s.free;
    assert NoDup(s'.free) by {
      forall j, k | 0 <= j < k < |s'.free|
        ensures s'.free[j] != s'.free[k]
      {
        assert s'.free[k] == s.free[k - 1];
        if j > 0 { assert s'.free[j] == s.free[j - 1]; } else { assert s.free[k - 1] in s.free; }
      }
    }
  }

  // ----- hanging a frame and taking it down -----

  /** s' is s, with the held frame f now owned by p. */
  ghost predicate Hung(s: Vm, s': Vm, p: Place, f: nat) {
    && s'.mem.Keys == s.mem.Keys && s'.free == s.free && s'.held == s.held - {f} && 0 !in s'.dirs
    && (forall g :: g in s.mem ==> (s'.mem[g].Page? <==> s.mem[g].Page?))
    && (forall t: nat, i: nat :: !Entry(s', t, i).p ==> Entry(s', t, i) == ZERO_PTE) && Solid(s')
    && forall q :: Ref(s', q) == if q == p then f else Ref(s, q)
  }

  lemma HeldNotFree(s: Vm, f: nat)
    requires Frames(s) && f in s.held
    ensures f in s.mem && f !in s.free
  {
  }

  lemma ZeroNoFrame(s: Vm)
    requires Frames(s)
    ensures 0 !in s.mem
  {
  }

  lemma HungKeeps(s: Vm, s': Vm, p: Place, f: nat)
    requires Inv(s) && f in s.held && Ref(s, p) == 0 && Hung(s, s', p, f) && (s.mem[f].Page? <==> p.Pg?)
    ensures Inv(s')
  {
    hide Ref, Entry, Solid;
    assert Frames(s');
    hide Frames;
    forall q | Ref(s', q) != 0
      ensures Ref(s', q) in s'.mem && Ref(s', q) !in s'.held && Ref(s', q) !in s'.free
          && (s'.mem[Ref(s', q)].Page? <==> q.Pg?)
    {
      if q == p { HeldNotFree(s, f); }
    }
    forall q, r | q != r && Ref(s', q) != 0
      ensures Ref(s', q) != Ref(s', r)
    {
      if q == p && Ref(s, r) != 0 { assert Ref(s, r) != f; }
    }
    forall g | g in s'.mem
      ensures g in s'.free || g in s'.held || Hangs(s', g)
    {
      if g == f { assert Ref(s', p) == g; }
      if Hangs(s, g) {
        var q :| Ref(s, q) == g;
        if g != 0 { assert Ref(s', q) == g; }
      }
    }
    assert s'.mem.Keys == s.mem.Keys;
    ZeroNoFrame(s);
  }

  /** s' is s, with the frame of p taken down and held. */
  ghost predicate TakenDown(s: Vm, s': Vm, p: Place) {
    && s'.mem.Keys == s.mem.Keys && s'.free == s.free && s'.held == s.held + {Ref(s, p)} && 0 !in s'.dirs
    && (forall g :: g in s.mem ==> (s'.mem[g].Page? <==> s.mem[g].Page?))
    && (forall t: nat, i: nat :: !Entry(s', t, i).p ==> Entry(s', t, i) == ZERO_PTE) && Solid(s')
    && forall q :: Ref(s', q) == if q == p then 0 else Ref(s, q)
  }

  lemma TakenDownKeeps(s: Vm, s': Vm, p: Place)
    requires Inv(s) && Ref(s, p) != 0 && TakenDown(s, s', p)
    ensures Inv(s')
  {
    hide Ref, Entry, Solid;
    forall g | g in s'.mem
      ensures g in s'.free || g in s'.held || Hangs(s', g)
    {
      if Hangs(s, g) {
        var q :| Ref(s, q) == g;
        if q != p { assert Ref(s', q) == g; }
      }
    }
    assert s'.mem.Keys == s.mem.Keys;
  }

  // ----- the tables -----

  function SetEntry(s: Vm, t: nat, i: nat, x: Pte): Vm
    requires t in s.mem && s.mem[t].Table? && i < ENTRIES
  {
    s.(mem := s.mem[t := Table(s.mem[t].e[i := x])])
  }

  lemma EntrySet(s: Vm, t: nat, i: nat, x: Pte, t': nat, i': nat)
    requires t in s.mem && s.mem[t].Table? && i < ENTRIES
    ensures Entry(SetEntry(s, t, i, x), t', i') == if t' == t && i' == i then x else Entry(s, t', i')
  {
  }

  /** A live directory is a table, and so are the tables it points to. */
  lemma DirIsTable(s: Vm, d: nat)
    requires Inv(s) && d in s.dirs
    ensures d in s.mem && s.mem[d].Table? && d !in s.held && d != 0
  {
    assert Ref(s, Dir(d)) == d;
  }

  /** The table behind a virtual page is a live table, different from every directory. */
  lemma TabIsTable(s: Vm, d: nat, i: nat)
    requires Inv(s) && TableOf(s, d, i) != 0
    ensures TableOf(s, d, i) in s.mem && s.mem[TableOf(s, d, i)].Table? && TableOf(s, d, i) !in s.dirs
    ensures TableOf(s, d, i) !in s.held
  {
    assert Ref(s, Tab(d, i)) == TableOf(s, d, i);
    assert TableOf(s, d, i) in s.dirs ==> Ref(s, Dir(TableOf(s, d, i))) == TableOf(s, d, i);
  }

  lemma TabsDiffer(s: Vm, d: nat, i: nat, d': nat, i': nat)
    requires Inv(s) && TableOf(s, d, i) != 0 && (d, i) != (d', i')
    ensures TableOf(s, d, i) != TableOf(s, d', i')
  {
    assert Tab(d, i) != Tab(d', i');
    assert Ref(s, Tab(d, i)) == TableOf(s, d, i) && Ref(s, Tab(d', i')) == TableOf(s, d', i');
  }

  lemma TabIndex(s: Vm, d: nat, i: nat)
    ensures TableOf(s, d, i) != 0 ==> d in s.dirs && i < ENTRIES
  {
  }

  /** walkpgdir hangs a zeroed table into an empty directory entry: no page table entry changes. */
  lemma HangTable(s: Vm, d: nat, i: nat, t: nat, s': Vm)
    requires Inv(s) && d in s.dirs && i < ENTRIES && TableOf(s, d, i) == 0 && t in s.held && s.mem[t] == ZeroTable()
    requires d in s.mem && s.mem[d].Table? && s' == SetEntry(s, d, i, Pte(t, true, true, true)).(held := s.held - {t})
    ensures Inv(s') && OthersKept(s, s', d)
    ensures forall d': nat, i': nat :: TableOf(s', d', i') == if d' == d && i' == i then t else TableOf(s, d', i')
    ensures forall d': nat, n: nat :: PteAt(s', d', n) == PteAt(s, d', n)
  {
    DirIsTable(s, d);
    forall d': nat, i': nat
      ensures TableOf(s', d', i') == if d' == d && i' == i then t else TableOf(s, d', i')
    {
      EntrySet(s, d, i, Pte(t, true, true, true), d', i');
    }
    forall d': nat, n: nat
      ensures PteAt(s', d', n) == PteAt(s, d', n)
    {
      if d' == d && n / ENTRIES == i {
        assert Entry(s', t, n % ENTRIES) == ZERO_PTE;
      } else if TableOf(s, d', n / ENTRIES) != 0 {
        TabIsTable(s, d', n / ENTRIES);
      }
    }
    forall t': nat, i': nat
      ensures !Entry(s', t', i').p ==> Entry(s', t', i') == ZERO_PTE
    {
      EntrySet(s, d, i, Pte(t, true, true, true), t', i');
    }
    assert s'.mem.Keys == s.mem.Keys;
    HeldNotFree(s, t);
    assert Solid(s') by {
      forall d': nat, i': nat | d' in s.dirs
        ensures Entry(s', d', i').p ==> Entry(s', d', i').addr != 0 && Entry(s', d', i').w && Entry(s', d', i').u
      {
        EntrySet(s, d, i, Pte(t, true, true, true), d', i');
      }
    }
    hide Entry, PteAt, Solid;
    assert Hung(s, s', Tab(d, i), t);
    HungKeeps(s, s', Tab(d, i), t);
  }

  lemma SamePage(m: nat, n: nat)
    ensures m / ENTRIES == n / ENTRIES && m % ENTRIES == n % ENTRIES ==> m == n
  {
  }

  /** Setting one page table entry changes the entry of that virtual page and no other. */
  lemma SetPte(s: Vm, d: nat, n: nat, x: Pte, s': Vm)
    requires Inv(s) && TableOf(s, d, n / ENTRIES) != 0 && (!x.p ==> x == ZERO_PTE)
    requires var t := TableOf(s, d, n / ENTRIES); t in s.mem && s.mem[t].Table?
    requires s'.mem == SetEntry(s, TableOf(s, d, n / ENTRIES), n % ENTRIES, x).mem && s'.dirs == s.dirs
    ensures forall d': nat, i: nat :: TableOf(s', d', i) == TableOf(s, d', i)
    ensures forall d': nat, m: nat :: PteAt(s', d', m) == if d' == d && m == n then x else PteAt(s, d', m)
    ensures forall t: nat, i: nat :: !Entry(s', t, i).p ==> Entry(s', t, i) == ZERO_PTE
    ensures s'.mem.Keys == s.mem.Keys && forall g :: g in s.mem ==> (s'.mem[g].Page? <==> s.mem[g].Page?)
    ensures forall g :: g in s.mem && s.mem[g].Page? ==> s'.mem[g] == s.mem[g]
    ensures n >= USER || !x.p || x.addr != 0 ==> Solid(s')
  {
    var t := TableOf(s, d, n / ENTRIES);
    TabIsTable(s, d, n / ENTRIES);
    forall d': nat, i: nat
      ensures TableOf(s', d', i) == TableOf(s, d', i)
    {
      EntrySet(s, t, n % ENTRIES, x, d', i);
    }
    forall d': nat, m: nat
      ensures PteAt(s', d', m) == if d' == d && m == n then x else PteAt(s, d', m)
    {
      SamePage(m, n);
      EntrySet(s, t, n % ENTRIES, x, TableOf(s, d', m / ENTRIES), m % ENTRIES);
      if (d', m / ENTRIES) != (d, n / ENTRIES) { TabsDiffer(s, d, n / ENTRIES, d', m / ENTRIES); }
    }
    forall t': nat, i: nat
      ensures !Entry(s', t', i).p ==> Entry(s', t', i) == ZERO_PTE
    {
      EntrySet(s, t, n % ENTRIES, x, t', i);
    }
    forall d': nat, i: nat | d' in s.dirs
      ensures Entry(s', d', i) == Entry(s, d', i)
    {
      EntrySet(s, t, n % ENTRIES, x, d', i);
    }
  }

  /** The bytes of user memory follow from the entries and the pages. */
  ghost predicate SameBytes(s: Vm, s': Vm) {
    forall d: nat, a: nat :: a < USER * PGSIZE ==> ByteAt(s', d, a) == ByteAt(s, d, a)
  }

  /** Everything that user code can see is the same: the mappings and the bytes. */
  ghost predicate Alike(s: Vm, s': Vm) {
    && s'.dirs == s.dirs && s'.mem.Keys == s.mem.Keys
    && (forall d: nat, n: nat :: PteAt(s', d, n) == PteAt(s, d, n))
    && SameBytes(s, s')
  }

  lemma AlikeTwice(s: Vm, s1: Vm, s2: Vm)
    requires Alike(s, s1) && Alike(s1, s2)
    ensures Alike(s, s2)
  {
    hide PteAt, ByteAt;
  }

  lemma UserPage(s: Vm, d: nat, n: nat)
    requires Inv(s) && n < USER && PteAt(s, d, n).p
    ensures var f := PteAt(s, d, n).addr; f in s.mem && s.mem[f].Page? && f !in s.held && f !in s.free && f != 0
  {
    assert Ref(s, Pg(d, n)) == PteAt(s, d, n).addr;
  }

  lemma PagesKept(s: Vm, s': Vm)
    requires Inv(s) && forall d: nat, n: nat :: PteAt(s', d, n) == PteAt(s, d, n)
    requires forall g :: g in s.mem && g !in s.held && s.mem[g].Page? ==> g in s'.mem && s'.mem[g] == s.mem[g]
    ensures SameBytes(s, s')
  {
    forall d: nat, a: nat | a < USER * PGSIZE
      ensures ByteAt(s', d, a) == ByteAt(s, d, a)
    {
      if PteAt(s, d, a / PGSIZE).p { UserPage(s, d, a / PGSIZE); }
    }
  }

  lemma TakeAlike(s: Vm, s': Vm)
    requires Inv(s) && |s.free| > 0 && s' == s.(free := s.free[1..], held := s.held + {s.free[0]})
    ensures Inv(s') && Alike(s, s') && RefsKept(s, s') && s.free[0] in s'.held && s.free[0] !in s.held
        && s.free[0] in s.mem
  {
    TakeKeeps(s, s');
    PagesKept(s, s');
  }

  lemma FillAlike(s: Vm, f: nat, x: Frame, s': Vm)
    requires Inv(s) && f in s.held && s' == s.(mem := s.mem[f := x]) && (x.Table? ==> x == ZeroTable())
    ensures Inv(s') && Alike(s, s') && RefsKept(s, s')
  {
    FillKeeps(s, f, x, s');
    PagesKept(s, s');
    assert s'.mem.Keys == s.mem.Keys;
  }

  lemma GiveAlike(s: Vm, f: nat, s': Vm)
    requires Inv(s) && f in s.held
    requires s' == s.(mem := s.mem[f := Junk()], free := [f] + s.free, held := s.held - {f})
    ensures Inv(s') && Alike(s, s') && RefsKept(s, s')
  {
    GiveKeeps(s, f, s');
    PagesKept(s, s');
    assert s'.mem.Keys == s.mem.Keys;
  }

  lemma HangTableAlike(s: Vm, d: nat, i: nat, t: nat, s': Vm)
    requires Inv(s) && d in s.dirs && i < ENTRIES && TableOf(s, d, i) == 0 && t in s.held && s.mem[t] == ZeroTable()
    requires d in s.mem && s.mem[d].Table? && s' == SetEntry(s, d, i, Pte(t, true, true, true)).(held := s.held - {t})
    ensures Inv(s') && Alike(s, s') && OthersKept(s, s', d)
    ensures forall i': nat :: TableOf(s', d, i') == if i' == i then t else TableOf(s, d, i')
  {
    HangTable(s, d, i, t, s');
    PagesKept(s, s');
    assert s'.mem.Keys == s.mem.Keys;
  }

  // ----- hanging and dropping pages -----

  /** s' is s with the entry of page n of d set to x, and the bytes of that page as given. */
  ghost predicate PageSet(s: Vm, s': Vm, d: nat, n: nat, x: Pte, b: Bytes) {
    && s'.dirs == s.dirs && s'.mem.Keys == s.mem.Keys
    && (forall d': nat, m: nat :: PteAt(s', d', m) == if d' == d && m == n then x else PteAt(s, d', m))
    && forall d': nat, a: nat :: a < USER * PGSIZE ==>
         ByteAt(s', d', a) == if d' == d && a / PGSIZE == n then b[a % PGSIZE] else ByteAt(s, d', a)
  }

  lemma HangPage(s: Vm, d: nat, n: nat, x: Pte, s': Vm)
    requires Inv(s) && n < USER && PteAt(s, d, n) == ZERO_PTE && x.p && x.addr in s.held && s.mem[x.addr].Page?
    requires var t := TableOf(s, d, n / ENTRIES);
      t != 0 && t in s.mem && s.mem[t].Table? && s' == SetEntry(s, t, n % ENTRIES, x).(held := s.held - {x.addr})
    ensures Inv(s') && PageSet(s, s', d, n, x, s.mem[x.addr].b) && OthersKept(s, s', d)
    ensures forall i: nat :: TableOf(s', d, i) == TableOf(s, d, i)
  {
    var f := x.addr;
    HeldNotFree(s, f);
    SetPte(s, d, n, x, s');
    forall q
      ensures Ref(s', q) == if q == Pg(d, n) then f else Ref(s, q)
    {
    }
    HungKeeps(s, s', Pg(d, n), f);
    forall d': nat, a: nat | a < USER * PGSIZE
      ensures ByteAt(s', d', a) == if d' == d && a / PGSIZE == n then s.mem[f].b[a % PGSIZE] else ByteAt(s, d', a)
    {
      if PteAt(s, d', a / PGSIZE).p { UserPage(s, d', a / PGSIZE); }
    }
  }

  lemma DropPage(s: Vm, d: nat, n: nat, s': Vm)
    requires Inv(s) && n < USER && PteAt(s, d, n).p
    requires var t := TableOf(s, d, n / ENTRIES);
      t != 0 && t in s.mem && s.mem[t].Table?
          && s' == SetEntry(s, t, n % ENTRIES, ZERO_PTE).(held := s.held + {PteAt(s, d, n).addr})
    ensures Inv(s') && PageSet(s, s', d, n, ZERO_PTE, ZeroPage().b)
    ensures OthersKept(s, s', d)
  {
    SetPte(s, d, n, ZERO_PTE, s');
    UserPage(s, d, n);
    forall q
      ensures Ref(s', q) == if q == Pg(d, n) then 0 else Ref(s, q)
    {
    }
    assert Ref(s, Pg(d, n)) == PteAt(s, d, n).addr;
    TakenDownKeeps(s, s', Pg(d, n));
    forall d': nat, a: nat | a < USER * PGSIZE
      ensures ByteAt(s', d', a) == if d' == d && a / PGSIZE == n then 0 else ByteAt(s, d', a)
    {
      if PteAt(s, d', a / PGSIZE).p { UserPage(s, d', a / PGSIZE); }
    }
  }

  /** Kernel pages own nothing. */
  lemma MapKernelPage(s: Vm, d: nat, n: nat, x: Pte, s': Vm)
    requires Inv(s) && USER <= n && x.p
    requires var t := TableOf(s, d, n / ENTRIES);
              t != 0 && t in s.mem && s.mem[t].Table?
              && s' == SetEntry(s, t, n % ENTRIES, x)
    ensures Inv(s') && s'.dirs == s.dirs && s'.mem.Keys == s.mem.Keys && SameBytes(s, s') && RefsKept(s, s')
    ensures forall d': nat, m: nat :: PteAt(s', d', m) == if d' == d && m == n then x else PteAt(s, d', m)
  {
    SetPte(s, d, n, x, s');
    forall q
      ensures Ref(s', q) == Ref(s, q)
    {
    }
    SameHangs(s, s');
    forall d': nat, a: nat | a < USER * PGSIZE
      ensures ByteAt(s', d', a) == ByteAt(s, d', a)
    {
      if PteAt(s, d', a / PGSIZE).p { UserPage(s, d', a / PGSIZE); }
    }
    hide Ref, Entry, PteAt, Solid;
    assert Frames(s');
  }

  /** A store into a mapped page. */
  lemma WritePage(s: Vm, d: nat, n: nat, b: Bytes, s': Vm)
    requires Inv(s) && n < USER && PteAt(s, d, n).p && s' == s.(mem := s.mem[PteAt(s, d, n).addr := Page(b)])
    ensures Inv(s') && PageSet(s, s', d, n, PteAt(s, d, n), b) && RefsKept(s, s')
  {
    var f := PteAt(s, d, n).addr;
    UserPage(s, d, n);
    SameEntries(s, s');
    SameHangs(s, s');
    assert s'.mem.Keys == s.mem.Keys;
    forall d': nat, a: nat | a < USER * PGSIZE
      ensures ByteAt(s', d', a) == if d' == d && a / PGSIZE == n then b[a % PGSIZE] else ByteAt(s, d', a)
    {
      var m := a / PGSIZE;
      if PteAt(s, d', m).p && (d', m) != (d, n) {
        UserPage(s, d', m);
        assert Ref(s, Pg(d', m)) != Ref(s, Pg(d, n)) by { assert Pg(d', m) != Pg(d, n); }
      }
    }
  }

  // ----- directories -----

  lemma AddDir(s: Vm, d: nat, s': Vm)
    requires Inv(s) && d in s.held && s.mem[d] == ZeroTable() && s' == s.(dirs := s.dirs + {d}, held := s.held - {d})
    ensures Inv(s') && d !in s.dirs && SameBytes(s, s') && OthersKept(s, s', d)
    ensures forall d': nat, n: nat :: PteAt(s', d', n) == PteAt(s, d', n)
    ensures (forall n: nat :: PteAt(s', d, n) == ZERO_PTE) && forall i: nat :: TableOf(s', d, i) == 0
  {
    HeldNotFree(s, d);
    ZeroNoFrame(s);
    assert d in s.dirs ==> Ref(s, Dir(d)) == d;
    assert forall t: nat, i: nat :: Entry(s', t, i) == Entry(s, t, i);
    assert Solid(s') by {
      forall i: nat
        ensures !Entry(s', d, i).p
      {
      }
      assert forall d': nat, n: nat :: n < USER && PteAt(s', d', n).p ==>
          d' in s.dirs && PteAt(s, d', n) == PteAt(s', d', n);
    }
    forall d': nat, i: nat
      ensures TableOf(s', d', i) == TableOf(s, d', i)
    {
    }
    forall n: nat
      ensures PteAt(s', d, n) == ZERO_PTE
    {
    }
    forall q
      ensures Ref(s', q) == if q == Dir(d) then d else Ref(s, q)
    {
    }
    HungKeeps(s, s', Dir(d), d);
    PagesKept(s, s');
  }

  /** The tables that directory d points to, up to entry k. */
  ghost function Tables(s: Vm, d: nat, k: nat): (r: set<nat>)
    ensures forall f :: f in r <==> f != 0 && exists i: nat :: i < k && TableOf(s, d, i) == f
  {
    if k == 0 then {}
    else if TableOf(s, d, k - 1) == 0 then Tables(s, d, k - 1) else Tables(s, d, k - 1) + {TableOf(s, d, k - 1)}
  }

  lemma RetireEntries(s: Vm, d: nat, s': Vm)
    requires Inv(s) && d in s.dirs && forall n: nat :: n < USER ==> !PteAt(s, d, n).p
    requires s'.mem == s.mem && s'.dirs == s.dirs - {d}
    requires forall d': nat, i: nat :: TableOf(s', d', i) == if d' == d then 0 else TableOf(s, d', i)
    ensures forall d': nat, n: nat :: d' != d ==> PteAt(s', d', n) == PteAt(s, d', n)
    ensures forall n: nat :: PteAt(s', d, n) == ZERO_PTE
    ensures SameBytes(s, s') && Solid(s')
  {
    hide TableOf;
    assert forall t: nat, i: nat :: Entry(s', t, i) == Entry(s, t, i);
    forall n: nat
      ensures PteAt(s', d, n) == ZERO_PTE
    {
      assert 0 !in s.mem;
    }
  }

  /** The owner of a frame tells whether the frame goes with the directory. */
  lemma RetireRef(s: Vm, d: nat, q: Place)
    requires Inv(s) && d in s.dirs && Ref(s, q) != 0 && forall n: nat :: n < USER ==> !PteAt(s, d, n).p
    ensures Ref(s, q) in {d} + Tables(s, d, ENTRIES) <==> q.d == d
    ensures Ref(s, q) !in s.held
  {
    var f := Ref(s, q);
    assert Ref(s, Dir(d)) == d;
    if f in Tables(s, d, ENTRIES) {
      var i: nat :| i < ENTRIES && TableOf(s, d, i) == f;
      assert Ref(s, Tab(d, i)) == f;
    }
    if q.d == d {
      match q
      case Dir(_) =>
      case Tab(_, i) => TabIndex(s, d, i);
      case Pg(_, _) =>
    }
  }

  /** What the directory owned is held, what others own is not. */
  lemma RetireRefs(s: Vm, d: nat, s': Vm)
    requires Inv(s) && d in s.dirs && forall n: nat :: n < USER ==> !PteAt(s, d, n).p
    requires s'.mem == s.mem && s'.dirs == s.dirs - {d} && s'.held == s.held + {d} + Tables(s, d, ENTRIES)
    requires forall d': nat, i: nat :: TableOf(s', d', i) == if d' == d then 0 else TableOf(s, d', i)
    requires forall d': nat, n: nat :: d' != d ==> PteAt(s', d', n) == PteAt(s, d', n)
    requires forall n: nat :: PteAt(s', d, n) == ZERO_PTE
    ensures forall q :: Ref(s, q) != 0 ==> if Ref(s, q) in s'.held then Ref(s', q) == 0 else Ref(s', q) == Ref(s, q)
    ensures forall q :: Ref(s, q) == 0 ==> Ref(s', q) == 0
    ensures forall f :: f in s'.held ==> f in s.held || exists q :: Ref(s, q) == f != 0
  {
    hide PteAt, TableOf;
    assert Ref(s, Dir(d)) == d;
    forall f | f in Tables(s, d, ENTRIES)
      ensures exists i: nat :: Ref(s, Tab(d, i)) == f
    {
      var i: nat :| i < ENTRIES && TableOf(s, d, i) == f;
      assert Ref(s, Tab(d, i)) == f;
    }
    forall q | Ref(s, q) != 0
      ensures if Ref(s, q) in s'.held then Ref(s', q) == 0 else Ref(s', q) == Ref(s, q)
    {
      RetireRef(s, d, q);
    }
  }

  lemma RetireFrames(s: Vm, d: nat, s': Vm)
    requires Inv(s) && d in s.dirs && s' == s.(dirs := s.dirs - {d}, held := s'.held)
    requires forall f :: f in s'.held ==> f in s.held || exists q :: Ref(s, q) == f != 0
    ensures Frames(s')
  {
    hide Ref;
    assert forall t: nat, i: nat :: Entry(s', t, i) == Entry(s, t, i);
  }

  /** A directory without user pages is taken apart: its tables and itself are then held by freevm. */
  lemma Retire(s: Vm, d: nat, s': Vm)
    requires Inv(s) && d in s.dirs && forall n: nat :: n < USER ==> !PteAt(s, d, n).p
    requires s' == s.(dirs := s.dirs - {d}, held := s.held + {d} + Tables(s, d, ENTRIES))
    ensures Inv(s') && SameBytes(s, s')
    ensures forall d': nat, n: nat :: d' != d ==> PteAt(s', d', n) == PteAt(s, d', n)
    ensures forall n: nat :: PteAt(s', d, n) == ZERO_PTE
    ensures OthersKept(s, s', d)
  {
    forall d': nat, i: nat
      ensures TableOf(s', d', i) == if d' == d then 0 else TableOf(s, d', i)
    {
    }
    RetireEntries(s, d, s');
    RetireRefs(s, d, s');
    hide Ref, PteAt, Entry, Tables;
    RetireFrames(s, d, s');
    forall f | f in s'.mem
      ensures f in s'.free || f in s'.held || Hangs(s', f)
    {
      if f !in s'.held && Hangs(s, f) {
        var q :| Ref(s, q) == f;
        assert Ref(s', q) == f;
      }
    }
  }

  // ----- conservation -----

  lemma {:induction false} OnceIn(q: seq<nat>, f: nat)
    requires NoDup(q) && f in q
    ensures multiset(q)[f] == 1
  {
    assert q == [q[0]] + q[1..];
    if q[0] == f {
      assert forall k :: 0 <= k < |q[1..]| ==> q[1..][k] == q[k + 1];
      assert f !in q[1..];
    } else {
      OnceIn(q[1..], f);
    }
  }

  /** A call that removes directory d, keeps every other reference and what is held, has returned to the free
      list exactly the frames that d owned, each of them once. */
  lemma FreedExactly(s: Vm, s': Vm, d: nat)
    requires Inv(s) && Inv(s') && s'.mem.Keys == s.mem.Keys && s'.held == s.held
    requires d in s.dirs && s'.dirs == s.dirs - {d}
    requires OthersKept(s, s', d)
    ensures forall f :: f in s'.free <==> f in s.free || (f != 0 && exists q: Place :: q.d == d && Ref(s, q) == f)
    ensures forall f :: f in s'.free ==> multiset(s'.free)[f] == 1
  {
    forall q: Place | q.d == d
      ensures Ref(s', q) == 0
    {
    }
    hide Ref;
    ZeroNoFrame(s);
    forall f | f != 0 && Hangs(s', f)
      ensures Hangs(s, f)
    {
      var q :| Ref(s', q) == f;
      assert q.d != d && Ref(s, q) == f;
    }
    forall f | f in s.mem
      ensures f in s'.free <==> f in s.free || (f != 0 && exists q: Place :: q.d == d && Ref(s, q) == f)
    {
      if Hangs(s, f) && f !in s.free {
        var q :| Ref(s, q) == f;
        if q.d != d { assert Ref(s', q) == f; }
      }
    }
    forall f | f in s'.free
      ensures multiset(s'.free)[f] == 1
    {
      OnceIn(s'.free, f);
    }
  }
}
