/** Demand paging: growproc changes only the size, and the page fault branch of trap hangs a zeroed page when
    an address below the size is touched.  Programs cannot tell this from flat memory. */
module VmPaging {
  import opened Octets
  import opened VmSpec
  import opened VmCode
  import opened VmSpace
  import opened VmGrow

  // ----- flat memory -----

  /** The memory of one process as its program sees it, with the pages that are closed to the program. */
  datatype Space = Space(bytes: seq<byte>, guard: set<nat>)

  datatype Op = Sbrk(d: nat, n: nat) | Load(d: nat, a: nat) | Store(d: nat, a: nat, v: byte) | Fork(d: nat)

  datatype Answer = Resized | Value(b: byte) | Stored | Killed | Child(c: nat)

  type Flat = map<nat, Space>

  predicate Legal(f: Flat, op: Op) {
    && op.d in f
    && match op
       case Sbrk(d, n) => |f[d].bytes| + n <= USER * PGSIZE
       case Load(d, a) => a < |f[d].bytes|
       case Store(d, a, v) => a < |f[d].bytes|
       case Fork(d) => true
  }

  /** What flat memory may answer. */
  predicate Answers(f: Flat, op: Op, x: Answer)
    requires Legal(f, op)
  {
    match op
    case Sbrk(d, n) => x == Resized
    case Load(d, a) => x == if a / PGSIZE in f[d].guard then Killed else Value(f[d].bytes[a])
    case Store(d, a, v) => x == if a / PGSIZE in f[d].guard then Killed else Stored
    case Fork(d) => x.Child? && x.c !in f
  }

  function Zeros(n: nat): seq<byte> {
    seq(n, i => 0)
  }

  /** What flat memory becomes: sbrk adds zeros, a store changes one byte of one process, fork copies. */
  function Next(f: Flat, op: Op, x: Answer): Flat
    requires Legal(f, op) && Answers(f, op, x)
  {
    match op
    case Sbrk(d, n) => f[d := f[d].(bytes := f[d].bytes + Zeros(n))]
    case Load(d, a) => f
    case Store(d, a, v) => if x == Killed then f else f[d := f[d].(bytes := f[d].bytes[a := v])]
    case Fork(d) => f[x.c := f[d]]
  }

  // ----- paged memory that stands for flat memory -----

  /** Directory d with size sz stands for the space x: absent pages stand for zeros, and only pages below the
      size are present. */
  ghost predicate Shows(s: Vm, d: nat, sz: nat, x: Space) {
    && d in s.dirs && sz == |x.bytes| <= USER * PGSIZE
    && (forall a: nat :: a < USER * PGSIZE ==> ByteAt(s, d, a) == if a < sz then x.bytes[a] else 0)
    && (forall n: nat :: n < USER && PteAt(s, d, n).p ==>
        n < Up(sz) && PteAt(s, d, n).w && (PteAt(s, d, n).u <==> n !in x.guard))
    && forall n: nat :: n in x.guard && n < USER ==> PteAt(s, d, n).p
  }

  ghost predicate Rep(s: Vm, sizes: map<nat, nat>, f: Flat) {
    sizes.Keys == f.Keys && forall d: nat :: d in f ==> Shows(s, d, sizes[d], f[d])
  }

  // ----- the page fault -----

  /** NullTable: walkpgdir found no frame for the table, and trap reads through its null result.  NullFrame:
      there is no frame for the page, and trap clears memory at the null result of kalloc. */
  datatype Fault = Served | Dead | NullTable | NullFrame

  lemma HereOnly(s: Vm, d: nat, n: nat, k: nat, res: Outcome)
    requires !PteAt(s, d, n).p && (res == Panic ==> k < 1 && PteAt(s, d, n + k).p)
    ensures res != Panic
  {
    hide PteAt;
    assert res == Panic ==> n + k == n;
  }

  /** The T_PGFLT branch of trap for address a: walkpgdir makes the table, and a zero entry below the size gets
      a zeroed page; anything else kills the process. */
  method PageFault(kern: Kernel, d: nat, sz: nat, a: nat) returns (res: Fault)
    requires kern.Ok() && d in kern.dirs && sz <= USER * PGSIZE && a < PAGES * PGSIZE
    modifies kern
    ensures kern.Ok() && OthersKept(old(kern.V()), kern.V(), d)
    ensures var n := a / PGSIZE; var i := n / ENTRIES;
      var empty := n * PGSIZE < sz && !old(PteAt(kern.V(), d, n)).p;
      var need := if old(TableOf(kern.V(), d, i)) == 0 then 1 else 0;
      && (res == NullTable <==> |old(kern.free)| < need)
      && (res == NullFrame <==> empty && |old(kern.free)| == need)
      && (res == Served <==> empty && |old(kern.free)| > need)
      && (res == Served ==> Grown(old(kern.V()), kern.V(), d, n, n + 1) && |kern.free| + need + 1 == |old(kern.free)|)
      && (res == Dead ==> |kern.free| + need == |old(kern.free)|)
      && (res != NullTable ==> TableOf(kern.V(), d, i) != 0)
      && TabsKept(old(kern.V()), kern.V(), d, i, i + 1)
    ensures res != Served ==> Alike(old(kern.V()), kern.V())
  {
    hide Inv, Mapping, Ended, Missing, PteAt, ByteAt, OthersKept, RefsKept, Ref, Mapped, Alike, Grown, TableOf;
    ghost var s := kern.V();
    AlikeSelf(s);
    var n := a / PGSIZE;
    GrownNone(s, d, n);
    var t := kern.Walkpgdir(d, n, true);
    if t == 0 { return NullTable; }
    ghost var s1 := kern.V();
    AlikePte(s, s1, d, n);
    EntryIsPte(s1, d, n);
    if !PteAt(s1, d, n).p { AbsentIsZero(s1, d, n); }
    if n * PGSIZE < sz && kern.mem[t].e[n % ENTRIES] == ZERO_PTE {
      var f := kern.Kalloc();
      ghost var s2 := kern.V();
      AlikeTwice(s, s1, s2);
      RefsKeptOthers(s1, s2, d);
      OthersKeptTwice(s, s1, s2, d);
      if f == 0 { return NullFrame; }
      kern.FillFrame(f, ZeroPage());
      ghost var s3 := kern.V();
      AlikeTwice(s, s2, s3);
      AlikeParts(s, s3);
      AlikePte(s, s3, d, n);
      RefsKeptOthers(s2, s3, d);
      OthersKeptTwice(s, s2, s3, d);
      OneTable(s3, d, n);
      ghost var k: nat;
      var made;
      made, k := kern.Mappages(d, n, 1, f, true, true);
      MappingEnds(s3, kern.V(), d, n, 1, made, k, f, true, true);
      HereOnly(s3, d, n, k, made);
      OthersKeptTwice(s, s3, kern.V(), d);
      GrownNext(s, s, s3, kern.V(), d, n, n, f);
      return Served;
    }
    return Dead;
  }

  // ----- loads and stores -----

  /** The processor's walk of the page tables: what one of the two entries forbids is forbidden. */
  method Translate(kern: Kernel, d: nat, n: nat) returns (e: Pte)
    requires kern.Ok() && d in kern.dirs && n < USER
    ensures e == PteAt(kern.V(), d, n) && (e.p ==> e.addr in kern.mem && kern.mem[e.addr].Page?)
  {
    DirIsTable(kern.V(), d);
    var x := kern.mem[d].e[n / ENTRIES];
    if !x.p { return ZERO_PTE; }
    PresentTable(kern.V(), d, n / ENTRIES);
    e := kern.mem[x.addr].e[n % ENTRIES];
    e := e.(w := x.w && e.w, u := x.u && e.u);
    if e.p { UserPage(kern.V(), d, n); }
  }

  /** The frames that an access to page n takes. */
  ghost function Needs(tables: set<nat>, pages: set<nat>, n: nat): nat {
    if n in pages then 0 else if n / ENTRIES in tables then 1 else 2
  }

  /** Page n of d is there, with its table, and nothing else has come or gone. */
  ghost predicate PageThere(s: Vm, s': Vm, d: nat, n: nat) {
    && OthersKept(s, s', d)
    && TabsOf(s', d) == TabsOf(s, d) + {n / ENTRIES} && PagesOf(s', d) == PagesOf(s, d) + {n}
    && |s'.free| + Needs(TabsOf(s, d), PagesOf(s, d), n) == |s.free|
  }

  lemma NeedsMeans(s: Vm, d: nat, n: nat)
    requires Inv(s) && n < USER
    ensures PteAt(s, d, n).p ==> TableOf(s, d, n / ENTRIES) != 0
    ensures Needs(TabsOf(s, d), PagesOf(s, d), n)
              == if PteAt(s, d, n).p then 0 else if TableOf(s, d, n / ENTRIES) != 0 then 1 else 2
  {
    ZeroNoFrame(s);
  }

  lemma ThereAlready(s: Vm, d: nat, n: nat)
    requires Inv(s) && n < USER && PteAt(s, d, n).p
    ensures PageThere(s, s, d, n)
  {
    NeedsMeans(s, d, n);
    hide Inv, PteAt, TableOf;
    AlikeSelf(s);
    assert n / ENTRIES in TabsOf(s, d) && n in PagesOf(s, d);
  }

  lemma ServedThere(s: Vm, s': Vm, d: nat, n: nat)
    requires Inv(s) && n < USER && Grown(s, s', d, n, n + 1) && OthersKept(s, s', d)
    requires TabsKept(s, s', d, n / ENTRIES, n / ENTRIES + 1) && TableOf(s', d, n / ENTRIES) != 0
    requires |s'.free| + (if TableOf(s, d, n / ENTRIES) == 0 then 2 else 1) == |s.free|
    ensures PageThere(s, s', d, n) && SameBytes(s, s') && s'.dirs == s.dirs && !PteAt(s, d, n).p
    ensures PteAt(s', d, n).p && PteAt(s', d, n).u && PteAt(s', d, n).w
    ensures forall d': nat, m: nat :: !(d' == d && m == n) ==> PteAt(s', d', m) == PteAt(s, d', m)
  {
    hide Inv, PteAt, TableOf, OthersKept, ByteAt;
    assert !PteAt(s, d, n).p;
    NeedsMeans(s, d, n);
    assert PagesOf(s', d) == PagesOf(s, d) + {n};
    assert TabsOf(s', d) == TabsOf(s, d) + {n / ENTRIES};
  }

  lemma AlikeAll(s: Vm, s': Vm)
    requires Alike(s, s')
    ensures SameBytes(s, s') && s'.dirs == s.dirs && forall d: nat, n: nat :: PteAt(s', d, n) == PteAt(s, d, n)
  {
    hide PteAt, ByteAt;
  }

  lemma DeadThere(s: Vm, s': Vm, d: nat, n: nat)
    requires Inv(s) && n < USER && PteAt(s, d, n).p && Alike(s, s') && OthersKept(s, s', d)
    requires TabsKept(s, s', d, n / ENTRIES, n / ENTRIES + 1) && TableOf(s', d, n / ENTRIES) != 0
    requires |s'.free| + (if TableOf(s, d, n / ENTRIES) == 0 then 1 else 0) == |s.free|
    ensures PageThere(s, s', d, n)
  {
    NeedsMeans(s, d, n);
    hide Inv, PteAt, TableOf, OthersKept;
    assert PagesOf(s', d) == PagesOf(s, d);
    assert n / ENTRIES in TabsOf(s, d) && n in PagesOf(s, d);
    assert TabsOf(s', d) == TabsOf(s, d) + {n / ENTRIES};
  }

  /** A user access below the size, retried after the fault handler: a closed page kills. */
  method Touch(kern: Kernel, d: nat, sz: nat, a: nat) returns (e: Pte, res: Fault)
    requires kern.Ok() && d in kern.dirs && a < sz <= USER * PGSIZE
    modifies kern
    ensures kern.Ok() && SameBytes(old(kern.V()), kern.V()) && kern.dirs == old(kern.dirs)
    ensures res == NullTable || res == NullFrame <==>
              |old(kern.free)| < Needs(old(TabsOf(kern.V(), d)), old(PagesOf(kern.V(), d)), a / PGSIZE)
    ensures var x := old(PteAt(kern.V(), d, a / PGSIZE));
      (res == Dead <==> x.p && !(x.u && x.w)) && (x.p ==> PteAt(kern.V(), d, a / PGSIZE) == x)
    ensures res == Served ==> e == PteAt(kern.V(), d, a / PGSIZE) && e.p && e.u && e.w
                              && e.addr in kern.mem && kern.mem[e.addr].Page?
    ensures res == Served || res == Dead ==> PageThere(old(kern.V()), kern.V(), d, a / PGSIZE)
    ensures forall d': nat, n: nat :: PteAt(kern.V(), d', n) == old(PteAt(kern.V(), d', n)) ||
              (d' == d && n == a / PGSIZE && PteAt(kern.V(), d', n).p && PteAt(kern.V(), d', n).u
               && PteAt(kern.V(), d', n).w)
  {
    hide Inv, PteAt, ByteAt, OthersKept, RefsKept, TableOf, Alike, Grown, PageThere, TabsOf, PagesOf, Needs, TabsKept;
    ghost var s := kern.V();
    var n := a / PGSIZE;
    AlikeSelf(s);
    e := Translate(kern, d, n);
    res := Served;
    NeedsMeans(s, d, n);
    if e.p { ThereAlready(s, d, n); }
    if !(e.p && e.u && e.w) {
      res := PageFault(kern, d, sz, a);
      if res == Served {
        ServedThere(s, kern.V(), d, n);
        e := Translate(kern, d, n);
      } else {
        AlikeAll(s, kern.V());
        if res == Dead { DeadThere(s, kern.V(), d, n); }
      }
    }
  }

  /** NoMemory: the fault handler ran out of frames. */
  datatype Access = Got(x: Answer) | NoMemory

  /** Below the size, the page of an address is closed exactly when it is a guard page. */
  lemma ShowsPage(s: Vm, d: nat, sz: nat, x: Space, a: nat)
    requires Shows(s, d, sz, x) && a < sz
    ensures d in s.dirs && a / PGSIZE * PGSIZE < sz && sz == |x.bytes|
    ensures a / PGSIZE in x.guard <==>
              PteAt(s, d, a / PGSIZE).p
              && !(PteAt(s, d, a / PGSIZE).u && PteAt(s, d, a / PGSIZE).w)
  {
    hide PteAt, ByteAt;
    assert a / PGSIZE < USER;
  }

  /** Hanging a zeroed page below the size shows nothing new. */
  lemma TouchShows(s: Vm, s': Vm, d: nat, sz: nat, a: nat, d': nat, sz': nat, y: Space)
    requires Shows(s, d', sz', y) && SameBytes(s, s') && s'.dirs == s.dirs && (d' == d ==> sz' == sz)
    requires a < USER * PGSIZE
        && (d' == d ==> (a / PGSIZE in y.guard ==> PteAt(s, d, a / PGSIZE) == PteAt(s', d, a / PGSIZE)))
    requires a < sz
    requires forall c: nat, n: nat :: PteAt(s', c, n) == PteAt(s, c, n) ||
               (c == d && n == a / PGSIZE && PteAt(s', c, n).p && PteAt(s', c, n).u && PteAt(s', c, n).w)
    ensures Shows(s', d', sz', y)
  {
    hide PteAt, ByteAt;
    UpMeans(a / PGSIZE, sz);
    hide Up;
  }

  lemma ByteOf(s: Vm, d: nat, a: nat)
    requires var e := PteAt(s, d, a / PGSIZE); e.p && e.addr in s.mem && s.mem[e.addr].Page?
    ensures ByteAt(s, d, a) == s.mem[PteAt(s, d, a / PGSIZE).addr].b[a % PGSIZE]
  {
  }

  lemma ShowsByte(s: Vm, d: nat, sz: nat, x: Space, a: nat)
    requires Shows(s, d, sz, x) && a < sz
    ensures ByteAt(s, d, a) == x.bytes[a]
  {
    hide PteAt, ByteAt;
  }

  method LoadByte(kern: Kernel, d: nat, sz: nat, a: nat, ghost x: Space) returns (res: Access)
    requires kern.Ok() && sz <= USER * PGSIZE && a < sz && Shows(kern.V(), d, sz, x)
    modifies kern
    ensures kern.Ok()
    ensures res == NoMemory <==>
              |old(kern.free)| < Needs(old(TabsOf(kern.V(), d)), old(PagesOf(kern.V(), d)), a / PGSIZE)
    ensures res != NoMemory ==> PageThere(old(kern.V()), kern.V(), d, a / PGSIZE)
    ensures res != NoMemory ==> res == Got(if a / PGSIZE in x.guard then Killed else Value(x.bytes[a]))
    ensures forall d': nat, sz': nat, y: Space ::
              (d' == d ==> sz' == sz && y == x) && Shows(old(kern.V()), d', sz', y) ==> Shows(kern.V(), d', sz', y)
  {
    hide Inv, PteAt, ByteAt, Shows, PageThere, Needs, TabsOf, PagesOf;
    ghost var s := kern.V();
    ShowsPage(s, d, sz, x, a);
    var e, fault := Touch(kern, d, sz, a);
    forall d': nat, sz': nat, y: Space | (d' == d ==> sz' == sz && y == x) && Shows(s, d', sz', y)
      ensures Shows(kern.V(), d', sz', y)
    {
      TouchShows(s, kern.V(), d, sz, a, d', sz', y);
    }
    if fault == NullTable || fault == NullFrame { return NoMemory; }
    if fault == Dead { return Got(Killed); }
    ByteOf(kern.V(), d, a);
    ShowsByte(kern.V(), d, sz, x, a);
    res := Got(Value(kern.mem[e.addr].b[a % PGSIZE]));
  }

  lemma WrittenThere(s: Vm, s1: Vm, s2: Vm, d: nat, n: nat, e: Pte, b: Bytes)
    requires PageThere(s, s1, d, n) && RefsKept(s1, s2) && s2.free == s1.free && PageSet(s1, s2, d, n, e, b)
    requires e == PteAt(s1, d, n)
    ensures PageThere(s, s2, d, n)
  {
    RefsKeptOthers(s1, s2, d);
    OthersKeptTwice(s, s1, s2, d);
    hide PteAt, TableOf, OthersKept, ByteAt;
    assert TabsOf(s2, d) == TabsOf(s1, d);
    assert PagesOf(s2, d) == PagesOf(s1, d);
  }

  lemma PageSetParts(s: Vm, s': Vm, d: nat, n: nat, x: Pte, b: Bytes)
    requires PageSet(s, s', d, n, x, b)
    ensures s'.mem.Keys == s.mem.Keys && s'.dirs == s.dirs
  {
  }

  lemma OtherShows(s: Vm, s': Vm, d: nat, n: nat, e: Pte, b: Bytes, d': nat, sz': nat, y: Space)
    requires PageSet(s, s', d, n, e, b) && d' != d && Shows(s, d', sz', y)
    ensures Shows(s', d', sz', y)
  {
    hide PteAt, ByteAt, Up;
  }

  lemma SameSpot(a: nat, c: nat)
    ensures a / PGSIZE == c / PGSIZE && a % PGSIZE == c % PGSIZE ==> a == c
  {
  }

  lemma StoreShows(s: Vm, s': Vm, d: nat, sz: nat, a: nat, v: byte, x: Space)
    requires Shows(s, d, sz, x) && a < sz
    requires var e := PteAt(s, d, a / PGSIZE);
      e.p && e.addr in s.mem && s.mem[e.addr].Page?
          && PageSet(s, s', d, a / PGSIZE, e, s.mem[e.addr].b[a % PGSIZE := v])
    ensures Shows(s', d, sz, x.(bytes := x.bytes[a := v]))
  {
    var n, e := a / PGSIZE, PteAt(s, d, a / PGSIZE);
    forall c: nat | c < USER * PGSIZE
      ensures ByteAt(s', d, c) == if c == a then v else ByteAt(s, d, c)
    {
      if c / PGSIZE == n {
        ByteOf(s, d, c);
        SameSpot(a, c);
      }
    }
    hide PteAt, ByteAt, Up;
  }

  method StoreByte(kern: Kernel, d: nat, sz: nat, a: nat, v: byte, ghost x: Space) returns (res: Access)
    requires kern.Ok() && sz <= USER * PGSIZE && a < sz && Shows(kern.V(), d, sz, x)
    modifies kern
    ensures kern.Ok()
    ensures res == NoMemory <==>
              |old(kern.free)| < Needs(old(TabsOf(kern.V(), d)), old(PagesOf(kern.V(), d)), a / PGSIZE)
    ensures res != NoMemory ==> PageThere(old(kern.V()), kern.V(), d, a / PGSIZE)
    ensures res != NoMemory ==> res == Got(if a / PGSIZE in x.guard then Killed else Stored)
    ensures Shows(kern.V(), d, sz, if res == Got(Stored) then x.(bytes := x.bytes[a := v]) else x)
    ensures forall d': nat, sz': nat, y: Space :: d' != d && Shows(old(kern.V()), d', sz', y) ==>
              Shows(kern.V(), d', sz', y)
  {
    hide Inv, PteAt, ByteAt, Shows, PageSet, PageThere, Needs, TabsOf, PagesOf, RefsKept;
    ghost var s := kern.V();
    ShowsPage(s, d, sz, x, a);
    var e, fault := Touch(kern, d, sz, a);
    ghost var s1 := kern.V();
    forall d': nat, sz': nat, y: Space | (d' == d ==> sz' == sz && y == x) && Shows(s, d', sz', y)
      ensures Shows(s1, d', sz', y)
    {
      TouchShows(s, s1, d, sz, a, d', sz', y);
    }
    if fault == NullTable || fault == NullFrame { return NoMemory; }
    if fault == Dead { return Got(Killed); }
    var b := kern.mem[e.addr].b[a % PGSIZE := v];
    kern.mem := kern.mem[e.addr := Page(b)];
    WritePage(s1, d, a / PGSIZE, b, kern.V());
    WrittenThere(s, s1, kern.V(), d, a / PGSIZE, e, b);
    HeldInMem(s1);
    PageSetParts(s1, kern.V(), d, a / PGSIZE, e, b);
    forall d': nat, sz': nat, y: Space | d' != d && Shows(s1, d', sz', y)
      ensures Shows(kern.V(), d', sz', y)
    {
      OtherShows(s1, kern.V(), d, a / PGSIZE, e, b, d', sz', y);
    }
    StoreShows(s1, kern.V(), d, sz, a, v, x);
    res := Got(Stored);
  }
}
