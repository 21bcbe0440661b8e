/** The trees of blocks behind one inode pointer: a data block (level 0), an indirect block (1), a
    doubly (2) or a triply (3) indirect block. */
module DiskTree {
  import opened Octets
  import opened DiskBytes

  datatype Tree = Leaf(at: nat, data: Blk) | Node(at: nat, kids: seq<Tree>)

  /** The image holds this tree: pointers in order, then zero in every unused entry. */
  ghost predicate Stored(v: seq<Blk>, t: Tree) {
    0 < t.at < |v| &&
    match t
    case Leaf(at, data) => v[at] == data
    case Node(at, kids) =>
      && |kids| <= ENTRIES
      && (forall j :: 0 <= j < |kids| ==> Entry(v[at], j) == kids[j].at && Stored(v, kids[j]))
      && (forall j :: |kids| <= j < ENTRIES ==> Entry(v[at], j) == 0)
  }

  ghost predicate AllStored(v: seq<Blk>, ts: seq<Tree>) {
    forall j :: 0 <= j < |ts| ==> Stored(v, ts[j])
  }

  ghost function FootAll(ts: seq<Tree>): set<nat> {
    if ts == [] then {} else FootAll(ts[..|ts| - 1]) + Foot(ts[|ts| - 1])
  }

  ghost function Foot(t: Tree): set<nat> {
    match t
    case Leaf(at, _) => {at}
    case Node(at, kids) => {at} + FootAll(kids)
  }

  ghost predicate AllSeparate(ts: seq<Tree>) {
    ts == [] ||
    (AllSeparate(ts[..|ts| - 1]) && Separate(ts[|ts| - 1]) && FootAll(ts[..|ts| - 1]) !! Foot(ts[|ts| - 1]))
  }

  /** No block is used twice. */
  ghost predicate Separate(t: Tree) {
    match t
    case Leaf(_, _) => true
    case Node(at, kids) => at !in FootAll(kids) && AllSeparate(kids)
  }

  ghost function BytesAll(ts: seq<Tree>): seq<byte> {
    if ts == [] then [] else BytesAll(ts[..|ts| - 1]) + Bytes(ts[|ts| - 1])
  }

  /** The file bytes below a tree, in the order the walkers visit them. */
  ghost function Bytes(t: Tree): seq<byte> {
    match t
    case Leaf(_, data) => data
    case Node(_, kids) => BytesAll(kids)
  }

  /** n * c as repeated addition. */
  function Times(n: nat, c: nat): nat {
    if n == 0 then 0 else Times(n - 1, c) + c
  }

  /** How many bytes fit below a pointer of level h. */
  function Cap(h: nat): nat {
    if h == 0 then BLOCK_SZ else Times(ENTRIES, Cap(h - 1))
  }

  /** A tree of level h whose index blocks all have an entry and are filled from the left. */
  ghost predicate Shape(t: Tree, h: nat)
    decreases t
  {
    match t
    case Leaf(_, _) => h == 0
    case Node(_, kids) =>
      && h > 0 && 0 < |kids| <= ENTRIES
      && (forall j :: 0 <= j < |kids| ==> Shape(kids[j], h - 1))
      && (forall j :: 0 <= j < |kids| - 1 ==> |Bytes(kids[j])| == Cap(h - 1))
  }

  ghost predicate AllShape(ts: seq<Tree>, h: nat) {
    && (forall j :: 0 <= j < |ts| ==> Shape(ts[j], h))
    && (forall j :: 0 <= j < |ts| - 1 ==> |Bytes(ts[j])| == Cap(h))
  }

  // ----- lemmas -----

  lemma FootHolds(ts: seq<Tree>, j: nat)
    requires j < |ts|
    ensures Foot(ts[j]) <= FootAll(ts)
  {
    if j < |ts| - 1 {
      FootHolds(ts[..|ts| - 1], j);
    }
  }

  lemma {:induction false} FootAllInRange(v: seq<Blk>, ts: seq<Tree>)
    requires AllStored(v, ts)
    ensures forall b :: b in FootAll(ts) ==> 0 < b < |v|
  {
    if ts != [] {
      FootAllInRange(v, ts[..|ts| - 1]);
      FootInRange(v, ts[|ts| - 1]);
    }
  }

  lemma {:induction false} FootInRange(v: seq<Blk>, t: Tree)
    requires Stored(v, t)
    ensures t.at in Foot(t)
    ensures forall b :: b in Foot(t) ==> 0 < b < |v|
  {
    match t
    case Leaf(_, _) =>
    case Node(_, kids) => FootAllInRange(v, kids);
  }

  /** Writes outside the footprint of a tree do not change it. */
  lemma {:induction false} StoredFrame(v: seq<Blk>, v': seq<Blk>, t: Tree)
    requires Stored(v, t) && |v'| == |v|
    requires forall b :: b in Foot(t) && b < |v| ==> v'[b] == v[b]
    ensures Stored(v', t)
  {
    match t
    case Leaf(at, _) => assert at in Foot(t);
    case Node(at, kids) =>
      assert at in Foot(t);
      forall j | 0 <= j < |kids|
        ensures Stored(v', kids[j])
      {
        FootHolds(kids, j);
        StoredFrame(v, v', kids[j]);
      }
  }

  lemma AllStoredFrame(v: seq<Blk>, v': seq<Blk>, ts: seq<Tree>)
    requires AllStored(v, ts) && |v'| == |v|
    requires forall b :: b in FootAll(ts) && b < |v| ==> v'[b] == v[b]
    ensures AllStored(v', ts)
  {
    forall j | 0 <= j < |ts|
      ensures Stored(v', ts[j])
    {
      FootHolds(ts, j);
      StoredFrame(v, v', ts[j]);
    }
  }

  lemma Append(ts: seq<Tree>, t: Tree)
    ensures FootAll(ts + [t]) == FootAll(ts) + Foot(t)
    ensures BytesAll(ts + [t]) == BytesAll(ts) + Bytes(t)
    ensures AllSeparate(ts + [t]) <==> AllSeparate(ts) && Separate(t) && FootAll(ts) !! Foot(t)
  {
    assert (ts + [t])[..|ts|] == ts;
  }

  /** Entering a finished subtree into the next free entry of its index block. */
  lemma AddKid(v: seq<Blk>, at: nat, kids: seq<Tree>, kid: Tree, v': seq<Blk>)
    requires Stored(v, Node(at, kids)) && |kids| < ENTRIES && kid.at < 0x8000_0000
    requires at !in FootAll(kids) && at !in Foot(kid)
    requires |v'| == |v| && v'[at] == PutEntry(v[at], |kids|, kid.at)
    requires forall b :: b in FootAll(kids) && b < |v| ==> v'[b] == v[b]
    requires Stored(v', kid)
    ensures Stored(v', Node(at, kids + [kid]))
  {
    EntryAfterPut(v[at], |kids|, kid.at);
    AllStoredFrame(v, v', kids);
  }

  lemma {:induction false} TimesWhole(n: nat, c: nat)
    requires c > 0 && c % BLOCK_SZ == 0
    ensures Times(n, c) % BLOCK_SZ == 0 && n <= Times(n, c)
  {
    if n > 0 {
      TimesWhole(n - 1, c);
    }
  }

  lemma {:induction false} CapWhole(h: nat)
    ensures Cap(h) > 0 && Cap(h) % BLOCK_SZ == 0
  {
    if h > 0 {
      CapWhole(h - 1);
      TimesWhole(ENTRIES, Cap(h - 1));
    }
  }

  lemma {:induction false} FullPrefix(ts: seq<Tree>, c: nat)
    requires c % BLOCK_SZ == 0 && forall j :: 0 <= j < |ts| ==> |Bytes(ts[j])| == c
    ensures |BytesAll(ts)| == Times(|ts|, c) && |BytesAll(ts)| % BLOCK_SZ == 0
  {
    if ts != [] {
      FullPrefix(ts[..|ts| - 1], c);
      assert |BytesAll(ts)| == |BytesAll(ts[..|ts| - 1])| + c;
    }
  }

  lemma {:induction false} OneMoreFits(n: nat, m: nat, c: nat, x: nat)
    requires n < m && x <= c
    ensures Times(n, c) + x <= Times(m, c)
    ensures (n + 1 < m && c > 0) || x < c ==> Times(n, c) + x < Times(m, c)
    ensures n + 1 == m && x == c ==> Times(n, c) + x == Times(m, c)
  {
    if n + 1 < m {
      OneMoreFits(n, m - 1, c, x);
    }
  }

  lemma BlocksAdd(a: nat, b: nat)
    requires a % BLOCK_SZ == 0 && b % BLOCK_SZ == 0
    ensures (a + b) % BLOCK_SZ == 0
  {
  }

  lemma BytesLast(ts: seq<Tree>)
    requires ts != []
    ensures BytesAll(ts) == BytesAll(ts[..|ts| - 1]) + Bytes(ts[|ts| - 1])
  {
  }

  lemma {:induction false} ShapeBytes(t: Tree, h: nat)
    requires Shape(t, h)
    ensures 0 < |Bytes(t)| <= Cap(h) && |Bytes(t)| % BLOCK_SZ == 0
    ensures t.Node? && |t.kids| < ENTRIES ==> |Bytes(t)| < Cap(h)
    ensures t.Node? && |Bytes(t)| < Cap(h) ==> |t.kids| < ENTRIES || |Bytes(t.kids[|t.kids| - 1])| < Cap(h - 1)
    decreases t
  {
    match t
    case Leaf(_, _) =>
    case Node(_, kids) =>
      forall j | 0 <= j < |kids|
        ensures 0 < |Bytes(kids[j])| <= Cap(h - 1) && |Bytes(kids[j])| % BLOCK_SZ == 0
      {
        ShapeBytes(kids[j], h - 1);
      }
      BytesLast(kids);
      hide BytesAll;
      var n, c := |kids| - 1, Cap(h - 1);
      CapWhole(h - 1);
      FullPrefix(kids[..n], c);
      OneMoreFits(n, ENTRIES, c, |Bytes(kids[n])|);
      BlocksAdd(|BytesAll(kids[..n])|, |Bytes(kids[n])|);
  }

  /** The bytes below the j-th tree sit right after the bytes of the trees before it. */
  lemma {:induction false} BytesSlice(ts: seq<Tree>, j: nat)
    requires j < |ts|
    ensures |BytesAll(ts[..j])| + |Bytes(ts[j])| <= |BytesAll(ts)|
    ensures BytesAll(ts)[|BytesAll(ts[..j])|..|BytesAll(ts[..j])| + |Bytes(ts[j])|] == Bytes(ts[j])
    ensures BytesAll(ts[..j + 1]) == BytesAll(ts[..j]) + Bytes(ts[j])
  {
    hide BytesAll, Bytes;
    assert ts[..j + 1][..j] == ts[..j];
    BytesLast(ts[..j + 1]);
    BytesLast(ts);
    if j < |ts| - 1 {
      var us := ts[..|ts| - 1];
      BytesSlice(us, j);
      assert us[..j] == ts[..j];
    } else {
      assert ts[..j + 1] == ts;
    }
  }

  // ----- how many blocks a placement takes -----

  function Rest(r: nat, c: nat): nat {
    if r <= c then 0 else r - c
  }

  /** The blocks of at most k subtrees of level h. */
  function Costs(r: nat, h: nat, k: nat): nat
    decreases h, k
  {
    if k == 0 || r == 0 then 0 else Cost(r, h) + Costs(Rest(r, Cap(h)), h, k - 1)
  }

  /** The blocks below one new pointer of level h, when r bytes are left: the index block and its subtrees. */
  function Cost(r: nat, h: nat): nat
    decreases h, 0
  {
    if h == 0 then 1 else 1 + Costs(r, h - 1, ENTRIES)
  }

  lemma CostFacts(r: nat, h: nat, k: nat)
    ensures Cost(r, h) >= 1 && Cost(r, h + 1) == 1 + Costs(r, h, ENTRIES)
    ensures Costs(r, h, 0) == 0 == Costs(0, h, k)
    ensures k > 0 && r > 0 ==> Costs(r, h, k) == Cost(r, h) + Costs(Rest(r, Cap(h)), h, k - 1)
  {
  }
}
