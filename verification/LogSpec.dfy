/** The write-ahead log of xv6 (log.c) as a step system.

    One step is a critical section guarded by log.lock (begin_op, the second half of log_write, the first half
    of end_op), the size test that log_write makes before it takes the lock, or one block write of commit() or
    recover_from_log().  A crash may come between any two steps, and any running operations may take turns. */
module LogSpec {
  import opened Blocks
  import opened Octets

  const MAXOPBLOCKS: nat := 10
  const LOGSIZE: nat := MAXOPBLOCKS * 3

  type Disk = seq<FBlk>

  /** Where the log lives: header block `start`, then size-1 slots; the disk has nblocks blocks. */
  datatype Geometry = Geometry(start: nat, size: nat, nblocks: nat)

  predicate Fits(g: Geometry) {
    0 < g.size && g.start + g.size <= g.nblocks < 0x8000_0000
  }

  predicate Home(g: Geometry, b: int) {
    0 <= b < g.nblocks && !(g.start <= b < g.start + g.size)
  }

  predicate Distinct(s: seq<nat>) {
    forall i, j :: 0 <= i < j < |s| ==> s[i] != s[j]
  }

  // ----- the on-disk header -----

  function HeadN(d: Disk, g: Geometry): int
    requires g.start < |d|
  {
    Ptr(d[g.start], 0)
  }

  function ListIn(h: FBlk, n: nat): (lh: seq<int>)
    requires n < WORDS
    ensures |lh| == n && forall i :: 0 <= i < n ==> lh[i] == Ptr(h, 1 + i)
  {
    if n == 0 then [] else ListIn(h, n - 1) + [Ptr(h, n)]
  }

  /** read_head: the first n entries of the header block. */
  function HeadList(d: Disk, g: Geometry): (lh: seq<int>)
    requires g.start < |d| && 0 <= HeadN(d, g) < WORDS
    ensures |lh| == HeadN(d, g)
  {
    ListIn(d[g.start], HeadN(d, g))
  }

  predicate Numbers(lh: seq<nat>) {
    forall i :: 0 <= i < |lh| ==> lh[i] < 0x8000_0000
  }

  function PutList(h: FBlk, lh: seq<nat>): FBlk
    requires |lh| < WORDS && Numbers(lh)
  {
    if lh == [] then h else PutPtr(PutList(h, lh[..|lh| - 1]), |lh|, lh[|lh| - 1])
  }

  /** write_head: only the first n+1 words of the header block are overwritten. */
  function HeadBlock(was: FBlk, lh: seq<nat>): (h: FBlk)
    requires |lh| < WORDS && Numbers(lh)
  {
    PutList(PutPtr(was, 0, |lh|), lh)
  }

  lemma {:induction false} PutListAt(h: FBlk, lh: seq<nat>, k: nat)
    requires |lh| < WORDS && Numbers(lh) && k < WORDS
    ensures Ptr(PutList(h, lh), k) == if 1 <= k <= |lh| then lh[k - 1] else Ptr(h, k)
  {
    if lh != [] {
      var n := |lh|;
      PutListAt(h, lh[..n - 1], k);
      PtrAfterPut(PutList(h, lh[..n - 1]), n, lh[n - 1], k);
    }
  }

  /** Writing a list into the header and reading it back. */
  lemma HeadBack(was: FBlk, lh: seq<nat>)
    requires |lh| < WORDS && Numbers(lh)
    ensures Ptr(HeadBlock(was, lh), 0) == |lh| && ListIn(HeadBlock(was, lh), |lh|) == lh
  {
    var h := HeadBlock(was, lh);
    PutListAt(PutPtr(was, 0, |lh|), lh, 0);
    PtrAfterPut(was, 0, |lh|, 0);
    forall i | 0 <= i < |lh|
      ensures ListIn(h, |lh|)[i] == lh[i]
    {
      PutListAt(PutPtr(was, 0, |lh|), lh, 1 + i);
    }
  }

  predicate GoodList(g: Geometry, lh: seq<int>) {
    && |lh| <= LOGSIZE && |lh| < g.size
    && (forall i :: 0 <= i < |lh| ==> Home(g, lh[i]))
    && (forall i, j :: 0 <= i < j < |lh| ==> lh[i] != lh[j])
  }

  predicate GoodDisk(g: Geometry, d: Disk) {
    && Fits(g) && |d| == g.nblocks
    && 0 <= HeadN(d, g) <= LOGSIZE
    && GoodList(g, HeadList(d, g))
  }

  /** The i-th data slot of the log. */
  function Slot(d: Disk, g: Geometry, i: int): FBlk
    requires 0 <= i && g.start + 1 + i < |d|
  {
    d[g.start + 1 + i]
  }

  // ----- the block writes of recovery and of commit, one by one -----

  /** A list that can be worked off without running off the disk or out of the header block. */
  predicate Usable(g: Geometry, d: Disk, lh: seq<int>) {
    && g.start + 1 + |lh| <= |d| && |lh| <= LOGSIZE && |d| < 0x8000_0000
    && forall i :: 0 <= i < |lh| ==> 0 <= lh[i] < |d|
  }

  /** The k-th block write of install_trans followed by write_head with n == 0. */
  function RecoverIO(g: Geometry, d: Disk, lh: seq<int>, k: nat): (d': Disk)
    requires Usable(g, d, lh) && k <= |lh|
    ensures |d'| == |d|
  {
    if k < |lh| then d[lh[k] := Slot(d, g, k)]
    else d[g.start := HeadBlock(d[g.start], [])]
  }

  function Cached(d: Disk, dirty: map<nat, FBlk>, b: nat): FBlk
    requires b < |d|
  {
    if b in dirty then dirty[b] else d[b]
  }

  /** The k-th block write of commit: write_log, write_head, install_trans, write_head. */
  function CommitIO(g: Geometry, d: Disk, dirty: map<nat, FBlk>, lh: seq<nat>, k: nat): (d': Disk)
    requires Usable(g, d, lh) && k < 2 * |lh| + 2
    ensures |d'| == |d|
  {
    if k < |lh| then d[g.start + 1 + k := Cached(d, dirty, lh[k])]
    else if k == |lh| then d[g.start := HeadBlock(d[g.start], lh)]
    else RecoverIO(g, d, lh, k - |lh| - 1)
  }

  // ----- the step system -----

  datatype Mode = Running | Committing(k: nat) | Recovering(k: nat)

  /** Where the process of an operation is: inside log_write of block b, past the size test, or elsewhere. */
  datatype At = Elsewhere | PastTest(b: nat)

  /** One outstanding operation: the blocks it has logged, and where it is. */
  datatype Op = Op(logged: set<nat>, at: At)

  /** `dirty` holds the buffers pinned by B_DIRTY; every clean buffer equals its disk block. */
  datatype State = State(disk: Disk, dirty: map<nat, FBlk>, lh: seq<nat>, ops: seq<Op>, mode: Mode)

  datatype Action =
    | BeginOp
    | Test(op: nat, b: nat)
    | Record(op: nat, data: FBlk)
    | EndOp(op: nat)
    | CommitStep
    | Crash
    | RecoverStep

  const FRESH_OP: Op := Op({}, Elsewhere)

  /** The test of begin_op: is there room for one more full reservation? */
  predicate MayBegin(s: State) {
    s.mode == Running && |s.lh| + (|s.ops| + 1) * MAXOPBLOCKS <= LOGSIZE
  }

  /** The first test of log_write, made without the lock. */
  predicate LogWritePanics(g: Geometry, s: State) {
    |s.lh| >= LOGSIZE || |s.lh| >= g.size - 1
  }

  /** What an operation may ask of log_write: at most MAXOPBLOCKS different blocks. */
  predicate WithinBudget(g: Geometry, s: State, op: nat, b: nat) {
    && s.mode == Running && op < |s.ops| && s.ops[op].at == Elsewhere && Home(g, b)
    && |s.ops[op].logged + {b}| <= MAXOPBLOCKS
  }

  predicate Naturals(lh: seq<int>) {
    forall i :: 0 <= i < |lh| ==> 0 <= lh[i]
  }

  /** A step is possible where the program stands, and no access leaves the disk or the arrays. */
  predicate Enabled(g: Geometry, s: State, a: Action) {
    match a
    case BeginOp => MayBegin(s)
    case Test(op, b) => WithinBudget(g, s, op, b) && !LogWritePanics(g, s)
    case Record(op, _) => s.mode == Running && op < |s.ops| && s.ops[op].at.PastTest?
    case EndOp(op) => s.mode == Running && op < |s.ops| && s.ops[op].at == Elsewhere
    case CommitStep => s.mode.Committing? && Usable(g, s.disk, s.lh) && s.mode.k < 2 * |s.lh| + 2
    case Crash => g.start < |s.disk| && 0 <= HeadN(s.disk, g) <= LOGSIZE && Naturals(HeadList(s.disk, g))
    case RecoverStep => s.mode.Recovering? && Usable(g, s.disk, s.lh) && s.mode.k <= |s.lh|
  }

  /** Log absorption: a block already listed is not listed again. */
  function Absorb(lh: seq<nat>, b: nat): seq<nat> {
    if b in lh then lh else lh + [b]
  }

  function Apply(g: Geometry, s: State, a: Action): State
    requires Enabled(g, s, a)
  {
    match a
    case BeginOp => s.(ops := s.ops + [FRESH_OP])
    case Test(op, b) => s.(ops := s.ops[op := s.ops[op].(at := PastTest(b))])
    case Record(op, data) =>
      var o := s.ops[op];
      s.(dirty := s.dirty[o.at.b := data], lh := Absorb(s.lh, o.at.b),
         ops := s.ops[op := Op(o.logged + {o.at.b}, Elsewhere)])
    case EndOp(op) =>
      var ops := s.ops[..op] + s.ops[op + 1..];
      s.(ops := ops, mode := if ops == [] then Committing(0) else Running)
    case CommitStep =>
      var k, n := s.mode.k, |s.lh|;
      if n == 0 then s.(mode := Running)
      else
        var s' := s.(disk := CommitIO(g, s.disk, s.dirty, s.lh, k),
                     dirty := if n < k < 2 * n + 1 then s.dirty - {s.lh[k - n - 1]} else s.dirty);
        if k == 2 * n + 1 then s'.(lh := [], mode := Running) else s'.(mode := Committing(k + 1))
    case Crash =>
      State(s.disk, map[], HeadList(s.disk, g), [], Recovering(0))
    case RecoverStep =>
      var k := s.mode.k;
      var s' := s.(disk := RecoverIO(g, s.disk, s.lh, k));
      if k == |s.lh| then s'.(lh := [], mode := Running) else s'.(mode := Recovering(k + 1))
  }

  // ----- runs -----

  ghost predicate IsStep(g: Geometry, s: State, a: Action, s': State) {
    Enabled(g, s, a) && s' == Apply(g, s, a)
  }

  /** A run: the states it passes through and the actions between them. */
  ghost predicate IsRun(g: Geometry, ss: seq<State>, acts: seq<Action>) {
    && |ss| == |acts| + 1
    && forall i :: 0 <= i < |acts| ==> IsStep(g, ss[i], acts[i], ss[i + 1])
  }

  /** The state in which the machine boots on a disk. */
  function Boot(g: Geometry, d: Disk): State
    requires GoodDisk(g, d)
  {
    State(d, map[], HeadList(d, g), [], Recovering(0))
  }

  // ----- invariant -----

  /** Reserved but unused log blocks of the outstanding operations. */
  function Unused(ops: seq<Op>): int {
    if ops == [] then 0 else Unused(ops[..|ops| - 1]) + MAXOPBLOCKS - |ops[|ops| - 1].logged|
  }

  ghost predicate OpOk(o: Op) {
    |o.logged| <= MAXOPBLOCKS && (o.at.PastTest? ==> |o.logged + {o.at.b}| <= MAXOPBLOCKS)
  }

  ghost predicate OpsOk(s: State) {
    && (forall i :: 0 <= i < |s.ops| ==> OpOk(s.ops[i]))
    && (forall i, b :: 0 <= i < |s.ops| && b in s.ops[i].logged ==> b in s.lh)
    && |s.lh| + Unused(s.ops) <= LOGSIZE
  }

  /** What the reservation protocol keeps, whatever the size of the log on disk. */
  ghost predicate Reserved(s: State) {
    OpsOk(s) && (s.mode != Running ==> s.ops == [])
  }

  /** Every listed block is pinned, and nothing else is. */
  ghost predicate Pinned(dirty: map<nat, FBlk>, lh: seq<nat>) {
    forall b :: b in dirty <==> b in lh
  }

  /** Each slot holds the newest contents of the block it is for. */
  ghost predicate SlotsCurrent(g: Geometry, d: Disk, dirty: map<nat, FBlk>, lh: seq<nat>, k: nat)
    requires GoodDisk(g, d) && GoodList(g, lh) && k <= |lh|
  {
    forall i :: 0 <= i < k ==> Cached(d, dirty, lh[i]) == Slot(d, g, i)
  }

  /** What holds before the k-th block write of commit. */
  ghost predicate CommitOk(g: Geometry, d: Disk, dirty: map<nat, FBlk>, lh: seq<nat>, k: nat)
    requires GoodDisk(g, d) && GoodList(g, lh)
  {
    var n := |lh|;
    if k <= n then
      HeadN(d, g) == 0 && Pinned(dirty, lh) && (n == 0 ==> k == 0) && SlotsCurrent(g, d, dirty, lh, k)
    else
      && k <= 2 * n + 1 && n > 0
      && HeadList(d, g) == lh && Pinned(dirty, lh[k - n - 1..]) && SlotsCurrent(g, d, dirty, lh, n)
  }

  ghost predicate Writers(g: Geometry, ops: seq<Op>) {
    forall i :: 0 <= i < |ops| && ops[i].at.PastTest? ==> Home(g, ops[i].at.b) && g.size > 1
  }

  ghost predicate Inv(g: Geometry, s: State) {
    && GoodDisk(g, s.disk) && GoodList(g, s.lh) && Reserved(s)
    && match s.mode
       case Running => HeadN(s.disk, g) == 0 && Pinned(s.dirty, s.lh) && Writers(g, s.ops)
       case Committing(k) => CommitOk(g, s.disk, s.dirty, s.lh, k)
       case Recovering(k) =>
         && s.dirty == map[] && HeadList(s.disk, g) == s.lh
         && k <= |s.lh|
         && forall i :: 0 <= i < k ==> s.disk[s.lh[i]] == Slot(s.disk, g, i)
  }

  /** The log has a slot for every block that may be listed; or none at all, and then every log_write panics. */
  predicate EnoughSlots(g: Geometry) {
    g.size > LOGSIZE || g.size == 1
  }

  /** The record does not need a slot that the log does not have. */
  predicate HasSlot(g: Geometry, s: State, a: Action) {
    a.Record? && a.op < |s.ops| && s.ops[a.op].at.PastTest? ==> |Absorb(s.lh, s.ops[a.op].at.b)| < g.size
  }

  // ----- the atomic-commit machine that the log refines -----

  type Contents = map<int, FBlk>

  /** `durable` survives a crash; `current` is what the file system reads now. */
  datatype Abs = Abs(durable: Contents, current: Contents, running: nat)

  datatype AbsAction = AStutter | ABegin | AWrite(b: nat, data: FBlk) | AEnd | ACommit | ACrash

  ghost predicate AbsNext(a: Abs, act: AbsAction, a': Abs) {
    match act
    case AStutter => a' == a
    case ABegin => a' == a.(running := a.running + 1)
    case AWrite(b, data) => a.running > 0 && b in a.current && a' == a.(current := a.current[b := data])
    case AEnd => a.running > 0 && a' == a.(running := a.running - 1)
    case ACommit => a.running == 0 && a' == a.(durable := a.current)
    case ACrash => a' == Abs(a.durable, a.durable, 0)
  }

  /** What home block b will hold once recovery has finished on this disk: the log slot if the
      header lists b, the block itself otherwise. */
  ghost function DurableAt(g: Geometry, d: Disk, b: int): FBlk
    requires GoodDisk(g, d) && Home(g, b)
  {
    var l := HeadList(d, g);
    if b in l then (var i :| 0 <= i < |l| && l[i] == b; Slot(d, g, i)) else d[b]
  }

  ghost function Durable(g: Geometry, d: Disk): Contents
    requires GoodDisk(g, d)
  {
    map b: int | 0 <= b < g.nblocks && Home(g, b) :: DurableAt(g, d, b)
  }

  ghost function CurrentAt(g: Geometry, s: State, b: int): FBlk
    requires Inv(g, s) && Home(g, b)
  {
    if s.mode.Recovering? then DurableAt(g, s.disk, b) else Cached(s.disk, s.dirty, b)
  }

  ghost function Current(g: Geometry, s: State): Contents
    requires Inv(g, s)
  {
    map b: int | 0 <= b < g.nblocks && Home(g, b) :: CurrentAt(g, s, b)
  }

  ghost function Abstract(g: Geometry, s: State): Abs
    requires Inv(g, s)
  {
    Abs(Durable(g, s.disk), Current(g, s), |s.ops|)
  }

  /** Only one step of commit is visible: the block write that puts the list into the header. */
  function Effect(s: State, a: Action): AbsAction {
    match a
    case BeginOp => ABegin
    case Test(_, _) => AStutter
    case Record(op, data) => if op < |s.ops| && s.ops[op].at.PastTest? then AWrite(s.ops[op].at.b, data) else AStutter
    case EndOp(_) => AEnd
    case CommitStep => if s.mode.Committing? && |s.lh| > 0 && s.mode.k == |s.lh| then ACommit else AStutter
    case Crash => ACrash
    case RecoverStep => AStutter
  }
}
