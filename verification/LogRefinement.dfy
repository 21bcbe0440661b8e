/** Every step of the log keeps the invariant and refines one step of the atomic-commit machine. */
module LogRefinement {
  import opened Blocks
  import opened Octets
  import opened LogSpec

  // ----- reading what the disk will hold after recovery -----

  lemma DurableListed(g: Geometry, d: Disk, i: nat)
    requires GoodDisk(g, d) && i < HeadN(d, g)
    ensures DurableAt(g, d, HeadList(d, g)[i]) == Slot(d, g, i)
  {
    var l := HeadList(d, g);
    assert l[i] in l;
  }

  /** Two disks promise the same home contents if they agree on header, slots and unlisted blocks. */
  lemma SameDurable(g: Geometry, d: Disk, d': Disk)
    requires GoodDisk(g, d) && GoodDisk(g, d')
    requires HeadList(d', g) == HeadList(d, g)
    requires forall i :: 0 <= i < HeadN(d, g) ==> Slot(d', g, i) == Slot(d, g, i)
    requires forall b :: Home(g, b) && b !in HeadList(d, g) ==> d'[b] == d[b]
    ensures Durable(g, d') == Durable(g, d)
  {
    var l := HeadList(d, g);
    forall b: int | Home(g, b)
      ensures DurableAt(g, d', b) == DurableAt(g, d, b)
    {
      if b in l {
        var i :| 0 <= i < |l| && l[i] == b;
        DurableListed(g, d, i);
        DurableListed(g, d', i);
      }
    }
  }

  /** What the header block says after write_head. */
  lemma HeaderWritten(g: Geometry, d: Disk, lh: seq<nat>, d': Disk)
    requires g.start < |d| && |lh| < WORDS && Numbers(lh) && d' == d[g.start := HeadBlock(d[g.start], lh)]
    ensures HeadN(d', g) == |lh| && HeadList(d', g) == lh
  {
    HeadBack(d[g.start], lh);
  }

  // ----- the reservation sum -----

  lemma UnusedNonNegative(ops: seq<Op>)
    requires forall i :: 0 <= i < |ops| ==> |ops[i].logged| <= MAXOPBLOCKS
    ensures 0 <= Unused(ops) <= |ops| * MAXOPBLOCKS
  {
    if ops != [] {
      UnusedNonNegative(ops[..|ops| - 1]);
    }
  }

  lemma {:induction false} UnusedUpdate(ops: seq<Op>, i: nat, x: Op)
    requires i < |ops|
    ensures Unused(ops[i := x]) == Unused(ops) + |ops[i].logged| - |x.logged|
  {
    var n := |ops| - 1;
    if i < n {
      UnusedUpdate(ops[..n], i, x);
      assert ops[i := x][..n] == ops[..n][i := x];
    } else {
      assert ops[i := x][..n] == ops[..n];
    }
  }

  lemma {:induction false} UnusedRemove(ops: seq<Op>, i: nat)
    requires i < |ops|
    ensures Unused(ops[..i] + ops[i + 1..]) == Unused(ops) - MAXOPBLOCKS + |ops[i].logged|
  {
    var n := |ops| - 1;
    var rest := ops[..i] + ops[i + 1..];
    if i < n {
      UnusedRemove(ops[..n], i);
      assert rest[..n - 1] == ops[..n][..i] + ops[..n][i + 1..];
      assert rest[n - 1] == ops[n];
    } else {
      assert rest == ops[..n];
    }
  }

  lemma {:induction false} UnusedAtLeast(ops: seq<Op>, i: nat)
    requires i < |ops| && forall j :: 0 <= j < |ops| ==> |ops[j].logged| <= MAXOPBLOCKS
    ensures MAXOPBLOCKS - |ops[i].logged| <= Unused(ops)
  {
    UnusedRemove(ops, i);
    UnusedNonNegative(ops[..i] + ops[i + 1..]);
  }

  // ----- the reservation protocol, for every size of the log -----

  lemma BeginKeepsOps(s: State)
    requires OpsOk(s) && MayBegin(s)
    ensures OpsOk(s.(ops := s.ops + [FRESH_OP]))
  {
    var ops := s.ops + [FRESH_OP];
    assert ops[..|s.ops|] == s.ops;
    assert forall i :: 0 <= i < |s.ops| ==> ops[i] == s.ops[i];
    UnusedNonNegative(s.ops);
    assert Unused(ops) == Unused(s.ops) + MAXOPBLOCKS;
  }

  lemma TestKeepsOps(s: State, op: nat, b: nat)
    requires OpsOk(s) && op < |s.ops| && |s.ops[op].logged + {b}| <= MAXOPBLOCKS
    ensures OpsOk(s.(ops := s.ops[op := s.ops[op].(at := PastTest(b))]))
  {
    UnusedUpdate(s.ops, op, s.ops[op].(at := PastTest(b)));
  }

  lemma RecordKeepsOps(s: State, op: nat, b: nat)
    requires OpsOk(s) && op < |s.ops| && s.ops[op].at == PastTest(b)
    ensures OpsOk(s.(lh := Absorb(s.lh, b), ops := s.ops[op := Op(s.ops[op].logged + {b}, Elsewhere)]))
  {
    var o := s.ops[op];
    UnusedUpdate(s.ops, op, Op(o.logged + {b}, Elsewhere));
    if b in o.logged {
      assert o.logged + {b} == o.logged;
    }
  }

  lemma EndKeepsOps(s: State, op: nat)
    requires OpsOk(s) && op < |s.ops|
    ensures OpsOk(s.(ops := s.ops[..op] + s.ops[op + 1..]))
  {
    var ops := s.ops[..op] + s.ops[op + 1..];
    UnusedRemove(s.ops, op);
    forall i | 0 <= i < |ops|
      ensures OpOk(ops[i]) && forall b :: b in ops[i].logged ==> b in s.lh
    {
      assert ops[i] == s.ops[if i < op then i else i + 1];
    }
  }

  /** Listed blocks and unused reservations fit, and nobody runs while committing, after any step at all. */
  lemma StepReserved(g: Geometry, s: State, a: Action)
    requires Reserved(s) && Enabled(g, s, a)
    ensures Reserved(Apply(g, s, a))
  {
    hide Usable, CommitIO, RecoverIO;
    match a
    case BeginOp => BeginKeepsOps(s);
    case Test(op, b) => TestKeepsOps(s, op, b);
    case Record(op, _) => RecordKeepsOps(s, op, s.ops[op].at.b);
    case EndOp(op) => EndKeepsOps(s, op);
    case CommitStep =>
    case Crash =>
    case RecoverStep =>
  }

  // ----- one lemma for each kind of step -----

  lemma SameView(g: Geometry, s: State, s': State)
    requires Inv(g, s) && Inv(g, s') && s'.disk == s.disk && s'.dirty == s.dirty
    requires !s.mode.Recovering? && !s'.mode.Recovering?
    ensures Current(g, s') == Current(g, s)
  {
    hide OpsOk;
  }

  lemma BeginRefines(g: Geometry, s: State)
    requires Inv(g, s) && MayBegin(s)
    ensures Inv(g, Apply(g, s, BeginOp))
    ensures AbsNext(Abstract(g, s), ABegin, Abstract(g, Apply(g, s, BeginOp)))
  {
    hide OpsOk;
    BeginKeepsOps(s);
    SameView(g, s, Apply(g, s, BeginOp));
  }

  /** Nobody can see the size test. */
  lemma TestRefines(g: Geometry, s: State, op: nat, b: nat)
    requires Inv(g, s) && Enabled(g, s, Test(op, b))
    ensures Inv(g, Apply(g, s, Test(op, b)))
    ensures Abstract(g, Apply(g, s, Test(op, b))) == Abstract(g, s)
  {
    hide OpsOk;
    TestKeepsOps(s, op, b);
    SameView(g, s, Apply(g, s, Test(op, b)));
  }

  /** A record never runs off the in-memory list. */
  lemma RecordFits(s: State, op: nat)
    requires OpsOk(s) && op < |s.ops| && s.ops[op].at.PastTest?
    ensures |Absorb(s.lh, s.ops[op].at.b)| <= LOGSIZE
  {
    RecordKeepsOps(s, op, s.ops[op].at.b);
    UnusedNonNegative(s.ops[op := Op(s.ops[op].logged + {s.ops[op].at.b}, Elsewhere)]);
  }

  lemma RecordKeepsInv(g: Geometry, s: State, op: nat, data: FBlk)
    requires Inv(g, s) && Enabled(g, s, Record(op, data)) && HasSlot(g, s, Record(op, data))
    ensures Inv(g, Apply(g, s, Record(op, data)))
  {
    var s', b := Apply(g, s, Record(op, data)), s.ops[op].at.b;
    StepReserved(g, s, Record(op, data));
    RecordFits(s, op);
    assert forall c :: c in s'.lh <==> c in s.lh || c == b;
    hide OpsOk, ListIn;
  }

  lemma RecordRefines(g: Geometry, s: State, op: nat, data: FBlk)
    requires Inv(g, s) && Enabled(g, s, Record(op, data)) && HasSlot(g, s, Record(op, data))
    ensures Inv(g, Apply(g, s, Record(op, data)))
    ensures AbsNext(Abstract(g, s), AWrite(s.ops[op].at.b, data), Abstract(g, Apply(g, s, Record(op, data))))
  {
    var s', b := Apply(g, s, Record(op, data)), s.ops[op].at.b;
    RecordKeepsInv(g, s, op, data);
    hide OpsOk, GoodList, Pinned, ListIn;
    assert Home(g, b);
    assert Current(g, s') == Current(g, s)[b := data];
  }

  /** With enough slots every record has one, whoever else records between the test and the record. */
  lemma SlotForEveryone(g: Geometry, s: State, a: Action)
    requires Inv(g, s) && Enabled(g, s, a) && EnoughSlots(g)
    ensures HasSlot(g, s, a)
  {
    if a.Record? {
      assert Writers(g, s.ops);
      RecordFits(s, a.op);
    }
  }

  /** Without a slot for it, the record breaks the invariant. */
  lemma NoSlotNoInv(g: Geometry, s: State, a: Action)
    requires Enabled(g, s, a) && !HasSlot(g, s, a)
    ensures !Inv(g, Apply(g, s, a))
  {
  }

  lemma SameOps(s: State, s': State)
    requires OpsOk(s) && s'.ops == s.ops && s'.lh == s.lh
    ensures OpsOk(s')
  {
  }

  lemma EndKeepsInv(g: Geometry, s: State, op: nat)
    requires Inv(g, s) && Enabled(g, s, EndOp(op))
    requires OpsOk(s.(ops := s.ops[..op] + s.ops[op + 1..]))
    ensures Inv(g, Apply(g, s, EndOp(op)))
  {
    hide OpsOk;
    var ops := s.ops[..op] + s.ops[op + 1..];
    assert forall i :: 0 <= i < |ops| ==> ops[i] == s.ops[if i < op then i else i + 1];
    var s' := Apply(g, s, EndOp(op));
    assert OpsOk(s') by { SameOps(s.(ops := ops), s'); }
  }

  lemma EndRefines(g: Geometry, s: State, op: nat)
    requires Inv(g, s) && Enabled(g, s, EndOp(op))
    ensures Inv(g, Apply(g, s, EndOp(op)))
    ensures AbsNext(Abstract(g, s), AEnd, Abstract(g, Apply(g, s, EndOp(op))))
  {
    var s' := Apply(g, s, EndOp(op));
    EndKeepsOps(s, op);
    EndKeepsInv(g, s, op);
    hide Inv;
    SameView(g, s, s');
  }

  /** Under the invariant no block write of commit or recovery leaves the disk, and a crash may come at any time. */
  lemma NeverOffDisk(g: Geometry, s: State)
    requires Inv(g, s)
    ensures Enabled(g, s, Crash)
    ensures s.mode.Committing? ==> Enabled(g, s, CommitStep)
    ensures s.mode.Recovering? ==> Enabled(g, s, RecoverStep)
    ensures Usable(g, s.disk, s.lh) && Numbers(s.lh)
  {
    hide OpsOk;
  }

  lemma CrashRefines(g: Geometry, s: State)
    requires Inv(g, s)
    ensures Enabled(g, s, Crash) && Inv(g, Apply(g, s, Crash))
    ensures AbsNext(Abstract(g, s), ACrash, Abstract(g, Apply(g, s, Crash)))
  {
    var s' := Apply(g, s, Crash);
    assert Current(g, s') == Durable(g, s.disk);
  }

  /** Installing one listed block changes only that block, and not what a recovery would produce. */
  lemma InstallOne(g: Geometry, d: Disk, lh: seq<int>, k: nat)
    requires GoodDisk(g, d) && HeadList(d, g) == lh && k < |lh|
    ensures Usable(g, d, lh)
    ensures var d' := RecoverIO(g, d, lh, k);
      && GoodDisk(g, d') && HeadList(d', g) == lh && Durable(g, d') == Durable(g, d)
      && d'[lh[k]] == Slot(d, g, k)
      && (forall i :: 0 <= i < |lh| ==> Slot(d', g, i) == Slot(d, g, i))
      && (forall b :: Home(g, b) && b != lh[k] ==> d'[b] == d[b])
  {
    var d' := RecoverIO(g, d, lh, k);
    assert d'[g.start] == d[g.start];
    SameDurable(g, d, d');
  }

  lemma SameCurrentWhileRecovering(g: Geometry, s: State, s': State)
    requires Inv(g, s) && Inv(g, s') && s.mode.Recovering? && s'.mode.Recovering?
    requires Durable(g, s'.disk) == Durable(g, s.disk)
    ensures Current(g, s') == Current(g, s)
  {
    assert Current(g, s) == Durable(g, s.disk);
    assert Current(g, s') == Durable(g, s'.disk);
  }

  lemma RecoverInstall(g: Geometry, s: State)
    requires Inv(g, s) && s.mode.Recovering? && s.mode.k < |s.lh| && Enabled(g, s, RecoverStep)
    ensures Inv(g, Apply(g, s, RecoverStep))
    ensures Abstract(g, Apply(g, s, RecoverStep)) == Abstract(g, s)
  {
    hide ListIn, HeadBlock, OpsOk;
    StepReserved(g, s, RecoverStep);
    InstallOne(g, s.disk, s.lh, s.mode.k);
    SameCurrentWhileRecovering(g, s, Apply(g, s, RecoverStep));
  }

  /** Once every listed block is installed, clearing the header changes nothing for a later recovery. */
  lemma InstalledIsDurable(g: Geometry, d: Disk, d': Disk)
    requires GoodDisk(g, d)
    requires forall i :: 0 <= i < HeadN(d, g) ==> d[HeadList(d, g)[i]] == Slot(d, g, i)
    requires d' == d[g.start := HeadBlock(d[g.start], [])]
    ensures GoodDisk(g, d') && HeadN(d', g) == 0 && HeadList(d', g) == [] && Durable(g, d') == Durable(g, d)
    ensures forall b :: Home(g, b) ==> DurableAt(g, d, b) == d[b] == d'[b]
  {
    hide ListIn, HeadBlock;
    HeaderWritten(g, d, [], d');
    var l := HeadList(d, g);
    forall b: int | Home(g, b)
      ensures DurableAt(g, d', b) == DurableAt(g, d, b) == d[b]
    {
      if b in l {
        var i :| 0 <= i < |l| && l[i] == b;
        DurableListed(g, d, i);
      }
    }
  }

  lemma RecoverClear(g: Geometry, s: State)
    requires Inv(g, s) && s.mode == Recovering(|s.lh|) && Enabled(g, s, RecoverStep)
    ensures Inv(g, Apply(g, s, RecoverStep))
    ensures Abstract(g, Apply(g, s, RecoverStep)) == Abstract(g, s)
  {
    hide ListIn, HeadBlock, OpsOk;
    var s' := Apply(g, s, RecoverStep);
    StepReserved(g, s, RecoverStep);
    InstalledIsDurable(g, s.disk, s'.disk);
    assert Current(g, s') == Current(g, s);
  }

  lemma RecoverRefines(g: Geometry, s: State)
    requires Inv(g, s) && s.mode.Recovering?
    ensures Enabled(g, s, RecoverStep) && Inv(g, Apply(g, s, RecoverStep))
    ensures Abstract(g, Apply(g, s, RecoverStep)) == Abstract(g, s)
  {
    hide Inv, Apply;
    NeverOffDisk(g, s);
    if s.mode.k < |s.lh| {
      RecoverInstall(g, s);
    } else {
      assert s.mode == Recovering(|s.lh|);
      RecoverClear(g, s);
    }
  }

  lemma WriteLogStep(g: Geometry, s: State)
    requires Inv(g, s) && s.mode.Committing? && s.mode.k < |s.lh|
    ensures Enabled(g, s, CommitStep) && Inv(g, Apply(g, s, CommitStep))
    ensures Abstract(g, Apply(g, s, CommitStep)) == Abstract(g, s)
  {
    hide ListIn, HeadBlock, OpsOk;
    NeverOffDisk(g, s);
    StepReserved(g, s, CommitStep);
    var s' := Apply(g, s, CommitStep);
    assert s.lh[s.mode.k] in s.lh;
    SameDurable(g, s.disk, s'.disk);
    assert Current(g, s') == Current(g, s);
  }

  lemma HeaderMakesDurable(g: Geometry, d: Disk, dirty: map<nat, FBlk>, lh: seq<nat>)
    requires GoodDisk(g, d) && GoodList(g, lh) && Pinned(dirty, lh) && SlotsCurrent(g, d, dirty, lh, |lh|)
    ensures Numbers(lh)
    ensures var d' := d[g.start := HeadBlock(d[g.start], lh)];
      && GoodDisk(g, d') && HeadList(d', g) == lh && SlotsCurrent(g, d', dirty, lh, |lh|)
      && forall b :: Home(g, b) ==> DurableAt(g, d', b) == Cached(d, dirty, b)
  {
    hide ListIn, HeadBlock;
    assert Numbers(lh);
    var d' := d[g.start := HeadBlock(d[g.start], lh)];
    HeaderWritten(g, d, lh, d');
    forall i | 0 <= i < |lh|
      ensures Cached(d', dirty, lh[i]) == Slot(d', g, i)
    {
      assert Cached(d, dirty, lh[i]) == Slot(d, g, i);
      assert lh[i] in lh;
    }
    forall b: int | Home(g, b)
      ensures DurableAt(g, d', b) == Cached(d, dirty, b)
    {
      if b in lh {
        var i :| 0 <= i < |lh| && lh[i] == b;
        DurableListed(g, d', i);
      }
    }
  }

  /** The commit point: all logged blocks become durable at once. */
  lemma WriteHeadStep(g: Geometry, s: State)
    requires Inv(g, s) && s.mode.Committing? && |s.lh| > 0 && s.mode.k == |s.lh|
    ensures Enabled(g, s, CommitStep) && Inv(g, Apply(g, s, CommitStep))
    ensures AbsNext(Abstract(g, s), ACommit, Abstract(g, Apply(g, s, CommitStep)))
  {
    hide ListIn, HeadBlock, OpsOk, SlotsCurrent;
    NeverOffDisk(g, s);
    StepReserved(g, s, CommitStep);
    var s' := Apply(g, s, CommitStep);
    HeaderMakesDurable(g, s.disk, s.dirty, s.lh);
    assert s.lh[0..] == s.lh;
    assert Current(g, s') == Current(g, s);
    assert Durable(g, s'.disk) == Current(g, s);
  }

  lemma UnpinKeepsPinned(dirty: map<nat, FBlk>, lh: seq<nat>, j: nat)
    requires j < |lh| && Distinct(lh) && Pinned(dirty, lh[j..])
    ensures Pinned(dirty - {lh[j]}, lh[j + 1..])
  {
    assert lh[j..] == [lh[j]] + lh[j + 1..];
    forall b
      ensures b in dirty - {lh[j]} <==> b in lh[j + 1..]
    {
      assert b in lh[j..] <==> b == lh[j] || b in lh[j + 1..];
    }
  }

  /** Installing a block and clearing its B_DIRTY leaves every reader's view as it was. */
  lemma UnpinOne(g: Geometry, d: Disk, dirty: map<nat, FBlk>, lh: seq<nat>, j: nat)
    requires GoodDisk(g, d) && GoodList(g, lh) && HeadList(d, g) == lh && j < |lh|
    requires Pinned(dirty, lh[j..]) && SlotsCurrent(g, d, dirty, lh, |lh|)
    ensures var d', dirty' := RecoverIO(g, d, lh, j), dirty - {lh[j]};
      && GoodDisk(g, d') && Pinned(dirty', lh[j + 1..]) && SlotsCurrent(g, d', dirty', lh, |lh|)
      && forall b :: Home(g, b) ==> Cached(d', dirty', b) == Cached(d, dirty, b)
  {
    var d', dirty' := RecoverIO(g, d, lh, j), dirty - {lh[j]};
    InstallOne(g, d, lh, j);
    UnpinKeepsPinned(dirty, lh, j);
    assert Cached(d, dirty, lh[j]) == Slot(d, g, j);
    forall b | Home(g, b)
      ensures Cached(d', dirty', b) == Cached(d, dirty, b)
    {
    }
  }

  lemma CommittingInv(g: Geometry, s: State)
    requires s.mode.Committing? && GoodDisk(g, s.disk) && GoodList(g, s.lh) && s.ops == []
    requires CommitOk(g, s.disk, s.dirty, s.lh, s.mode.k)
    ensures Inv(g, s)
  {
  }

  lemma InstallApply(g: Geometry, s: State, j: nat)
    requires Inv(g, s) && s.mode.Committing? && s.mode.k == |s.lh| + 1 + j && j < |s.lh|
    ensures Enabled(g, s, CommitStep) && Usable(g, s.disk, s.lh)
    ensures Apply(g, s, CommitStep) ==
            State(RecoverIO(g, s.disk, s.lh, j), s.dirty - {s.lh[j]}, s.lh, s.ops, Committing(s.mode.k + 1))
  {
    hide Inv, RecoverIO, HeadBlock, Naturals, GoodDisk;
    NeverOffDisk(g, s);
    assert CommitIO(g, s.disk, s.dirty, s.lh, s.mode.k) == RecoverIO(g, s.disk, s.lh, j);
  }

  lemma SameCurrentWhileCommitting(g: Geometry, s: State, s': State)
    requires Inv(g, s) && Inv(g, s') && s.mode.Committing? && s'.mode.Committing?
    requires forall b :: Home(g, b) ==> Cached(s'.disk, s'.dirty, b) == Cached(s.disk, s.dirty, b)
    ensures Current(g, s') == Current(g, s)
  {
  }

  lemma InstallStep(g: Geometry, s: State)
    requires Inv(g, s) && s.mode.Committing? && |s.lh| < s.mode.k < 2 * |s.lh| + 1
    ensures Enabled(g, s, CommitStep) && Inv(g, Apply(g, s, CommitStep))
    ensures Abstract(g, Apply(g, s, CommitStep)) == Abstract(g, s)
  {
    hide ListIn, HeadBlock, OpsOk, SlotsCurrent;
    NeverOffDisk(g, s);
    var j := s.mode.k - |s.lh| - 1;
    var d', dirty' := RecoverIO(g, s.disk, s.lh, j), s.dirty - {s.lh[j]};
    InstallOne(g, s.disk, s.lh, j);
    UnpinOne(g, s.disk, s.dirty, s.lh, j);
    var s' := State(d', dirty', s.lh, s.ops, Committing(s.mode.k + 1));
    CommittingInv(g, s');
    InstallApply(g, s, j);
    SameCurrentWhileCommitting(g, s, s');
  }

  lemma CommitRefines(g: Geometry, s: State)
    requires Inv(g, s) && s.mode.Committing?
    ensures Enabled(g, s, CommitStep) && Inv(g, Apply(g, s, CommitStep))
    ensures AbsNext(Abstract(g, s), Effect(s, CommitStep), Abstract(g, Apply(g, s, CommitStep)))
  {
    hide ListIn, HeadBlock, OpsOk;
    NeverOffDisk(g, s);
    StepReserved(g, s, CommitStep);
    var s', k, n := Apply(g, s, CommitStep), s.mode.k, |s.lh|;
    if n == 0 {
      assert Current(g, s') == Current(g, s);
    } else if k < n {
      WriteLogStep(g, s);
    } else if k == n {
      WriteHeadStep(g, s);
    } else if k < 2 * n + 1 {
      InstallStep(g, s);
    } else {
      InstalledIsDurable(g, s.disk, s'.disk);
      assert s.dirty == map[] by {
        assert s.lh[n..] == [];
      }
      assert Current(g, s') == Current(g, s);
    }
  }

  // ----- the theorems -----

  lemma StepRefines(g: Geometry, s: State, a: Action)
    requires Inv(g, s) && Enabled(g, s, a) && HasSlot(g, s, a)
    ensures Inv(g, Apply(g, s, a))
    ensures AbsNext(Abstract(g, s), Effect(s, a), Abstract(g, Apply(g, s, a)))
  {
    match a
    case BeginOp => BeginRefines(g, s);
    case Test(op, b) => TestRefines(g, s, op, b);
    case Record(op, data) => RecordRefines(g, s, op, data);
    case EndOp(op) => EndRefines(g, s, op);
    case CommitStep => CommitRefines(g, s);
    case Crash => CrashRefines(g, s);
    case RecoverStep => RecoverRefines(g, s);
  }

  lemma {:induction false} RunReserved(g: Geometry, ss: seq<State>, acts: seq<Action>, i: nat)
    requires IsRun(g, ss, acts) && Reserved(ss[0]) && i < |ss|
    ensures Reserved(ss[i])
  {
    hide Reserved, Enabled, Apply;
    if i > 0 {
      RunReserved(g, ss, acts, i - 1);
      assert IsStep(g, ss[i - 1], acts[i - 1], ss[i]);
      StepReserved(g, ss[i - 1], acts[i - 1]);
    }
  }

  /** Every record among the first n actions found a slot. */
  ghost predicate Slotted(g: Geometry, ss: seq<State>, acts: seq<Action>, n: nat) {
    n <= |acts| <= |ss| && forall i :: 0 <= i < n ==> HasSlot(g, ss[i], acts[i])
  }

  lemma SlottedBefore(g: Geometry, ss: seq<State>, acts: seq<Action>, m: nat, n: nat)
    requires Slotted(g, ss, acts, n) && m <= n
    ensures Slotted(g, ss, acts, m) && n <= |acts| <= |ss| && (m < n ==> HasSlot(g, ss[m], acts[m]))
  {
  }

  lemma StepOfRun(g: Geometry, ss: seq<State>, acts: seq<Action>, i: nat)
    requires IsRun(g, ss, acts) && i < |acts| && Inv(g, ss[i]) && HasSlot(g, ss[i], acts[i])
    ensures Inv(g, ss[i + 1])
    ensures AbsNext(Abstract(g, ss[i]), Effect(ss[i], acts[i]), Abstract(g, ss[i + 1]))
    ensures Effect(ss[i], acts[i]) != ACommit ==> Durable(g, ss[i + 1].disk) == Durable(g, ss[i].disk)
  {
    hide Inv, Enabled, Apply, HasSlot;
    assert IsStep(g, ss[i], acts[i], ss[i + 1]);
    StepRefines(g, ss[i], acts[i]);
  }

  lemma {:induction false} RunKeepsInv(g: Geometry, ss: seq<State>, acts: seq<Action>, i: nat)
    requires IsRun(g, ss, acts) && Inv(g, ss[0]) && Slotted(g, ss, acts, i)
    ensures Inv(g, ss[i])
  {
    hide Inv, Enabled, Apply, HasSlot;
    if i > 0 {
      RunKeepsInv(g, ss, acts, i - 1);
      StepOfRun(g, ss, acts, i - 1);
    }
  }

  /** Whatever the size of the log, a run is good all the way exactly when each of its records finds a slot. */
  lemma GoodRunExactly(g: Geometry, ss: seq<State>, acts: seq<Action>, n: nat)
    requires IsRun(g, ss, acts) && Inv(g, ss[0]) && n <= |acts|
    ensures (forall i :: 0 <= i <= n ==> Inv(g, ss[i])) <==> Slotted(g, ss, acts, n)
  {
    hide Inv, Enabled, Apply, HasSlot;
    if Slotted(g, ss, acts, n) {
      forall i | 0 <= i <= n
        ensures Inv(g, ss[i])
      {
        RunKeepsInv(g, ss, acts, i);
      }
    }
    if forall i :: 0 <= i <= n ==> Inv(g, ss[i]) {
      forall i | 0 <= i < n
        ensures HasSlot(g, ss[i], acts[i])
      {
        assert IsStep(g, ss[i], acts[i], ss[i + 1]);
        if !HasSlot(g, ss[i], acts[i]) { NoSlotNoInv(g, ss[i], acts[i]); }
      }
    }
  }

  /** A log with a slot for every block that may be listed: all runs are good. */
  lemma {:induction false} AllSlotted(g: Geometry, ss: seq<State>, acts: seq<Action>, n: nat)
    requires IsRun(g, ss, acts) && Inv(g, ss[0]) && EnoughSlots(g) && n <= |acts|
    ensures Slotted(g, ss, acts, n)
  {
    hide Inv, Enabled, Apply, HasSlot, EnoughSlots;
    if n > 0 {
      AllSlotted(g, ss, acts, n - 1);
      RunKeepsInv(g, ss, acts, n - 1);
      assert IsStep(g, ss[n - 1], acts[n - 1], ss[n]);
      SlotForEveryone(g, ss[n - 1], acts[n - 1]);
    }
  }

  // ----- one operation at a time -----

  /** At most one operation runs, alone since the last commit; past the size test it still has its slot. */
  ghost predicate Lone(g: Geometry, s: State) {
    && |s.ops| <= 1 && (s.mode == Running && s.ops == [] ==> s.lh == [])
    && (s.ops != [] ==> s.mode == Running && (s.ops[0].at.PastTest? ==> |s.lh| + 1 < g.size))
  }

  lemma LoneNext(g: Geometry, s: State, a: Action)
    requires Inv(g, s) && Lone(g, s) && Enabled(g, s, a) && (a.BeginOp? ==> s.ops == [])
    ensures HasSlot(g, s, a) && Lone(g, Apply(g, s, a))
  {
  }

  /** Then every record finds a slot in a log of any size: the test of log_write is enough. */
  lemma {:induction false} OneAtATime(g: Geometry, ss: seq<State>, acts: seq<Action>, n: nat)
    requires IsRun(g, ss, acts) && Inv(g, ss[0]) && Lone(g, ss[0]) && n <= |acts|
    requires forall i :: 0 <= i < n && acts[i].BeginOp? ==> ss[i].ops == []
    ensures Slotted(g, ss, acts, n) && Lone(g, ss[n])
  {
    hide Inv, Enabled, Apply, HasSlot, Lone;
    if n > 0 {
      OneAtATime(g, ss, acts, n - 1);
      RunKeepsInv(g, ss, acts, n - 1);
      assert IsStep(g, ss[n - 1], acts[n - 1], ss[n]);
      LoneNext(g, ss[n - 1], acts[n - 1]);
    }
  }

  lemma RunningIsDurable(g: Geometry, s: State, s0: State)
    requires Inv(g, s) && Inv(g, s0) && Durable(g, s.disk) == Durable(g, s0.disk)
    ensures s.mode == Running ==> (forall b :: Home(g, b) ==> s.disk[b] == DurableAt(g, s0.disk, b))
  {
    hide OpsOk;
    forall b | Home(g, b)
      ensures DurableAt(g, s.disk, b) == DurableAt(g, s0.disk, b)
    {
      assert Durable(g, s.disk)[b] == Durable(g, s0.disk)[b];
    }
  }

  lemma {:induction false} NoCommitNoChange(g: Geometry, ss: seq<State>, acts: seq<Action>, from: nat, to: nat)
    requires IsRun(g, ss, acts) && Inv(g, ss[0]) && Slotted(g, ss, acts, to) && from <= to
    requires forall i :: from <= i < to ==> Effect(ss[i], acts[i]) != ACommit
    ensures |ss| == |acts| + 1 && Inv(g, ss[from]) && Inv(g, ss[to])
    ensures Durable(g, ss[to].disk) == Durable(g, ss[from].disk)
  {
    assert |ss| == |acts| + 1;
    SlottedBefore(g, ss, acts, from, to);
    SlottedBefore(g, ss, acts, if to > 0 then to - 1 else 0, to);
    hide Inv, Apply, Enabled, IsRun, Durable, Effect, HasSlot, Slotted, Abstract, AbsNext;
    RunKeepsInv(g, ss, acts, from);
    if from < to {
      NoCommitNoChange(g, ss, acts, from, to - 1);
      StepOfRun(g, ss, acts, to - 1);
    }
  }

  /** The durable contents never change except at a commit point, where they become exactly what the
      finished operations had written; so after any run whose records all find slots, with any crashes, a finished
      recovery leaves the home blocks as they were at the last commit point. */
  lemma DurableBetweenCommits(g: Geometry, ss: seq<State>, acts: seq<Action>, from: nat, to: nat)
    requires IsRun(g, ss, acts) && Inv(g, ss[0]) && Slotted(g, ss, acts, to) && from <= to
    requires forall i :: from <= i < to ==> Effect(ss[i], acts[i]) != ACommit
    ensures |ss| == |acts| + 1 && Inv(g, ss[from]) && Inv(g, ss[to])
    ensures Abstract(g, ss[to]).durable == Abstract(g, ss[from]).durable
    ensures ss[to].mode == Running ==>
              (forall b :: Home(g, b) ==> ss[to].disk[b] == DurableAt(g, ss[from].disk, b))
  {
    assert |ss| == |acts| + 1;
    hide Inv, IsRun, Durable, Effect, Home, Slotted;
    NoCommitNoChange(g, ss, acts, from, to);
    RunningIsDurable(g, ss[to], ss[from]);
  }

  lemma CommitPointIsAtomic(g: Geometry, s: State)
    requires Inv(g, s) && Effect(s, CommitStep) == ACommit
    ensures s.ops == [] && Enabled(g, s, CommitStep)
    ensures var s' := Apply(g, s, CommitStep);
      Inv(g, s') && forall b :: Home(g, b) ==> DurableAt(g, s'.disk, b) == Cached(s.disk, s.dirty, b)
  {
    hide OpsOk;
    WriteHeadStep(g, s);
    HeaderMakesDurable(g, s.disk, s.dirty, s.lh);
  }
}
