/** The log of log.c as code: an object whose methods update the disk, the pinned buffers and the
    in-memory header in place.  Every method is proved to perform exactly the steps of LogSpec. */
module LogDriver {
  import opened Blocks
  import opened Octets
  import opened LogSpec
  import opened LogRefinement

  /** The block write that comes next in a commit or a recovery. */
  function IO(s: State): Action {
    if s.mode.Committing? then CommitStep else RecoverStep
  }

  /** The next block write is always possible and keeps the invariant. */
  lemma NextIO(g: Geometry, s: State)
    requires Inv(g, s) && !s.mode.Running?
    ensures Enabled(g, s, IO(s)) && Inv(g, Apply(g, s, IO(s)))
  {
    hide Inv;
    NeverOffDisk(g, s);
    StepRefines(g, s, IO(s));
  }

  /** k block writes of the commit or recovery under way; nothing more once it has finished. */
  ghost function After(g: Geometry, s: State, k: nat): (r: State)
    requires Inv(g, s)
    ensures Inv(g, r)
  {
    if k == 0 then s
    else
      var p := After(g, s, k - 1);
      if p.mode.Running? then p else (NextIO(g, p); Apply(g, p, IO(p)))
  }

  lemma AfterZero(g: Geometry, s: State)
    requires Inv(g, s)
    ensures After(g, s, 0) == s
  {
  }

  lemma AfterNext(g: Geometry, s: State, k: nat)
    requires Inv(g, s)
    ensures var p := After(g, s, k);
      Inv(g, p) && (!p.mode.Running? ==> Enabled(g, p, IO(p)) && After(g, s, k + 1) == Apply(g, p, IO(p)))
  {
    hide Inv;
    if !After(g, s, k).mode.Running? { NextIO(g, After(g, s, k)); }
  }

  lemma RunningAfter(g: Geometry, s: State, k: nat)
    requires Inv(g, s) && After(g, s, k).mode.Running?
    ensures After(g, s, k + 1) == After(g, s, k)
  {
  }

  lemma EmptyCommit(g: Geometry, s: State)
    requires Inv(g, s) && s.mode == Committing(0) && s.lh == []
    ensures After(g, s, 2) == s.(mode := Running) && s.ops == []
  {
    AfterZero(g, s);
    AfterNext(g, s, 0);
    RunningAfter(g, s, 1);
  }

  // ----- the next state, written out for each kind of block write -----

  lemma NextWriteLog(g: Geometry, s: State)
    requires Inv(g, s) && s.mode.Committing? && s.mode.k < |s.lh|
    ensures g.start + 1 + s.mode.k !in s.dirty && g.start + 1 + s.mode.k < |s.disk| && s.lh[s.mode.k] < |s.disk|
    ensures Enabled(g, s, CommitStep)
    ensures var k := s.mode.k;
      Apply(g, s, CommitStep) ==
      State(s.disk[g.start + 1 + k := Cached(s.disk, s.dirty, s.lh[k])], s.dirty, s.lh, s.ops, Committing(k + 1))
  {
  }

  lemma NextRecord(g: Geometry, s: State, op: nat, data: FBlk)
    requires Inv(g, s) && Enabled(g, s, Record(op, data))
    ensures var b, s' := s.ops[op].at.b, Apply(g, s, Record(op, data));
      && s' == State(s.disk, s.dirty[b := data], Absorb(s.lh, b), s.ops[op := Op(s.ops[op].logged + {b}, Elsewhere)],
          Running)
      && |s'.lh| <= LOGSIZE && (Inv(g, s') <==> |s'.lh| < g.size) && (EnoughSlots(g) ==> Inv(g, s'))
  {
    RecordFits(s, op);
    if HasSlot(g, s, Record(op, data)) {
      RecordRefines(g, s, op, data);
    } else {
      NoSlotNoInv(g, s, Record(op, data));
    }
    if EnoughSlots(g) {
      SlotForEveryone(g, s, Record(op, data));
    }
  }

  lemma NextTest(g: Geometry, s: State, op: nat, b: nat)
    requires Inv(g, s) && Enabled(g, s, Test(op, b))
    ensures var s' := Apply(g, s, Test(op, b));
      Inv(g, s') && s' == s.(ops := s.ops[op := s.ops[op].(at := PastTest(b))])
  {
    TestRefines(g, s, op, b);
  }

  lemma NextEnd(g: Geometry, s: State, op: nat) returns (s': State)
    requires Inv(g, s) && Enabled(g, s, EndOp(op))
    ensures Inv(g, s') && s' == Apply(g, s, EndOp(op))
    ensures var ops := s.ops[..op] + s.ops[op + 1..];
      s' == s.(ops := ops, mode := if ops == [] then Committing(0) else Running)
  {
    EndRefines(g, s, op);
    s' := Apply(g, s, EndOp(op));
  }

  lemma NextWriteHead(g: Geometry, s: State)
    requires Inv(g, s) && s.mode.Committing? && s.mode.k == |s.lh| > 0
    ensures g.start !in s.dirty && g.start < |s.disk| && |s.lh| <= LOGSIZE && Numbers(s.lh) && Enabled(g, s, CommitStep)
    ensures Apply(g, s, CommitStep) ==
      State(s.disk[g.start := HeadBlock(s.disk[g.start], s.lh)], s.dirty, s.lh, s.ops, Committing(|s.lh| + 1))
  {
  }

  lemma NextInstall(g: Geometry, s: State)
    requires Inv(g, s)
    requires s.mode.Recovering? && s.mode.k < |s.lh|
    ensures s.lh[s.mode.k] < |s.disk| && s.dirty == map[] && g.start + 1 + s.mode.k < |s.disk|
              && Enabled(g, s, RecoverStep)
    ensures Apply(g, s, RecoverStep) ==
      State(s.disk[s.lh[s.mode.k] := Slot(s.disk, g, s.mode.k)], map[], s.lh, s.ops, Recovering(s.mode.k + 1))
  {
  }

  lemma NextClear(g: Geometry, s: State)
    requires Inv(g, s)
    requires if s.mode.Committing? then s.mode.k == 2 * |s.lh| + 1 && |s.lh| > 0
             else s.mode == Recovering(|s.lh|)
    ensures s.dirty == map[] && s.ops == [] && g.start < |s.disk| && Enabled(g, s, IO(s))
    ensures Apply(g, s, IO(s)) ==
      State(s.disk[g.start := HeadBlock(s.disk[g.start], [])], map[], [], [], Running)
  {
    if s.mode.Committing? {
      assert s.lh[|s.lh|..] == [];
    }
  }

  lemma RunningStays(g: Geometry, s: State, k: nat)
    requires Inv(g, s) && s.mode == Running
    ensures After(g, s, k) == s
  {
  }

  lemma InstallInRange(g: Geometry, s: State, tail: nat)
    requires Inv(g, s) && tail < |s.lh|
    ensures g.start + 1 + tail < |s.disk| && s.lh[tail] < |s.disk|
    ensures Usable(g, s.disk, s.lh)
    ensures s.mode.Committing? ==> RecoverIO(g, s.disk, s.lh, tail) == s.disk[s.lh[tail] := Slot(s.disk, g, tail)]
  {
  }

  lemma RecoverEnds(g: Geometry, s: State)
    requires Inv(g, s) && s.mode.Recovering? && Enabled(g, s, RecoverStep)
    ensures !Apply(g, s, RecoverStep).mode.Committing?
  {
  }

  lemma {:induction false} RecoveryKeepsDurable(g: Geometry, s: State, k: nat)
    requires Inv(g, s) && s.mode.Recovering?
    ensures !After(g, s, k).mode.Committing?
    ensures Durable(g, After(g, s, k).disk) == Durable(g, s.disk)
  {
    hide Inv, Apply, After, Durable, GoodDisk, Enabled;
    if k == 0 {
      AfterZero(g, s);
    } else {
      RecoveryKeepsDurable(g, s, k - 1);
      var p := After(g, s, k - 1);
      if p.mode.Running? {
        RunningAfter(g, s, k - 1);
      } else {
        AfterNext(g, s, k - 1);
        RecoverRefines(g, p);
        RecoverEnds(g, p);
      }
    }
  }

  lemma RecoveredDisk(g: Geometry, s: State, s0: State)
    requires Inv(g, s) && Inv(g, s0) && s.mode == Running && Durable(g, s.disk) == Durable(g, s0.disk)
    ensures |s.disk| == g.nblocks && GoodDisk(g, s0.disk)
    ensures forall b :: Home(g, b) ==> s.disk[b] == DurableAt(g, s0.disk, b)
  {
    RunningIsDurable(g, s, s0);
  }

  lemma CommitStepKeeps(g: Geometry, s: State)
    requires Inv(g, s) && s.mode.Committing?
    ensures Enabled(g, s, CommitStep) && Inv(g, Apply(g, s, CommitStep)) && !Apply(g, s, CommitStep).mode.Recovering?
    ensures Current(g, Apply(g, s, CommitStep)) == Current(g, s)
  {
    CommitRefines(g, s);
    hide Inv, Durable, Current;
  }

  /** No block write of the commit changes what the file system reads. */
  lemma {:induction false} CommitKeepsCurrent(g: Geometry, s: State, k: nat)
    requires Inv(g, s) && s.mode == Committing(0)
    ensures !After(g, s, k).mode.Recovering? && Current(g, After(g, s, k)) == Current(g, s)
  {
    hide Inv, Apply, After, Current, Enabled;
    if k == 0 {
      AfterZero(g, s);
    } else {
      CommitKeepsCurrent(g, s, k - 1);
      var p := After(g, s, k - 1);
      if p.mode.Running? {
        RunningAfter(g, s, k - 1);
      } else {
        AfterNext(g, s, k - 1);
        CommitStepKeeps(g, p);
      }
    }
  }

  lemma NothingPinned(dirty: map<nat, FBlk>, lh: seq<nat>)
    requires Pinned(dirty, lh) && lh == []
    ensures dirty == map[]
  {
  }

  /** When the commit is over every home block holds its newest contents and nothing is pinned. */
  lemma CommitDone(g: Geometry, s: State, k: nat)
    requires Inv(g, s) && s.mode == Committing(0)
    requires var e := After(g, s, k); e.mode == Running && e.lh == []
    ensures var e := After(g, s, k);
      && |s.disk| == g.nblocks == |e.disk| && e.dirty == map[] && HeadN(e.disk, g) == 0
      && forall b :: Home(g, b) ==> e.disk[b] == if b in s.dirty then s.dirty[b] else s.disk[b]
  {
    var e := After(g, s, k);
    hide After;
    CommitKeepsCurrent(g, s, k);
    NothingPinned(e.dirty, e.lh);
    forall b | Home(g, b)
      ensures CurrentAt(g, e, b) == CurrentAt(g, s, b)
    {
      assert Current(g, e)[b] == Current(g, s)[b];
    }
  }

  lemma SlotsWritten(g: Geometry, s: State)
    requires Inv(g, s) && s.mode == Committing(|s.lh|)
    ensures |s.disk| == g.nblocks && g.start + g.size <= g.nblocks && |s.lh| < g.size
    ensures forall k :: 0 <= k < |s.lh| ==> s.lh[k] in s.dirty && s.disk[g.start + 1 + k] == s.dirty[s.lh[k]]
  {
    forall k | 0 <= k < |s.lh|
      ensures s.lh[k] in s.dirty && s.disk[g.start + 1 + k] == s.dirty[s.lh[k]]
    {
      assert Home(g, s.lh[k]) && Cached(s.disk, s.dirty, s.lh[k]) == Slot(s.disk, g, k);
    }
  }

  class Log {
    const g: Geometry
    var disk: Disk
    var dirty: map<nat, FBlk>
    var n: nat
    const block: array<nat>
    var outstanding: nat
    var committing: bool
    ghost var ops: seq<Op>
    ghost var mode: Mode

    ghost function View(): State
      requires n <= block.Length
      reads this, block
    {
      State(disk, dirty, block[..n], ops, mode)
    }

    ghost predicate Valid()
      reads this, block
    {
      && block.Length == LOGSIZE && n <= LOGSIZE && Inv(g, View())
      && outstanding == |ops| && (committing <==> mode.Committing?)
    }

    method ReadHead()
      requires block.Length == LOGSIZE && GoodDisk(g, disk)
      modifies this`n, block
      ensures n <= LOGSIZE && block[..n] == HeadList(disk, g)
    {
      var lh := disk[g.start];
      n := Ptr(lh, 0);
      assert forall i :: 0 <= i < n ==> Home(g, HeadList(disk, g)[i]) && Ptr(lh, 1 + i) == HeadList(disk, g)[i];
      for i := 0 to n
        invariant n == Ptr(lh, 0) && block[..i] == HeadList(disk, g)[..i]
      {
        assert Home(g, HeadList(disk, g)[i]);
        block[i] := Ptr(lh, 1 + i);
      }
      assert block[..n] == HeadList(disk, g)[..n] == HeadList(disk, g);
    }

    /** The machine comes up with this disk; read_head fills the in-memory header. */
    constructor (g: Geometry, disk: Disk)
      requires GoodDisk(g, disk)
      ensures Valid() && this.g == g && View() == Boot(g, disk) && fresh(block)
    {
      this.g, this.disk, this.dirty := g, disk, map[];
      block := new nat[LOGSIZE];
      n, outstanding, committing := 0, 0, false;
      ops, mode := [], Recovering(0);
      new;
      ReadHead();
    }

    method BWrite(b: nat, data: FBlk)
      requires b < |disk|
      modifies this`disk, this`dirty
      ensures disk == old(disk)[b := data] && dirty == old(dirty) - {b}
    {
      disk := disk[b := data];
      dirty := dirty - {b};
    }

    /** One pass through the loop of begin_op; the caller sleeps when the answer is no. */
    method BeginOp() returns (admitted: bool)
      requires Valid() && !mode.Recovering?
      modifies this
      ensures admitted <==> MayBegin(old(View()))
      ensures admitted <==> old(!committing) && old(n) + (old(outstanding) + 1) * 10 <= 30
      ensures outstanding == old(outstanding) + if admitted then 1 else 0
      ensures Valid() && View() == if admitted then Apply(g, old(View()), LogSpec.BeginOp) else old(View())
    {
      if committing {
        admitted := false;
      } else if n + (outstanding + 1) * MAXOPBLOCKS > LOGSIZE {
        admitted := false;
      } else {
        BeginRefines(g, View());
        outstanding := outstanding + 1;
        ops := ops + [FRESH_OP];
        admitted := true;
      }
    }

    /** The tests of log_write, made without the lock; false stands for panic("too big a transaction"). */
    method TestSize(ghost op: nat, b: nat) returns (ok: bool)
      requires Valid() && WithinBudget(g, View(), op, b)
      modifies this`ops
      ensures ok <==> !LogWritePanics(g, old(View()))
      ensures ok <==> n < 30 && n < g.size - 1
      ensures Valid() && View() == if ok then Apply(g, old(View()), Test(op, b)) else old(View())
    {
      hide Inv;
      if n >= LOGSIZE || n >= g.size - 1 {
        return false;
      }
      NextTest(g, View(), op, b);
      ops := ops[op := ops[op].(at := PastTest(b))];
      ok := true;
    }

    /** The search loop of log_write and the entry it writes. */
    method RecordBlock(b: nat)
      requires n <= LOGSIZE == block.Length && |Absorb(block[..n], b)| <= LOGSIZE
      modifies this`n, block
      ensures n <= LOGSIZE && block[..n] == Absorb(old(block[..n]), b)
      ensures block[..n] == if b in old(block[..n]) then old(block[..n]) else old(block[..n]) + [b]
    {
      ghost var lh := block[..n];
      var i := 0;
      while i < n && block[i] != b
        invariant i <= n == |lh| && block[..n] == lh
        invariant b !in block[..i]
      {
        i := i + 1;
      }
      block[i] := b;
      if i == n {
        n := n + 1;
      }
      assert i < |lh| ==> lh[i] == b && block[..n] == lh;
      assert i == |lh| ==> lh == block[..i] && block[..n] == lh + [b];
    }

    /** The locked half of log_write.  Since the test others may have recorded blocks of their own, and then the log
        on disk may have no slot left for this one. */
    method Record(ghost op: nat, b: nat, data: FBlk)
      requires Valid() && mode == Running && op < |ops| && ops[op].at == PastTest(b)
      modifies this, block
      ensures n <= LOGSIZE == block.Length && View() == Apply(g, old(View()), LogSpec.Record(op, data))
      ensures dirty == old(dirty)[b := data] && disk == old(disk)
      ensures block[..n] == if b in old(block[..n]) then old(block[..n]) else old(block[..n]) + [b]
      ensures Valid() <==> n < g.size
      ensures EnoughSlots(g) ==> Valid()
    {
      hide Inv, Apply, Home;
      NextRecord(g, View(), op, data);
      RecordBlock(b);
      dirty := dirty[b := data];
      ops := ops[op := Op(ops[op].logged + {b}, Elsewhere)];
    }

    /** log_write when no other process gets between its halves. */
    method LogWrite(ghost op: nat, b: nat, data: FBlk) returns (ok: bool)
      requires Valid() && WithinBudget(g, View(), op, b)
      modifies this, block
      ensures ok <==> !LogWritePanics(g, old(View()))
      ensures Valid() && (!ok ==> View() == old(View()))
      ensures ok ==> disk == old(disk) && dirty == old(dirty)[b := data] && block[..n] == Absorb(old(block[..n]), b)
                     && ops == old(ops)[op := Op(old(ops)[op].logged + {b}, Elsewhere)]
    {
      hide Inv;
      ghost var lh, was := block[..n], ops;
      ok := TestSize(op, b);
      if ok {
        assert ops == was[op := was[op].(at := PastTest(b))];
        ghost var s := View();
        Record(op, b, data);
        assert View().lh == Absorb(lh, b) && |Absorb(lh, b)| <= |lh| + 1;
        assert View().ops == s.ops[op := Op(was[op].logged + {b}, Elsewhere)];
      }
    }

    /** Copies each listed block from the cache to its slot. */
    method WriteLog()
      requires Valid() && mode == Committing(0) && n > 0
      modifies this`disk, this`dirty, this`mode
      ensures mode == Committing(n)
      ensures Inv(g, old(View())) && View() == After(g, old(View()), n)
      ensures dirty == old(dirty) && |disk| == |old(disk)| == g.nblocks && n < g.size
      ensures forall k :: 0 <= k < n ==>
                block[k] in old(dirty) && disk[g.start + 1 + k] == old(dirty)[block[k]]
      ensures forall b :: 0 <= b < |disk| && !(g.start < b <= g.start + n) ==> disk[b] == old(disk)[b]
    {
      hide Inv, Apply, After, HeadBlock, Numbers, Enabled;
      ghost var s := View();
      AfterZero(g, s);
      for tail := 0 to n
        invariant mode == Committing(tail) && View() == After(g, s, tail)
        invariant dirty == old(dirty) && |disk| == |old(disk)|
        invariant forall b :: 0 <= b < |disk| && !(g.start < b <= g.start + tail) ==> disk[b] == old(disk)[b]
      {
        ghost var s1 := View();
        AfterNext(g, s, tail);
        NextWriteLog(g, s1);
        assert s1.lh[tail] == block[tail];
        var from := if block[tail] in dirty then dirty[block[tail]] else disk[block[tail]];
        BWrite(g.start + tail + 1, from);
        mode := Committing(tail + 1);
        assert View() == Apply(g, s1, IO(s1));
      }
      SlotsWritten(g, View());
    }

    /** Overwrites the first n+1 words of the header block. */
    method WriteHead()
      requires g.start < |disk| && n <= LOGSIZE == block.Length && g.start !in dirty && Numbers(block[..n])
      modifies this`disk, this`dirty
      ensures disk == old(disk)[g.start := HeadBlock(old(disk)[g.start], block[..n])]
      ensures dirty == old(dirty)
    {
      var hb := PutPtr(disk[g.start], 0, n);
      ghost var start := hb;
      for i := 0 to n
        invariant hb == PutList(start, block[..i])
      {
        assert block[..i + 1][..i] == block[..i];
        hb := PutPtr(hb, 1 + i, block[i]);
      }
      BWrite(g.start, hb);
    }

    /** Copies every slot to its home block; used by commit (after n+1 writes) and by recovery (first). */
    method InstallTrans(ghost s: State, ghost done: nat)
      requires n <= LOGSIZE == block.Length && Inv(g, s) && View() == After(g, s, done)
      requires mode == if mode.Committing? then Committing(n + 1) else Recovering(0)
      requires mode.Committing? ==> n > 0
      modifies this`disk, this`dirty, this`mode
      ensures View() == After(g, s, done + n)
      ensures mode == if old(mode).Committing? then Committing(2 * n + 1) else Recovering(n)
    {
      hide Inv, Apply, After, HeadBlock, Numbers, Enabled;
      for tail := 0 to n
        invariant View() == After(g, s, done + tail)
        invariant mode == if old(mode).Committing? then Committing(n + 1 + tail) else Recovering(tail)
      {
        ghost var s1 := View();
        AfterNext(g, s, done + tail);
        assert s1.lh[tail] == block[tail];
        if mode.Committing? {
          InstallApply(g, s1, tail);
        } else {
          NextInstall(g, s1);
        }
        InstallInRange(g, s1, tail);
        var lbuf := disk[g.start + tail + 1];
        BWrite(block[tail], lbuf);
        mode := if mode.Committing? then Committing(n + 2 + tail) else Recovering(tail + 1);
        assert View() == Apply(g, s1, IO(s1));
      }
    }

    method Commit()
      requires Valid() && mode == Committing(0)
      modifies this`disk, this`dirty, this`n, this`mode
      ensures n == 0 && mode == Running && ops == []
      ensures Inv(g, old(View())) && View() == After(g, old(View()), 2 * old(n) + 2)
      ensures dirty == map[] && |disk| == |old(disk)| == g.nblocks && HeadN(disk, g) == 0
      ensures forall b :: Home(g, b) ==> disk[b] == if b in old(dirty) then old(dirty)[b] else old(disk)[b]
    {
      hide Inv, Apply, After, HeadBlock, Numbers, Enabled, HeadN;
      ghost var s, m := View(), n;
      if n > 0 {
        WriteLog();
        ghost var s1 := View();
        AfterNext(g, s, n);
        NextWriteHead(g, s1);
        WriteHead();
        mode := Committing(n + 1);
        assert View() == Apply(g, s1, IO(s1));
        InstallTrans(s, m + 1);
        ghost var s2 := View();
        AfterNext(g, s, 2 * m + 1);
        NextClear(g, s2);
        n := 0;
        WriteHead();
        mode := Running;
        assert View() == Apply(g, s2, IO(s2));
      } else {
        EmptyCommit(g, s);
        mode := Running;
      }
      CommitDone(g, s, 2 * m + 2);
    }

    /** end_op: the last operation out commits, all of it, before the flag is cleared again. */
    method EndOp(ghost op: nat)
      requires Valid() && mode == Running && op < |ops| && ops[op].at == Elsewhere
      modifies this, block
      ensures Valid() && mode == Running
      ensures var s := Apply(g, old(View()), LogSpec.EndOp(op));
        Inv(g, s) && View() == After(g, s, 2 * |s.lh| + 2)
      ensures outstanding == old(outstanding) - 1
      ensures outstanding > 0 ==> disk == old(disk) && dirty == old(dirty) && block[..n] == old(block[..n])
      ensures outstanding == 0 ==>
                n == 0 && dirty == map[] && |disk| == |old(disk)| == g.nblocks && HeadN(disk, g) == 0
                && forall b :: Home(g, b) ==> disk[b] == if b in old(dirty) then old(dirty)[b] else old(disk)[b]
    {
      hide Inv, Apply, After, HeadBlock, Numbers, Enabled;
      ghost var s := NextEnd(g, View(), op);
      outstanding := outstanding - 1;
      ops := ops[..op] + ops[op + 1..];
      if outstanding == 0 {
        committing, mode := true, Committing(0);
        Commit();
        committing := false;
      } else {
        RunningStays(g, s, 2 * |s.lh| + 2);
      }
    }

    method RecoverFromLog()
      requires Valid() && mode == Recovering(0)
      modifies this`disk, this`dirty, this`n, this`mode
      ensures mode == Running && n == 0 && ops == []
      ensures Inv(g, old(View())) && View() == After(g, old(View()), old(n) + 1)
      ensures |disk| == g.nblocks && forall b :: Home(g, b) ==> disk[b] == DurableAt(g, old(disk), b)
    {
      hide Inv, Apply, After, Durable;
      ghost var s, m := View(), n;
      AfterZero(g, s);
      InstallTrans(s, 0);
      ghost var s1 := View();
      AfterNext(g, s, m);
      NextClear(g, s1);
      n := 0;
      WriteHead();
      mode := Running;
      assert View() == Apply(g, s1, IO(s1)) == After(g, s, m + 1);
      RecoveryKeepsDurable(g, s, m + 1);
      RecoveredDisk(g, View(), s);
    }
  }
}
