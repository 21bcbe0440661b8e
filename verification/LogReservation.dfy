/** Space reservation of the log, over every run and every interleaving of operations; and which logs have a slot
    for every block that the reservations admit. */
module LogReservation {
  import opened Blocks
  import opened Octets
  import opened LogSpec
  import opened LogRefinement

  ghost predicate Reaches(g: Geometry, d: Disk, ss: seq<State>, acts: seq<Action>)
    requires GoodDisk(g, d)
  {
    IsRun(g, ss, acts) && ss[0] == Boot(g, d)
  }

  lemma BootOk(g: Geometry, d: Disk)
    requires GoodDisk(g, d)
    ensures Inv(g, Boot(g, d))
  {
  }

  /** Listed blocks plus unused reservations fit in the log, and nobody runs while committing: in every state of
      every run, whatever the size of the log. */
  lemma ReservationSafe(g: Geometry, d: Disk, ss: seq<State>, acts: seq<Action>, i: nat)
    requires GoodDisk(g, d) && Reaches(g, d, ss, acts) && i < |ss|
    ensures |ss[i].lh| + Unused(ss[i].ops) <= LOGSIZE
    ensures ss[i].mode.Committing? ==> ss[i].ops == []
  {
    BootOk(g, d);
    RunReserved(g, ss, acts, i);
  }

  /** A block the operation has not logged yet always finds a free entry in the in-memory header;
      whether it finds a slot depends on log.size alone. */
  lemma PanicExactly(g: Geometry, s: State, op: nat, b: nat)
    requires Reserved(s) && WithinBudget(g, s, op, b)
    ensures b !in s.ops[op].logged ==> |s.lh| < LOGSIZE
    ensures b !in s.ops[op].logged ==> (LogWritePanics(g, s) <==> |s.lh| >= g.size - 1)
    ensures b !in s.ops[op].logged && g.size > LOGSIZE ==> !LogWritePanics(g, s)
  {
    if b !in s.ops[op].logged {
      UnusedAtLeast(s.ops, op);
      assert |s.ops[op].logged + {b}| == |s.ops[op].logged| + 1;
    }
  }

  // ----- building runs -----

  function One(): FBlk {
    ZeroFBlk()[0 := 1]
  }

  function EmptyDisk(g: Geometry): Disk {
    seq(g.nblocks, i => ZeroFBlk())
  }

  /** The home block behind the last slot. */
  function Victim(g: Geometry): nat {
    g.start + g.size
  }

  function Target(g: Geometry, i: nat): nat {
    g.start + g.size + 1 + i
  }

  function Targets(g: Geometry, k: nat): (lh: seq<nat>)
    ensures |lh| == k && forall i :: 0 <= i < k ==> lh[i] == Target(g, i)
  {
    if k == 0 then [] else Targets(g, k - 1) + [Target(g, k - 1)]
  }

  predicate Roomy(g: Geometry) {
    Fits(g) && g.nblocks >= g.start + g.size + LOGSIZE + 2
  }

  predicate Spares(g: Geometry, s: State, a: Action) {
    Effect(s, a) != ACommit && (Effect(s, a).AWrite? ==> Effect(s, a).b != Victim(g))
  }

  /** A run from boot in which no operation writes the victim and nothing commits. */
  ghost predicate Path(g: Geometry, ss: seq<State>, acts: seq<Action>) {
    && Roomy(g) && GoodDisk(g, EmptyDisk(g)) && Reaches(g, EmptyDisk(g), ss, acts)
    && forall i :: 0 <= i < |acts| ==> Spares(g, ss[i], acts[i])
  }

  ghost function End(ss: seq<State>): State
    requires ss != []
  {
    ss[|ss| - 1]
  }

  lemma Extend(g: Geometry, ss: seq<State>, acts: seq<Action>, a: Action) returns (ss': seq<State>, acts': seq<Action>)
    requires Path(g, ss, acts) && ss != [] && Enabled(g, End(ss), a) && Spares(g, End(ss), a)
    ensures Path(g, ss', acts') && ss' != [] && End(ss') == Apply(g, End(ss), a)
  {
    hide Enabled, Apply, Spares, GoodDisk, Roomy, Boot;
    var n := |acts|;
    ss', acts' := ss + [Apply(g, ss[n], a)], acts + [a];
    forall i | 0 <= i < |acts'|
      ensures IsStep(g, ss'[i], acts'[i], ss'[i + 1]) && Spares(g, ss'[i], acts'[i])
    {
      if i < n { assert IsStep(g, ss[i], acts[i], ss[i + 1]) && Spares(g, ss[i], acts[i]); }
    }
  }

  /** What the last disk of such a run still looks like. */
  ghost predicate Untouched(g: Geometry, d: Disk) {
    |d| == g.nblocks && Victim(g) < |d| && d[Victim(g)] == ZeroFBlk() && HeadN(d, g) == 0
  }

  lemma Booted(g: Geometry) returns (ss: seq<State>, acts: seq<Action>)
    requires Roomy(g)
    ensures Path(g, ss, acts) && ss != []
    ensures var s := End(ss); Inv(g, s) && s.mode == Running && s.lh == [] && s.ops == [] && Untouched(g, s.disk)
  {
    var d := EmptyDisk(g);
    ZeroPtr(0);
    assert GoodDisk(g, d) && HeadList(d, g) == [];
    var s0 := Boot(g, d);
    BootOk(g, d);
    RecoverRefines(g, s0);
    HeaderWritten(g, d, [], d[g.start := HeadBlock(d[g.start], [])]);
    ss, acts := Extend(g, [s0], [], RecoverStep);
  }

  // ----- filling the log -----

  /** How many of the numbers 0 .. k-1 leave remainder j by three. */
  function Turns(k: nat, j: nat): int {
    (k + 2 - j) / 3
  }

  /** Three operations run; they have logged k different blocks, taking turns. */
  ghost predicate Filled(g: Geometry, s: State, k: nat) {
    && s.mode == Running && |s.ops| == 3 && s.lh == Targets(g, k) && Untouched(g, s.disk)
    && forall j :: 0 <= j < 3 ==> s.ops[j].at == Elsewhere && |s.ops[j].logged| == Turns(k, j)
                                  && forall b :: b in s.ops[j].logged ==> b in s.lh
  }

  lemma OneMore(g: Geometry, ss: seq<State>, acts: seq<Action>) returns (ss': seq<State>, acts': seq<Action>)
    requires Path(g, ss, acts) && ss != [] && Inv(g, End(ss))
    requires var s := End(ss); s.mode == Running && s.lh == [] && |s.ops| < 3 && Untouched(g, s.disk)
    ensures Path(g, ss', acts') && ss' != [] && Inv(g, End(ss'))
    ensures End(ss') == End(ss).(ops := End(ss).ops + [FRESH_OP])
  {
    BeginRefines(g, End(ss));
    ss', acts' := Extend(g, ss, acts, BeginOp);
  }

  lemma NothingFilled(g: Geometry, s: State)
    requires s.mode == Running && s.lh == [] && s.ops == [] + [FRESH_OP] + [FRESH_OP] + [FRESH_OP]
        && Untouched(g, s.disk)
    ensures Filled(g, s, 0)
  {
  }

  lemma ThreeBegin(g: Geometry) returns (ss: seq<State>, acts: seq<Action>)
    requires Roomy(g)
    ensures Path(g, ss, acts) && ss != [] && Inv(g, End(ss)) && Filled(g, End(ss), 0)
  {
    hide Inv, Path, Roomy, Filled;
    ss, acts := Booted(g);
    ss, acts := OneMore(g, ss, acts);
    ss, acts := OneMore(g, ss, acts);
    ss, acts := OneMore(g, ss, acts);
    NothingFilled(g, End(ss));
  }

  /** In a filled state the next block is new, and within the budget of the operation whose turn it is. */
  lemma FreshTarget(g: Geometry, s: State, k: nat, j: nat)
    requires Roomy(g) && k < LOGSIZE && Filled(g, s, k) && k <= j <= k + 1 && j < LOGSIZE
    ensures WithinBudget(g, s, j % 3, Target(g, j))
    ensures Target(g, j) !in s.lh && Target(g, j) !in s.ops[j % 3].logged
  {
    assert |s.ops[j % 3].logged + {Target(g, j)}| <= |s.ops[j % 3].logged| + 1;
  }

  /** Test and record of block j with nothing in between, or with the other test in between. */
  lemma FillOne(g: Geometry, s: State, s': State, k: nat, data: FBlk)
    requires Roomy(g) && k < LOGSIZE && Filled(g, s, k)
    requires var j, b := k % 3, Target(g, k);
      s' == s.(dirty := s.dirty[b := data], lh := Absorb(s.lh, b),
          ops := s.ops[j := Op(s.ops[j].logged + {b}, Elsewhere)])
    ensures Filled(g, s', k + 1)
  {
    FreshTarget(g, s, k, k);
    var b := Target(g, k);
    assert b !in s.ops[k % 3].logged;
    assert |s.ops[k % 3].logged + {b}| == |s.ops[k % 3].logged| + 1;
  }

  lemma LogNext(g: Geometry, ss: seq<State>, acts: seq<Action>, k: nat) returns (ss': seq<State>, acts': seq<Action>)
    requires Roomy(g) && k < LOGSIZE && k + 1 < g.size
    requires Path(g, ss, acts) && ss != [] && Inv(g, End(ss)) && Filled(g, End(ss), k)
    ensures Path(g, ss', acts') && ss' != [] && Inv(g, End(ss')) && Filled(g, End(ss'), k + 1)
  {
    hide Inv, Path, Untouched;
    var s, j, b := End(ss), k % 3, Target(g, k);
    FreshTarget(g, s, k, k);
    TestRefines(g, s, j, b);
    ss', acts' := Extend(g, ss, acts, Test(j, b));
    var s1 := End(ss');
    assert s1.ops[j] == s.ops[j].(at := PastTest(b));
    RecordRefines(g, s1, j, ZeroFBlk());
    ss', acts' := Extend(g, ss', acts', Record(j, ZeroFBlk()));
    assert s1.ops[j := Op(s.ops[j].logged + {b}, Elsewhere)] == s.ops[j := Op(s.ops[j].logged + {b}, Elsewhere)];
    FillOne(g, s, End(ss'), k, ZeroFBlk());
  }

  lemma FillTo(g: Geometry, k: nat) returns (ss: seq<State>, acts: seq<Action>)
    requires Roomy(g) && k <= LOGSIZE && k < g.size
    ensures Path(g, ss, acts) && ss != [] && Inv(g, End(ss)) && Filled(g, End(ss), k)
  {
    hide Inv, Path, Roomy, Filled, Untouched;
    if k == 0 {
      ss, acts := ThreeBegin(g);
    } else {
      ss, acts := FillTo(g, k - 1);
      ss, acts := LogNext(g, ss, acts, k - 1);
    }
  }

  /** mkfs makes log.size == LOGSIZE: then three operations, each within its budget, reach a state in
      which logging one more block panics. */
  lemma SlotLimitReached(g: Geometry) returns (ss: seq<State>, acts: seq<Action>, op: nat, b: nat)
    requires Roomy(g) && g.size <= LOGSIZE
    ensures GoodDisk(g, EmptyDisk(g)) && Reaches(g, EmptyDisk(g), ss, acts)
    ensures var s := ss[|acts|]; WithinBudget(g, s, op, b) && b !in s.ops[op].logged && LogWritePanics(g, s)
  {
    ss, acts := FillTo(g, g.size - 1);
    op, b := (g.size - 1) % 3, Target(g, g.size - 1);
    FreshTarget(g, ss[|acts|], g.size - 1, g.size - 1);
  }

  /** The panic test comes before absorption: with all LOGSIZE entries in use, writing once more to a
      block that is already listed panics, although the block would take no further entry. */
  lemma AbsorbedWritePanics(g: Geometry) returns (ss: seq<State>, acts: seq<Action>, op: nat, b: nat)
    requires Roomy(g) && g.size > LOGSIZE
    ensures GoodDisk(g, EmptyDisk(g)) && Reaches(g, EmptyDisk(g), ss, acts)
    ensures var s := ss[|acts|]; WithinBudget(g, s, op, b) && b in s.lh && LogWritePanics(g, s)
  {
    ss, acts := FillTo(g, LOGSIZE);
    var s := ss[|acts|];
    op := 0;
    assert |s.ops[0].logged| == 10;
    b :| b in s.ops[0].logged;
    var i :| 0 <= i < |s.lh| && s.lh[i] == b;
    assert s.ops[0].logged + {b} == s.ops[0].logged;
  }

  // ----- two writers past the test -----

  /** One slot too many is in use: two operations both passed the test when one slot was left. */
  ghost predicate Overfull(g: Geometry, s: State) {
    && 2 <= g.size && s.mode == Running && |s.ops| == 3 && s.lh == Targets(g, g.size) && Untouched(g, s.disk)
    && (forall j :: 0 <= j < 3 ==> s.ops[j].at == Elsewhere)
    && Target(g, g.size - 1) in s.dirty && s.dirty[Target(g, g.size - 1)] == One()
  }

  /** Operations i and j of s, each past the test for a block of its own. */
  function Paused(s: State, i: nat, b: nat, j: nat, c: nat): State
    requires i < |s.ops| && j < |s.ops|
  {
    s.(ops := s.ops[i := s.ops[i].(at := PastTest(b))][j := s.ops[j].(at := PastTest(c))])
  }

  lemma PauseBoth(g: Geometry, s: State, i: nat, b: nat, j: nat, c: nat)
    requires i != j && WithinBudget(g, s, i, b) && WithinBudget(g, s, j, c) && !LogWritePanics(g, s)
    ensures Enabled(g, s, Test(i, b))
    ensures var s1 := Apply(g, s, Test(i, b));
      Enabled(g, s1, Test(j, c)) && Apply(g, s1, Test(j, c)) == Paused(s, i, b, j, c)
  {
    hide Home, Usable, HeadN, HeadList, ListIn, Naturals;
  }

  lemma BothPassTheTest(g: Geometry, k: nat) returns (ss: seq<State>, acts: seq<Action>, s: State, i: nat, j: nat)
    requires Roomy(g) && k + 2 == g.size <= LOGSIZE
    ensures Path(g, ss, acts) && ss != [] && Filled(g, s, k) && i != j && i < |s.ops| && j < |s.ops|
    ensures s.mode == Running && |s.lh| == k && Target(g, k) !in s.lh && Target(g, k + 1) !in s.lh
    ensures End(ss) == Paused(s, i, Target(g, k), j, Target(g, k + 1))
  {
    hide Inv, Path, Enabled, Apply, Roomy, WithinBudget, Paused;
    ss, acts := FillTo(g, k);
    s, i, j := End(ss), k % 3, (k + 1) % 3;
    FreshTarget(g, s, k, k);
    FreshTarget(g, s, k, k + 1);
    assert |s.ops| == 3 && |s.lh| == k;
    hide Filled;
    PauseBoth(g, s, i, Target(g, k), j, Target(g, k + 1));
    ss, acts := Extend(g, ss, acts, Test(i, Target(g, k)));
    ss, acts := Extend(g, ss, acts, Test(j, Target(g, k + 1)));
  }

  /** s with b and c recorded by the operations i and j. */
  ghost predicate BothLogged(s: State, i: nat, b: nat, j: nat, c: nat, s': State) {
    && s'.lh == s.lh + [b] + [c] && s'.mode == Running && s'.disk == s.disk && c in s'.dirty && s'.dirty[c] == One()
    && |s'.ops| == |s.ops| && i < |s.ops| && j < |s.ops| && s'.ops[i].at == s'.ops[j].at == Elsewhere
    && forall k :: 0 <= k < |s.ops| && k != i && k != j ==> s'.ops[k] == s.ops[k]
  }

  /** Both records are possible, and the second one has no slot if one was left. */
  lemma RecordBoth(g: Geometry, s: State, i: nat, b: nat, j: nat, c: nat)
    requires s.mode == Running && i < |s.ops| && j < |s.ops| && i != j && b !in s.lh && c !in s.lh && b != c
    requires |s.lh| + 2 == g.size && b != Victim(g) && c != Victim(g)
    ensures var s2 := Paused(s, i, b, j, c);
      && Enabled(g, s2, Record(i, ZeroFBlk())) && Spares(g, s2, Record(i, ZeroFBlk()))
      && var s3 := Apply(g, s2, Record(i, ZeroFBlk()));
      && Enabled(g, s3, Record(j, One())) && Spares(g, s3, Record(j, One())) && !HasSlot(g, s3, Record(j, One()))
      && BothLogged(s, i, b, j, c, Apply(g, s3, Record(j, One())))
  {
    hide Home, Usable, HeadN, HeadList, ListIn, Naturals;
  }

  lemma OverfullNow(g: Geometry, s: State, k: nat, i: nat, j: nat, s': State)
    requires k + 2 == g.size <= LOGSIZE && Filled(g, s, k) && BothLogged(s, i, Target(g, k), j, Target(g, k + 1), s')
    ensures Overfull(g, s')
  {
    hide Untouched;
    assert Targets(g, g.size) == Targets(g, k) + [Target(g, k)] + [Target(g, k + 1)];
  }

  lemma BothRecord(g: Geometry) returns (ss: seq<State>, acts: seq<Action>)
    requires Roomy(g) && 2 <= g.size <= LOGSIZE
    ensures Path(g, ss, acts) && ss != [] && Overfull(g, End(ss)) && !Inv(g, End(ss))
  {
    hide Inv, Path, Enabled, Apply, Roomy, Paused, Spares, HasSlot, BothLogged, Overfull, Filled;
    var k := g.size - 2;
    var s, i, j;
    ss, acts, s, i, j := BothPassTheTest(g, k);
    RecordBoth(g, s, i, Target(g, k), j, Target(g, k + 1));
    ss, acts := Extend(g, ss, acts, Record(i, ZeroFBlk()));
    NoSlotNoInv(g, End(ss), Record(j, One()));
    ss, acts := Extend(g, ss, acts, Record(j, One()));
    OverfullNow(g, s, k, i, j, End(ss));
  }

  /** The commit of an overfull list, before its k-th block write: write_log runs past the last slot. */
  ghost predicate Spilling(g: Geometry, s: State, k: nat) {
    && s.mode == Committing(k) && k <= g.size && s.lh == Targets(g, g.size) && s.ops == []
    && Roomy(g) && 2 <= g.size && |s.disk| == g.nblocks && HeadN(s.disk, g) == 0
    && s.disk[Victim(g)] == (if k == g.size then One() else ZeroFBlk())
    && Target(g, g.size - 1) in s.dirty && s.dirty[Target(g, g.size - 1)] == One()
  }

  lemma AllEnd(g: Geometry) returns (ss: seq<State>, acts: seq<Action>)
    requires Roomy(g) && 2 <= g.size <= LOGSIZE
    ensures Path(g, ss, acts) && ss != [] && Spilling(g, End(ss), 0)
  {
    hide Inv, Path, Target;
    ss, acts := BothRecord(g);
    ss, acts := Extend(g, ss, acts, EndOp(0));
    ss, acts := Extend(g, ss, acts, EndOp(0));
    ss, acts := Extend(g, ss, acts, EndOp(0));
  }

  lemma SpillOne(g: Geometry, s: State, k: nat)
    requires Roomy(g) && 2 <= g.size <= LOGSIZE && k < g.size && Spilling(g, s, k)
    ensures Enabled(g, s, CommitStep) && Spilling(g, Apply(g, s, CommitStep), k + 1)
  {
    hide ListIn, HeadBlock;
  }

  lemma Spill(g: Geometry, k: nat) returns (ss: seq<State>, acts: seq<Action>)
    requires Roomy(g) && 2 <= g.size <= LOGSIZE && k <= g.size
    ensures Path(g, ss, acts) && ss != [] && Spilling(g, End(ss), k)
  {
    hide Path;
    if k == 0 {
      ss, acts := AllEnd(g);
    } else {
      ss, acts := Spill(g, k - 1);
      SpillOne(g, End(ss), k - 1);
      ss, acts := Extend(g, ss, acts, CommitStep);
    }
  }

  /** With 2 <= log.size <= LOGSIZE, as mkfs makes it, there is a run within all budgets after which a home block
      that no operation has ever written is overwritten, although the transaction never committed. */
  lemma HomeBlockLost(g: Geometry) returns (ss: seq<State>, acts: seq<Action>)
    requires Roomy(g) && 2 <= g.size <= LOGSIZE
    ensures GoodDisk(g, EmptyDisk(g)) && Reaches(g, EmptyDisk(g), ss, acts)
    ensures Home(g, Victim(g)) && forall i :: 0 <= i < |acts| ==> Spares(g, ss[i], acts[i])
    ensures forall i :: 0 <= i < |acts| ==> Effect(ss[i], acts[i]) != ACommit
    ensures ss[|acts|].mode == Running && |ss[|acts|].disk| == g.nblocks
    ensures ss[|acts|].disk[Victim(g)] != EmptyDisk(g)[Victim(g)]
  {
    hide ListIn, HeadBlock;
    ss, acts := Spill(g, g.size);
    ss, acts := Extend(g, ss, acts, Crash);
    var s := End(ss);
    ss, acts := Extend(g, ss, acts, RecoverStep);
    assert ZeroFBlk()[0] != One()[0];
  }

  /** The log is crash-safe in every run if and only if it has a slot for every block that the reservations admit. */
  lemma SafeExactly(g: Geometry)
    requires Roomy(g)
    ensures EnoughSlots(g) <==>
              forall d, ss, acts, i: nat :: GoodDisk(g, d) && Reaches(g, d, ss, acts) && i < |ss| ==> Inv(g, ss[i])
  {
    if EnoughSlots(g) {
      forall d, ss, acts, i: nat | GoodDisk(g, d) && Reaches(g, d, ss, acts) && i < |ss|
        ensures Inv(g, ss[i])
      {
        BootOk(g, d);
        AllSlotted(g, ss, acts, i);
        RunKeepsInv(g, ss, acts, i);
      }
    } else {
      var ss, acts := BothRecord(g);
      assert Reaches(g, EmptyDisk(g), ss, acts) && |ss| - 1 < |ss|;
    }
  }
}
