/** What every step of the process table keeps: who is whose parent, no missed wakeup in wait, and stacks and
    page directories given back exactly once. */
module ProcProof {
  import opened Collections
  import opened ProcSpec

  predicate Live(s: Status) {
    s == SLEEPING || s == RUNNABLE || s == RUNNING
  }

  predicate Forking(p: Place, n: int) {
    (p.Forked? || p.Stacked? || p.Copied? || p.Parented?) && p.n == n
  }

  /** A parent is neither UNUSED nor ZOMBIE; an UNUSED slot has no parent; everybody but init has one. */
  ghost predicate ParentOk(ps: seq<Proc>, init: int, k: int)
    requires 0 <= k < |ps|
  {
    var p := ps[k];
    && p.parent >= -1 && p.parent != k
    && (p.parent >= 0 ==> p.parent < |ps| && Live(ps[p.parent].state))
    && (p.state == UNUSED ==> p.parent == -1)
    && ((Live(p.state) || p.state == ZOMBIE) && k != init ==> p.parent >= 0)
  }

  ghost predicate Parents(t: Table) {
    && Slot(t, t.init) && Live(t.ps[t.init].state) && t.ps[t.init].parent == -1
    && forall k :: 0 <= k < |t.ps| ==> ParentOk(t.ps, t.init, k)
  }

  /** Whoever sleeps in wait has no zombie child, and sleeps on himself. */
  ghost predicate NoMissedWakeup(t: Table) {
    && (forall q :: 0 <= q < |t.ps| && t.ps[q].state == SLEEPING && t.ps[q].chan.OnProc? ==>
        t.ps[q].chan.i == q && t.ps[q].place == InWait)
    && (forall q :: 0 <= q < |t.ps| && t.ps[q].state == SLEEPING ==> t.ps[q].chan != NoChan)
    && forall q, k :: 0 <= q < |t.ps| && t.ps[q].state == SLEEPING && t.ps[q].chan == OnProc(q) ==>
        !Has(t.ps, k, q, ZOMBIE)
  }

  ghost predicate Embryo(t: Table, i: int, n: int)
    requires 0 <= i < |t.ps|
  {
    n != i && Slot(t, n) && t.ps[n].state == EMBRYO && t.ps[n].place == Elsewhere && Live(t.ps[i].state)
        && t.ps[i].state != SLEEPING
  }

  /** Where the slot n of a fork stands. */
  ghost predicate PlaceOk(t: Table, i: int)
    requires 0 <= i < |t.ps|
  {
    var p := t.ps[i];
    match p.place
    case Elsewhere => true
    case InWait => Live(p.state)
    case Forked(n) => Embryo(t, i, n) && t.ps[n].parent == -1 && t.ps[n].kstack == 0 && n !in t.hasDir
    case Stacked(n) => Embryo(t, i, n) && t.ps[n].parent == -1 && t.ps[n].kstack > 0 && n !in t.hasDir
    case Copied(n) => Embryo(t, i, n) && t.ps[n].parent == -1 && t.ps[n].kstack > 0 && n in t.hasDir
    case Parented(n) => Embryo(t, i, n) && t.ps[n].parent == i && t.ps[n].kstack > 0 && n in t.hasDir
  }

  ghost predicate Places(t: Table) {
    && (forall i :: 0 <= i < |t.ps| ==> PlaceOk(t, i))
    && (forall i, j, n ::
          0 <= i < |t.ps| && 0 <= j < |t.ps| && Forking(t.ps[i].place, n)
          && Forking(t.ps[j].place, n) ==>
            i == j)
    && forall i :: 0 <= i < |t.ps| && !Live(t.ps[i].state) ==> t.ps[i].place == Elsewhere
  }

  /** What each slot owns of one kind, 0 for nothing: names below `next`, none owned twice, none given back twice,
      none both owned and given back. */
  ghost predicate OwnedOnce(own: seq<int>, freed: seq<int>, next: int) {
    && next > 0
    && (forall k :: 0 <= k < |own| ==> 0 <= own[k] < next && own[k] !in freed)
    && (forall j, k :: 0 <= j < k < |own| && own[j] > 0 ==> own[j] != own[k])
    && NoDup(freed) && forall x :: x in freed ==> 0 < x < next
  }

  lemma OwnedTake(own: seq<int>, freed: seq<int>, next: int, n: int)
    requires OwnedOnce(own, freed, next) && 0 <= n < |own|
    ensures OwnedOnce(own[n := next], freed, next + 1) && OwnedOnce(own, freed, next + 1)
  {
  }

  lemma OwnedGive(own: seq<int>, freed: seq<int>, next: int, n: int)
    requires OwnedOnce(own, freed, next) && 0 <= n < |own| && own[n] > 0
    ensures OwnedOnce(own[n := 0], freed + [own[n]], next)
  {
    forall k | 0 <= k < |own| && k != n
      ensures own[k] != own[n]
    {
    }
  }

  /** The stacks and the page directories that the slots own; a stale pgdir of another slot does not count. */
  function StackOf(t: Table): (r: seq<int>) {
    seq(|t.ps|, k requires 0 <= k < |t.ps| => t.ps[k].kstack)
  }

  function DirOf(t: Table): (r: seq<int>) {
    seq(|t.ps|, k requires 0 <= k < |t.ps| => if k in t.hasDir then t.ps[k].pgdir else 0)
  }

  ghost predicate EquippedAt(t: Table, k: int)
    requires 0 <= k < |t.ps|
  {
    && t.ps[k].kstack >= 0 && (k in t.hasDir ==> t.ps[k].pgdir > 0)
    && (Live(t.ps[k].state) || t.ps[k].state == ZOMBIE ==> t.ps[k].kstack > 0 && k in t.hasDir)
    && (t.ps[k].state == UNUSED ==> t.ps[k].kstack == 0 && k !in t.hasDir)
  }

  /** Running, sleeping and zombie processes have both, an UNUSED slot has neither. */
  ghost predicate Equipped(t: Table) {
    forall k :: 0 <= k < |t.ps| ==> EquippedAt(t, k)
  }

  ghost predicate Owned(t: Table) {
    t.next > 0 && OwnedOnce(StackOf(t), t.freedStacks, t.next) && OwnedOnce(DirOf(t), t.freedDirs, t.next)
  }

  ghost predicate Inv(t: Table) {
    Parents(t) && NoMissedWakeup(t) && Places(t) && Equipped(t) && Owned(t)
  }

  // ----- steps that touch one process -----

  predicate TouchOk(p: Proc, p': Proc) {
    && p' == p.(state := p'.state, chan := p'.chan, killed := p'.killed)
    && (p'.state == p.state || (Live(p.state) && Live(p'.state)))
    && (p'.state == SLEEPING ==>
          (p.state == SLEEPING && p'.chan == p.chan)
          || (p'.chan.OnOther? && p.place == Elsewhere))
  }

  /** One process is scheduled, yields, goes to sleep on something else than a process, or is killed. */
  ghost predicate Touched(t: Table, t': Table, i: int) {
    && Slot(t, i) && |t'.ps| == |t.ps| && t' == t.(ps := t.ps[i := t'.ps[i]])
    && TouchOk(t.ps[i], t'.ps[i])
  }

  predicate Touches(a: Step) {
    a.Sleep? || a.Kill? || a.Schedule? || a.Yield?
  }

  lemma TouchStep(t: Table, a: Step)
    requires Places(t) && Enabled(t, a) && Touches(a)
    ensures Do(t, a) == t || exists i :: Touched(t, Do(t, a), i)
  {
    var t' := Do(t, a);
    if a.Kill? {
      var k := FirstPid(t.ps, a.pid, 0);
      if k < |t.ps| {
        assert t'.ps == t.ps[k := t'.ps[k]];
        assert Touched(t, t', k);
      }
    } else {
      assert t'.ps == t.ps[a.i := t'.ps[a.i]];
      assert Touched(t, t', a.i);
    }
  }

  lemma TouchParents(t: Table, t': Table, i: int)
    requires Parents(t) && Touched(t, t', i)
    ensures Parents(t')
  {
    forall k | 0 <= k < |t'.ps|
      ensures ParentOk(t'.ps, t'.init, k)
    {
      assert ParentOk(t.ps, t.init, k);
    }
  }

  lemma TouchWakeups(t: Table, t': Table, i: int)
    requires NoMissedWakeup(t) && Touched(t, t', i)
    ensures NoMissedWakeup(t')
  {
    forall q, k | 0 <= q < |t'.ps| && t'.ps[q].state == SLEEPING && t'.ps[q].chan == OnProc(q)
      ensures !Has(t'.ps, k, q, ZOMBIE)
    {
      assert !Has(t.ps, k, q, ZOMBIE);
    }
  }

  lemma TouchPlaces(t: Table, t': Table, i: int)
    requires Places(t) && Touched(t, t', i)
    ensures Places(t')
  {
    forall k | 0 <= k < |t'.ps|
      ensures PlaceOk(t', k)
    {
      assert PlaceOk(t, k) && PlaceOk(t, i);
    }
  }

  /** Nothing is taken or given back. */
  lemma SameOwned(t: Table, t': Table)
    requires Owned(t) && |t'.ps| == |t.ps| && t'.hasDir == t.hasDir && t'.next == t.next
        && t'.freedStacks == t.freedStacks && t'.freedDirs == t.freedDirs
    requires forall k :: 0 <= k < |t.ps| ==> t'.ps[k].kstack == t.ps[k].kstack && t'.ps[k].pgdir == t.ps[k].pgdir
    ensures Owned(t')
  {
    assert StackOf(t') == StackOf(t) && DirOf(t') == DirOf(t);
  }

  lemma SameEquipped(t: Table, t': Table)
    requires Equipped(t) && |t'.ps| == |t.ps| && t'.hasDir == t.hasDir
    requires forall k :: 0 <= k < |t.ps| ==> t'.ps[k].kstack == t.ps[k].kstack && t'.ps[k].pgdir == t.ps[k].pgdir
    requires forall k :: 0 <= k < |t.ps| ==>
              t'.ps[k].state == t.ps[k].state
              || (Live(t.ps[k].state) && (Live(t'.ps[k].state) || t'.ps[k].state == ZOMBIE))
    ensures Equipped(t')
  {
    forall k | 0 <= k < |t'.ps|
      ensures EquippedAt(t', k)
    {
      assert EquippedAt(t, k);
    }
  }

  lemma TouchKeeps(t: Table, a: Step)
    requires Inv(t) && Enabled(t, a) && Touches(a)
    ensures Inv(Do(t, a))
  {
    TouchStep(t, a);
    hide Parents, NoMissedWakeup, Places, Equipped, Owned, Do;
    var t' := Do(t, a);
    if t' != t {
      var i :| Touched(t, t', i);
      TouchParents(t, t', i);
      TouchWakeups(t, t', i);
      TouchPlaces(t, t', i);
      SameOwned(t, t');
      SameEquipped(t, t');
    }
  }

  // ----- the steps of fork -----

  predicate Forks(a: Step) {
    a.Alloc? || a.Stack? || a.Copy? || a.Parent? || a.Ready?
  }

  lemma ForkSlot(t: Table, a: Step)
    requires Places(t) && Enabled(t, a)
    ensures SlotKnown(t, a)
  {
    if a.Stack? || a.Copy? || a.Parent? || a.Ready? { assert PlaceOk(t, a.i); }
  }

  /** A step of fork changes the new slot n, which is not yet a running process, and how far the caller i has got. */
  ghost predicate ForkStep(t: Table, t': Table, i: int, n: int) {
    && Slot(t, i) && Slot(t, n) && n != i && |t'.ps| == |t.ps| && t'.init == t.init
    && t'.ps == t.ps[n := t'.ps[n]][i := t.ps[i].(place := t'.ps[i].place)]
    && Live(t.ps[i].state) && t.ps[i].state != SLEEPING
    && (t.ps[n].state == UNUSED || t.ps[n].state == EMBRYO) && t.ps[n].place == t'.ps[n].place == Elsewhere
    && (t'.ps[n].state == UNUSED || t'.ps[n].state == EMBRYO || t'.ps[n].state == RUNNABLE)
    && (t'.ps[n].parent == -1 || t'.ps[n].parent == i)
    && (t'.ps[n].state == UNUSED ==> t'.ps[n].parent == -1) && (t'.ps[n].state == RUNNABLE ==> t'.ps[n].parent == i)
    && (forall m :: m != n ==> (m in t'.hasDir <==> m in t.hasDir))
  }

  lemma ForkParents(t: Table, t': Table, i: int, n: int)
    requires Parents(t) && ForkStep(t, t', i, n)
    ensures Parents(t')
  {
    forall k | 0 <= k < |t'.ps|
      ensures ParentOk(t'.ps, t'.init, k)
    {
      assert ParentOk(t.ps, t.init, k);
    }
  }

  lemma ForkWakeups(t: Table, t': Table, i: int, n: int)
    requires NoMissedWakeup(t) && ForkStep(t, t', i, n)
    ensures NoMissedWakeup(t')
  {
    forall q, k | 0 <= q < |t'.ps| && t'.ps[q].state == SLEEPING && t'.ps[q].chan == OnProc(q)
      ensures !Has(t'.ps, k, q, ZOMBIE)
    {
      assert !Has(t.ps, k, q, ZOMBIE);
    }
  }

  lemma ForkPlaces(t: Table, t': Table, i: int, n: int)
    requires Places(t) && ForkStep(t, t', i, n) && PlaceOk(t', i)
    requires t.ps[n].state == UNUSED || Forking(t.ps[i].place, n)
    requires t'.ps[i].place == Elsewhere || Forking(t'.ps[i].place, n)
    ensures Places(t')
  {
    forall k | 0 <= k < |t'.ps| && k != i
      ensures PlaceOk(t', k) && !Forking(t'.ps[k].place, n)
    {
      assert PlaceOk(t, k);
    }
  }

  /** What ForkPlaces needs of a step besides. */
  ghost predicate ForkPlaced(t: Table, t': Table, i: int, n: int) {
    && ForkStep(t, t', i, n) && PlaceOk(t', i)
    && (t.ps[n].state == UNUSED || Forking(t.ps[i].place, n))
        && (t'.ps[i].place == Elsewhere || Forking(t'.ps[i].place, n))
  }

  lemma ForkEquipped(t: Table, t': Table, i: int, n: int)
    requires Equipped(t) && ForkStep(t, t', i, n) && EquippedAt(t', n)
    ensures Equipped(t')
  {
    forall k | 0 <= k < |t'.ps|
      ensures EquippedAt(t', k)
    {
      assert EquippedAt(t, k);
    }
  }

  /** What a step of fork takes or gives back. */
  lemma ForkOwned(t: Table, t': Table, i: int, n: int)
    requires Owned(t) && Slot(t, n) && Slot(t, i) && i != n && |t'.ps| == |t.ps|
    requires t'.ps == t.ps[n := t'.ps[n]][i := t.ps[i].(place := t'.ps[i].place)]
    requires forall m :: m != n ==> (m in t'.hasDir <==> m in t.hasDir)
    requires t.ps[n].kstack >= 0
    requires
      || (t'.next == t.next && t'.freedStacks == t.freedStacks && t'.freedDirs == t.freedDirs
          && t'.ps[n].kstack == t.ps[n].kstack
          && t'.ps[n].pgdir == t.ps[n].pgdir && (n in t'.hasDir <==> n in t.hasDir))
      || (t'.next == t.next + 1 && t'.freedStacks == t.freedStacks && t'.freedDirs == t.freedDirs
          && t'.ps[n].kstack == t.next
          && n !in t.hasDir && n !in t'.hasDir)
      || (t'.next == t.next + 1 && t'.freedStacks == t.freedStacks && t'.freedDirs == t.freedDirs
          && t'.ps[n].kstack == t.ps[n].kstack
          && t'.ps[n].pgdir == t.next && n in t'.hasDir)
      || (t'.next == t.next && t'.freedStacks == t.freedStacks + [t.ps[n].kstack] && t'.freedDirs == t.freedDirs
          && t'.ps[n].kstack == 0
          && t.ps[n].kstack > 0 && n !in t.hasDir && n !in t'.hasDir)
    ensures Owned(t')
  {
    var s, d := StackOf(t), DirOf(t);
    assert StackOf(t') == s[n := t'.ps[n].kstack];
    assert DirOf(t') == d[n := if n in t'.hasDir then t'.ps[n].pgdir else 0];
    assert s[n := s[n]] == s && d[n := d[n]] == d;
    hide OwnedOnce;
    OwnedTake(s, t.freedStacks, t.next, n);
    OwnedTake(d, t.freedDirs, t.next, n);
    if t.ps[n].kstack > 0 { OwnedGive(s, t.freedStacks, t.next, n); }
  }

  lemma AllocStep(t: Table, i: int)
    requires Inv(t) && Runs(t, i) && t.ps[i].place == Elsewhere && FirstIn(t.ps, UNUSED, 0) < |t.ps|
    ensures var n := FirstIn(t.ps, UNUSED, 0);
      ForkPlaced(t, DoAlloc(t, i), i, n) && Equipped(DoAlloc(t, i)) && Owned(DoAlloc(t, i))
  {
    var n, t' := FirstIn(t.ps, UNUSED, 0), DoAlloc(t, i);
    assert PlaceOk(t, i) && PlaceOk(t, n) && ParentOk(t.ps, t.init, n) && EquippedAt(t, n);
    hide Parents, NoMissedWakeup, Places, Equipped, Owned;
    ForkOwned(t, t', i, n);
    ForkEquipped(t, t', i, n);
  }

  lemma StackStep(t: Table, i: int, ok: bool)
    requires Inv(t) && Runs(t, i) && t.ps[i].place.Forked? && Slot(t, t.ps[i].place.n) && t.ps[i].place.n != i
    ensures var n := t.ps[i].place.n;
      ForkPlaced(t, DoStack(t, i, ok), i, n) && Equipped(DoStack(t, i, ok)) && Owned(DoStack(t, i, ok))
  {
    var n, t' := t.ps[i].place.n, DoStack(t, i, ok);
    assert PlaceOk(t, i) && EquippedAt(t, n) && t.next > 0;
    hide Parents, NoMissedWakeup, Places, Equipped, Owned;
    ForkOwned(t, t', i, n);
    ForkEquipped(t, t', i, n);
  }

  lemma CopyStep(t: Table, i: int, ok: bool)
    requires Inv(t) && Runs(t, i) && t.ps[i].place.Stacked? && Slot(t, t.ps[i].place.n) && t.ps[i].place.n != i
    ensures var n := t.ps[i].place.n;
      ForkPlaced(t, DoCopy(t, i, ok), i, n) && Equipped(DoCopy(t, i, ok)) && Owned(DoCopy(t, i, ok))
  {
    var n, t' := t.ps[i].place.n, DoCopy(t, i, ok);
    assert PlaceOk(t, i) && EquippedAt(t, n) && t.next > 0;
    hide Parents, NoMissedWakeup, Places, Equipped, Owned;
    ForkOwned(t, t', i, n);
    ForkEquipped(t, t', i, n);
  }

  lemma ParentStep(t: Table, i: int)
    requires Inv(t) && Runs(t, i) && t.ps[i].place.Copied? && Slot(t, t.ps[i].place.n) && t.ps[i].place.n != i
    ensures var n := t.ps[i].place.n;
      ForkPlaced(t, DoParent(t, i), i, n) && Equipped(DoParent(t, i)) && Owned(DoParent(t, i))
  {
    var n, t' := t.ps[i].place.n, DoParent(t, i);
    assert PlaceOk(t, i) && EquippedAt(t, n) && t.next > 0;
    hide Parents, NoMissedWakeup, Places, Equipped, Owned;
    ForkOwned(t, t', i, n);
    ForkEquipped(t, t', i, n);
  }

  lemma ReadyStep(t: Table, i: int)
    requires Inv(t) && Runs(t, i) && t.ps[i].place.Parented? && Slot(t, t.ps[i].place.n) && t.ps[i].place.n != i
    ensures var n := t.ps[i].place.n;
      ForkPlaced(t, DoReady(t, i), i, n) && Equipped(DoReady(t, i)) && Owned(DoReady(t, i))
  {
    var n, t' := t.ps[i].place.n, DoReady(t, i);
    assert PlaceOk(t, i) && EquippedAt(t, n) && t.next > 0;
    hide Parents, NoMissedWakeup, Places, Equipped, Owned;
    ForkOwned(t, t', i, n);
    ForkEquipped(t, t', i, n);
  }

  lemma ForkKeeps(t: Table, a: Step)
    requires Inv(t) && Enabled(t, a) && Forks(a) && SlotKnown(t, a)
    ensures Inv(Do(t, a))
  {
    var t', n := Do(t, a), 0;
    hide Parents, NoMissedWakeup, Places, Equipped, Owned, ForkStep, PlaceOk;
    match a {
      case Alloc(i) =>
        n := FirstIn(t.ps, UNUSED, 0);
        if n < |t.ps| {
          AllocStep(t, i);
        }
      case Stack(i, ok) =>
        n := t.ps[i].place.n;
        StackStep(t, i, ok);
      case Copy(i, ok) =>
        n := t.ps[i].place.n;
        CopyStep(t, i, ok);
      case Parent(i) =>
        n := t.ps[i].place.n;
        ParentStep(t, i);
      case Ready(i) =>
        n := t.ps[i].place.n;
        ReadyStep(t, i);
    }
    if t' != t {
      hide Do;
      ForkParents(t, t', a.i, n);
      ForkWakeups(t, t', a.i, n);
      ForkPlaces(t, t', a.i, n);
    }
  }

  // ----- wakeup and exit -----

  /** Waking everybody on one channel: only states change, from SLEEPING to RUNNABLE. */
  ghost predicate Roused(t: Table, t': Table) {
    && |t'.ps| == |t.ps| && t' == t.(ps := t'.ps)
    && forall k :: 0 <= k < |t.ps| ==>
          t'.ps[k] == t.ps[k]
          || (t.ps[k].state == SLEEPING && t'.ps[k] == t.ps[k].(state := RUNNABLE))
  }

  lemma RousedParents(t: Table, t': Table)
    requires Parents(t) && Roused(t, t')
    ensures Parents(t')
  {
    forall k | 0 <= k < |t'.ps|
      ensures ParentOk(t'.ps, t'.init, k)
    {
      assert ParentOk(t.ps, t.init, k);
    }
  }

  lemma RousedRest(t: Table, t': Table)
    requires NoMissedWakeup(t) && Roused(t, t')
    ensures NoMissedWakeup(t')
  {
    forall q, k | 0 <= q < |t'.ps| && t'.ps[q].state == SLEEPING && t'.ps[q].chan == OnProc(q)
      ensures !Has(t'.ps, k, q, ZOMBIE)
    {
      assert !Has(t.ps, k, q, ZOMBIE);
    }
  }

  lemma RousedPlaces(t: Table, t': Table)
    requires Places(t) && Roused(t, t')
    ensures Places(t')
  {
    forall k | 0 <= k < |t'.ps|
      ensures PlaceOk(t', k)
    {
      assert PlaceOk(t, k);
    }
  }

  lemma RousedKeeps(t: Table, t': Table)
    requires Inv(t) && Roused(t, t')
    ensures Inv(t')
  {
    RousedParents(t, t');
    RousedRest(t, t');
    RousedPlaces(t, t');
    SameOwned(t, t');
    SameEquipped(t, t');
  }

  lemma WakeupKeeps(t: Table, n: int)
    requires Inv(t)
    ensures Inv(t.(ps := Woken(t.ps, OnOther(n))))
  {
    RousedKeeps(t, t.(ps := Woken(t.ps, OnOther(n))));
  }

  predicate ExitedAt(p: Proc, p': Proc, cur: int, init: int, self: bool) {
    && p' == p.(state := p'.state, parent := if p.parent == cur then init else p.parent)
    && if self then p'.state == ZOMBIE else p'.state == p.state || (p.state == SLEEPING && p'.state == RUNNABLE)
  }

  /** exit: cur is a zombie, its children belong to init, and the right sleepers have been woken. */
  ghost predicate Exited(t: Table, t': Table, cur: int) {
    && Slot(t, cur) && |t'.ps| == |t.ps| && t' == t.(ps := t'.ps)
    && (forall k :: 0 <= k < |t.ps| ==> ExitedAt(t.ps[k], t'.ps[k], cur, t.init, k == cur))
    && (forall q :: 0 <= q < |t.ps| && t.ps[cur].parent == q ==>
        !(t'.ps[q].state == SLEEPING && t'.ps[q].chan == OnProc(q)))
    && (ZombieChild(t.ps, cur) && Slot(t, t.init) ==>
        !(t'.ps[t.init].state == SLEEPING && t'.ps[t.init].chan == OnProc(t.init)))
  }

  lemma ExitShape(t: Table, cur: int, t': Table)
    requires Slot(t, cur) && t.ps[cur].state == RUNNING && t' == t.(ps := AfterExit(t.ps, cur, t.init))
    ensures Exited(t, t', cur)
  {
    var ps := t.ps;
    var qs := Woken(ps, ParentChan(ps[cur]));
    assert ZombieChild(qs, cur) <==> ZombieChild(ps, cur) by {
      if k :| Has(ps, k, cur, ZOMBIE) { assert Has(qs, k, cur, ZOMBIE); }
      if k :| Has(qs, k, cur, ZOMBIE) { assert Has(ps, k, cur, ZOMBIE); }
    }
    var rs := Adopted(qs, cur, t.init, ZombieChild(qs, cur));
    forall k | 0 <= k < |ps|
      ensures ExitedAt(ps[k], t'.ps[k], cur, t.init, k == cur)
    {
      assert t'.ps[k] == if k == cur then rs[k].(state := ZOMBIE) else rs[k];
    }
  }

  lemma ExitParents(t: Table, t': Table, cur: int)
    requires Parents(t) && Exited(t, t', cur) && cur != t.init && t.ps[cur].state == RUNNING
    ensures Parents(t')
  {
    assert ExitedAt(t.ps[t.init], t'.ps[t.init], cur, t.init, false);
    forall k | 0 <= k < |t'.ps|
      ensures ParentOk(t'.ps, t'.init, k)
    {
      assert ParentOk(t.ps, t.init, k) && ExitedAt(t.ps[k], t'.ps[k], cur, t.init, k == cur);
      var q := t'.ps[k].parent;
      if q >= 0 { assert ExitedAt(t.ps[q], t'.ps[q], cur, t.init, q == cur); }
    }
  }

  lemma ExitWakeups(t: Table, t': Table, cur: int)
    requires NoMissedWakeup(t) && Parents(t) && Exited(t, t', cur) && cur != t.init
    ensures NoMissedWakeup(t')
  {
    forall q | 0 <= q < |t'.ps| && t'.ps[q].state == SLEEPING
      ensures t.ps[q].state == SLEEPING && t'.ps[q].chan == t.ps[q].chan && t'.ps[q].place == t.ps[q].place
    {
      assert ExitedAt(t.ps[q], t'.ps[q], cur, t.init, q == cur);
    }
    forall q, k | 0 <= q < |t'.ps| && t'.ps[q].state == SLEEPING && t'.ps[q].chan == OnProc(q)
      ensures !Has(t'.ps, k, q, ZOMBIE)
    {
      assert !Has(t.ps, k, q, ZOMBIE);
      if 0 <= k < |t.ps| && k != cur {
        assert ExitedAt(t.ps[k], t'.ps[k], cur, t.init, false);
        if q == t.init { assert !ZombieChild(t.ps, cur); assert !Has(t.ps, k, cur, ZOMBIE); }
      } else if k == cur {
        assert ExitedAt(t.ps[k], t'.ps[k], cur, t.init, true) && ParentOk(t.ps, t.init, k);
      }
    }
  }

  lemma ExitPlaces(t: Table, t': Table, cur: int)
    requires Places(t) && Exited(t, t', cur) && t.ps[cur].place == Elsewhere && t.ps[cur].state == RUNNING
    ensures Places(t')
  {
    forall k | 0 <= k < |t'.ps|
      ensures t'.ps[k].place == t.ps[k].place && PlaceOk(t', k)
          && (Live(t'.ps[k].state) <==> Live(t.ps[k].state) && k != cur)
    {
      assert PlaceOk(t, k) && ExitedAt(t.ps[k], t'.ps[k], cur, t.init, k == cur);
      if t.ps[k].place != Elsewhere && t.ps[k].place != InWait {
        var n := t.ps[k].place.n;
        assert ExitedAt(t.ps[n], t'.ps[n], cur, t.init, n == cur);
      }
    }
  }

  lemma ExitKeeps(t: Table, cur: int)
    requires Inv(t) && Enabled(t, Exit(cur))
    ensures Inv(t.(ps := AfterExit(t.ps, cur, t.init)))
  {
    var t' := t.(ps := AfterExit(t.ps, cur, t.init));
    ExitShape(t, cur, t');
    forall k | 0 <= k < |t.ps|
      ensures t'.ps[k].kstack == t.ps[k].kstack && t'.ps[k].pgdir == t.ps[k].pgdir
      ensures t'.ps[k].state == t.ps[k].state
                || (Live(t.ps[k].state) && (Live(t'.ps[k].state) || t'.ps[k].state == ZOMBIE))
    {
      assert ExitedAt(t.ps[k], t'.ps[k], cur, t.init, k == cur);
    }
    hide Parents, NoMissedWakeup, Places, Equipped, Owned, AfterExit, Exited;
    ExitParents(t, t', cur);
    ExitWakeups(t, t', cur);
    ExitPlaces(t, t', cur);
    SameOwned(t, t');
    SameEquipped(t, t');
  }

  // ----- wait -----

  /** A round of wait that reaps nobody. */
  ghost predicate Waited(t: Table, t': Table, i: int) {
    && Slot(t, i) && |t'.ps| == |t.ps| && t' == t.(ps := t.ps[i := t'.ps[i]]) && t.ps[i].state == RUNNING
    && t'.ps[i] == t.ps[i].(chan := t'.ps[i].chan, state := t'.ps[i].state, place := t'.ps[i].place)
    && (t.ps[i].place == Elsewhere || t.ps[i].place == InWait)
    && if t'.ps[i].state == RUNNING then t'.ps[i].place == Elsewhere && t'.ps[i].chan == NoChan
       else t'.ps[i].state == SLEEPING && t'.ps[i].place == InWait && t'.ps[i].chan == OnProc(i) && forall k ::
           !Has(t.ps, k, i, ZOMBIE)
  }

  lemma WaitedWakeups(t: Table, t': Table, i: int)
    requires NoMissedWakeup(t) && Waited(t, t', i)
    ensures NoMissedWakeup(t')
  {
    forall q, k | 0 <= q < |t'.ps| && t'.ps[q].state == SLEEPING && t'.ps[q].chan == OnProc(q)
      ensures !Has(t'.ps, k, q, ZOMBIE)
    {
      assert !Has(t.ps, k, q, ZOMBIE);
    }
  }

  lemma WaitedPlaces(t: Table, t': Table, i: int)
    requires Places(t) && Waited(t, t', i)
    ensures Places(t')
  {
    forall k | 0 <= k < |t'.ps|
      ensures PlaceOk(t', k) && (k != i ==> t'.ps[k] == t.ps[k])
    {
      assert PlaceOk(t, k);
    }
  }

  lemma WaitedKeeps(t: Table, t': Table, i: int)
    requires Inv(t) && Waited(t, t', i)
    ensures Inv(t')
  {
    assert Parents(t') by {
      forall k | 0 <= k < |t'.ps|
        ensures ParentOk(t'.ps, t'.init, k)
      {
        assert ParentOk(t.ps, t.init, k);
      }
    }
    WaitedWakeups(t, t', i);
    WaitedPlaces(t, t', i);
    SameOwned(t, t');
    SameEquipped(t, t');
  }

  /** A zombie child is reaped: its slot is UNUSED, its stack and its page directory are given back. */
  ghost predicate ReapedChild(t: Table, t': Table, i: int, k: int) {
    && Slot(t, i) && Has(t.ps, k, i, ZOMBIE) && k != i && t.ps[i].state == RUNNING
        && (t.ps[i].place == Elsewhere || t.ps[i].place == InWait)
    && t'.ps == t.ps[i := t.ps[i].(chan := NoChan, place := Elsewhere)][k := Reaped(t.ps[k])]
    && t' == t.(ps := t'.ps, freedStacks := t.freedStacks + [t.ps[k].kstack],
        freedDirs := t.freedDirs + [t.ps[k].pgdir], hasDir := t.hasDir - {k})
  }

  lemma ReapParents(t: Table, t': Table, i: int, k: int)
    requires Parents(t) && ReapedChild(t, t', i, k)
    ensures Parents(t')
  {
    forall j | 0 <= j < |t'.ps|
      ensures ParentOk(t'.ps, t'.init, j)
    {
      assert ParentOk(t.ps, t.init, j);
    }
  }

  lemma ReapRest(t: Table, t': Table, i: int, k: int)
    requires NoMissedWakeup(t) && Places(t) && ReapedChild(t, t', i, k)
    ensures NoMissedWakeup(t') && Places(t')
  {
    forall q, j | 0 <= q < |t'.ps| && t'.ps[q].state == SLEEPING && t'.ps[q].chan == OnProc(q)
      ensures !Has(t'.ps, j, q, ZOMBIE)
    {
      assert !Has(t.ps, j, q, ZOMBIE);
    }
    forall j | 0 <= j < |t'.ps|
      ensures PlaceOk(t', j) && (j != i ==> t'.ps[j].place == t.ps[j].place)
    {
      assert PlaceOk(t, j);
    }
  }

  lemma ReapOwned(t: Table, t': Table, i: int, k: int)
    requires Equipped(t) && Owned(t) && ReapedChild(t, t', i, k)
    ensures Equipped(t') && Owned(t')
  {
    forall j | 0 <= j < |t'.ps|
      ensures EquippedAt(t', j)
    {
      assert EquippedAt(t, j);
    }
    assert EquippedAt(t, k);
    assert StackOf(t') == StackOf(t)[k := 0] && DirOf(t') == DirOf(t)[k := 0];
    hide OwnedOnce;
    OwnedGive(StackOf(t), t.freedStacks, t.next, k);
    OwnedGive(DirOf(t), t.freedDirs, t.next, k);
  }

  lemma WaitKeeps(t: Table, i: int)
    requires Inv(t) && Enabled(t, Wait(i))
    ensures Inv(DoWait(t, i))
  {
    var t', k := DoWait(t, i), FirstChild(t.ps, i, 0);
    hide Parents, NoMissedWakeup, Places, Equipped, Owned;
    if k < |t.ps| {
      assert ReapedChild(t, t', i, k);
      hide DoWait, ReapedChild;
      ReapParents(t, t', i, k);
      ReapRest(t, t', i, k);
      ReapOwned(t, t', i, k);
    } else {
      assert t'.ps == t.ps[i := t'.ps[i]];
      assert forall j :: !Has(t.ps, j, i, ZOMBIE);
      assert Waited(t, t', i);
      WaitedKeeps(t, t', i);
    }
  }

  // ----- every run -----

  lemma StepKeeps(t: Table, a: Step)
    requires Inv(t) && Enabled(t, a)
    ensures SlotKnown(t, a) && Inv(Do(t, a))
  {
    ForkSlot(t, a);
    hide Inv;
    match a
    case Exit(i) => ExitKeeps(t, i);
    case Wait(i) => WaitKeeps(t, i);
    case Wakeup(n) => WakeupKeeps(t, n);
    case Alloc(_) => ForkKeeps(t, a);
    case Stack(_, _) => ForkKeeps(t, a);
    case Copy(_, _) => ForkKeeps(t, a);
    case Parent(_) => ForkKeeps(t, a);
    case Ready(_) => ForkKeeps(t, a);
    case _ => TouchKeeps(t, a);
  }

  ghost predicate Path(t: Table, steps: seq<Step>)
    decreases |steps|
  {
    steps == [] || (Enabled(t, steps[0]) && Path(Do(t, steps[0]), steps[1..]))
  }

  ghost function After(t: Table, steps: seq<Step>): Table
    requires Path(t, steps)
    decreases |steps|
  {
    if steps == [] then t else After(Do(t, steps[0]), steps[1..])
  }

  lemma {:induction false} RunKeeps(t: Table, steps: seq<Step>)
    requires Inv(t) && Path(t, steps)
    ensures Inv(After(t, steps))
    decreases |steps|
  {
    if steps != [] {
      StepKeeps(t, steps[0]);
      hide Inv, Do, Enabled;
      RunKeeps(Do(t, steps[0]), steps[1..]);
    }
  }

  /** userinit: the first process, and otherwise free slots. */
  function Start(slots: nat): Table
    requires slots > 0
  {
    Table([Proc(RUNNABLE, 1, -1, NoChan, false, 1, 2, Elsewhere)]
        + seq(slots - 1, k => Proc(UNUSED, 0, -1, NoChan, false, 0, 0, Elsewhere)),
          0, 2, 3, [], [], {0})
  }

  lemma StartOk(slots: nat)
    requires slots > 0
    ensures Inv(Start(slots))
  {
    var t := Start(slots);
    forall k | 0 <= k < |t.ps|
      ensures ParentOk(t.ps, t.init, k) && PlaceOk(t, k) && EquippedAt(t, k)
    {
    }
    forall k | 0 <= k < |t.ps|
      ensures StackOf(t)[k] == (if k == 0 then 1 else 0) && DirOf(t)[k] == if k == 0 then 2 else 0
    {
    }
  }

  // ----- what it means -----

  /** In every run: whoever sleeps in wait has no zombie child, the parent of anybody is neither UNUSED nor ZOMBIE,
      and no stack and no page directory is given back twice. */
  lemma ExitWait(slots: nat, steps: seq<Step>, q: int, k: int)
    requires slots > 0 && Path(Start(slots), steps)
    ensures var t := After(Start(slots), steps);
      && (Slot(t, q) && t.ps[q].state == SLEEPING && t.ps[q].chan == OnProc(q) ==> !Has(t.ps, k, q, ZOMBIE))
      && (Slot(t, k) && t.ps[k].parent >= 0 ==>
            Slot(t, t.ps[k].parent) && t.ps[t.ps[k].parent].state != UNUSED
            && t.ps[t.ps[k].parent].state != ZOMBIE)
      && NoDup(t.freedStacks) && NoDup(t.freedDirs)
  {
    StartOk(slots);
    hide Start, Do, Enabled;
    RunKeeps(Start(slots), steps);
    var t := After(Start(slots), steps);
    if Slot(t, k) { assert ParentOk(t.ps, t.init, k); }
  }

  /** A zombie keeps its stack and page directory until its parent reaps it, which gives back both: neither had
      been given back before. */
  lemma ReapGivesBack(t: Table, i: int)
    requires Inv(t) && Enabled(t, Wait(i)) && ZombieChild(t.ps, i)
    ensures var k := FirstChild(t.ps, i, 0); var t' := DoWait(t, i);
      && Slot(t, k) && t'.ps[k].state == UNUSED && t'.freedStacks == t.freedStacks + [t.ps[k].kstack]
          && t'.freedDirs == t.freedDirs + [t.ps[k].pgdir]
      && t.ps[k].kstack !in t.freedStacks && t.ps[k].pgdir !in t.freedDirs && t'.ps[i].state == RUNNING
  {
    var k := FirstChild(t.ps, i, 0);
    var j :| Has(t.ps, j, i, ZOMBIE);
    assert k <= j;
    assert EquippedAt(t, k) && StackOf(t)[k] == t.ps[k].kstack && DirOf(t)[k] == t.ps[k].pgdir;
  }

  /** Exit wakes a parent that sleeps in wait: afterwards it can run, and its next round finds the zombie. */
  lemma ExitWakesParent(t: Table, i: int)
    requires Inv(t) && Enabled(t, Exit(i))
    ensures var t' := Do(t, Exit(i)); var q := t.ps[i].parent;
      Slot(t, q) && Live(t'.ps[q].state) && Has(t'.ps, i, q, ZOMBIE)
          && !(t'.ps[q].state == SLEEPING && t'.ps[q].chan == OnProc(q))
  {
    var t', q := Do(t, Exit(i)), t.ps[i].parent;
    assert ParentOk(t.ps, t.init, i);
    ExitShape(t, i, t');
    assert ExitedAt(t.ps[i], t'.ps[i], i, t.init, true) && ExitedAt(t.ps[q], t'.ps[q], i, t.init, false);
  }

  /** A killed process stays killed until it is reaped, whatever anybody does. */
  lemma KilledStays(t: Table, a: Step, k: int)
    requires Enabled(t, a) && Slot(t, k) && t.ps[k].killed
    ensures var t' := Do(t, a);
      Slot(t', k) && (t'.ps[k].killed || (a.Wait? && t.ps[k].state == ZOMBIE && t.ps[k].parent == a.i
                                          && t'.ps[k].state == UNUSED))
  {
  }

  /** No step of the run reaps process k. */
  ghost predicate NotReaped(t: Table, steps: seq<Step>, k: int)
    requires Path(t, steps)
    decreases |steps|
  {
    steps == [] || (!(steps[0].Wait? && FirstChild(t.ps, steps[0].i, 0) == k)
                    && NotReaped(Do(t, steps[0]), steps[1..], k))
  }

  lemma NotReapedStep(t: Table, a: Step, k: int)
    requires Enabled(t, a) && Slot(t, k) && t.ps[k].killed && !(a.Wait? && FirstChild(t.ps, a.i, 0) == k)
    ensures Slot(Do(t, a), k) && Do(t, a).ps[k].killed
  {
  }

  lemma {:induction false} KilledAfter(t: Table, steps: seq<Step>, k: int)
    requires Path(t, steps) && Slot(t, k) && t.ps[k].killed && NotReaped(t, steps, k)
    ensures Slot(After(t, steps), k) && After(t, steps).ps[k].killed
    decreases |steps|
  {
    if steps != [] {
      NotReapedStep(t, steps[0], k);
      hide Do, Enabled;
      KilledAfter(Do(t, steps[0]), steps[1..], k);
    }
  }

  lemma KilledWaits(t: Table, k: int)
    requires Enabled(t, Wait(k)) && t.ps[k].killed
    ensures Do(t, Wait(k)).ps[k].state == RUNNING && Do(t, Wait(k)).ps[k].place == Elsewhere
  {
  }

  /** kill makes the victim runnable if it sleeps; from its next round on wait finds a zombie child or returns -1, and
      never sleeps. */
  lemma KilledNeverWaits(t: Table, pid: int, steps: seq<Step>, k: int)
    requires Slot(t, k) && t.ps[k].pid == pid && forall j :: 0 <= j < k ==> t.ps[j].pid != pid
    requires Path(Do(t, Kill(pid)), steps) && NotReaped(Do(t, Kill(pid)), steps, k)
    ensures Do(t, Kill(pid)).ps[k].killed && Do(t, Kill(pid)).ps[k].state != SLEEPING
    ensures var t' := After(Do(t, Kill(pid)), steps);
      && Slot(t', k) && t'.ps[k].killed
      && (Enabled(t', Wait(k)) ==> Do(t', Wait(k)).ps[k].state == RUNNING && Do(t', Wait(k)).ps[k].place == Elsewhere)
  {
    var t1 := Do(t, Kill(pid));
    assert FirstPid(t.ps, pid, 0) == k;
    hide Do, Enabled;
    KilledAfter(t1, steps, k);
    var t' := After(t1, steps);
    if Enabled(t', Wait(k)) { KilledWaits(t', k); }
  }

  /** Free slots have pid 0, so kill(0) finds one and marks it; allocproc does not clear the mark, and the next child
      that fork makes in that slot is killed before it has run. */
  lemma BornKilled(t: Table, i: int)
    requires Enabled(t, Alloc(i)) && FirstIn(t.ps, UNUSED, 0) < |t.ps|
    ensures var n := FirstIn(t.ps, UNUSED, 0);
      && Do(t, Alloc(i)).ps[n].killed == t.ps[n].killed && Do(t, Alloc(i)).ps[n].pid == t.nextpid
      && (FirstPid(t.ps, 0, 0) == n ==>
            Enabled(Do(t, Kill(0)), Alloc(i)) && Do(Do(t, Kill(0)), Alloc(i)).ps[n].killed
            && Do(Do(t, Kill(0)), Alloc(i)).ps[n].pid == t.nextpid)
  {
    var n := FirstIn(t.ps, UNUSED, 0);
    if FirstPid(t.ps, 0, 0) == n {
      var t1 := Do(t, Kill(0));
      var r := FirstIn(t1.ps, UNUSED, 0);
      assert t1.ps[n].state == UNUSED && r <= n;
    }
  }

  /** Slot n holds p, process i stands at `place`, and otherwise the table is as in t. */
  ghost predicate ForkAt(t: Table, t': Table, i: int, n: int, p: Proc, place: Place)
    requires Slot(t, i) && Slot(t, n)
  {
    t'.ps == t.ps[n := p][i := t.ps[i].(place := place)] && t'.init == t.init
  }

  lemma StackNext(t: Table, s: Table, i: int, n: int, p: Proc)
    requires Runs(t, i) && Slot(t, n) && n != i && ForkAt(t, s, i, n, p, Forked(n))
    ensures Enabled(s, Stack(i, true)) && ForkAt(t, Do(s, Stack(i, true)), i, n, p.(kstack := s.next), Stacked(n))
    ensures Do(s, Stack(i, true)) == s.(ps := Do(s, Stack(i, true)).ps, next := s.next + 1)
  {
  }

  lemma CopyNext(t: Table, s: Table, i: int, n: int, p: Proc)
    requires Runs(t, i) && Slot(t, n) && n != i && ForkAt(t, s, i, n, p, Stacked(n))
    ensures Enabled(s, Copy(i, true)) && ForkAt(t, Do(s, Copy(i, true)), i, n, p.(pgdir := s.next), Copied(n))
    ensures Do(s, Copy(i, true)) ==
            s.(ps := Do(s, Copy(i, true)).ps, next := s.next + 1, hasDir := s.hasDir + {n})
  {
  }

  lemma ParentNext(t: Table, s: Table, i: int, n: int, p: Proc)
    requires Runs(t, i) && Slot(t, n) && n != i && ForkAt(t, s, i, n, p, Copied(n))
    ensures Enabled(s, Parent(i)) && ForkAt(t, Do(s, Parent(i)), i, n, p.(parent := i), Parented(n))
    ensures Do(s, Parent(i)) == s.(ps := Do(s, Parent(i)).ps)
  {
  }

  lemma ReadyNext(t: Table, s: Table, i: int, n: int, p: Proc)
    requires Runs(t, i) && Slot(t, n) && n != i && ForkAt(t, s, i, n, p, Parented(n))
    ensures Enabled(s, Ready(i)) && ForkAt(t, Do(s, Ready(i)), i, n, p.(state := RUNNABLE), Elsewhere)
    ensures Do(s, Ready(i)) == s.(ps := Do(s, Ready(i)).ps)
  {
  }

  lemma AllocFirst(t: Table, i: int)
    requires Enabled(t, Alloc(i)) && FirstIn(t.ps, UNUSED, 0) < |t.ps|
    ensures var n := FirstIn(t.ps, UNUSED, 0);
      && n != i && Do(t, Alloc(i)) == t.(ps := Do(t, Alloc(i)).ps, nextpid := t.nextpid + 1)
      && ForkAt(t, Do(t, Alloc(i)), i, n, t.ps[n].(state := EMBRYO, pid := t.nextpid), Forked(n))
  {
  }

  lemma ForkEnd(t: Table, t': Table, i: int, n: int, p: Proc)
    requires Slot(t, i) && Slot(t, n) && n != i && t.ps[i].place == Elsewhere && ForkAt(t, t', i, n, p, Elsewhere)
    ensures |t'.ps| == |t.ps| && t'.ps[n] == p && forall j :: 0 <= j < |t.ps| && j != n ==> t'.ps[j] == t.ps[j]
  {
  }

  /** The sections of fork one after the other: a runnable child with a new pid, stack and page directory, in the
      first free slot; nobody else is touched. */
  lemma ForkWhole(t: Table, i: int, t1: Table, t2: Table, t3: Table, t4: Table, t5: Table)
    requires Enabled(t, Alloc(i)) && t1 == Do(t, Alloc(i)) && FirstIn(t.ps, UNUSED, 0) < |t.ps|
    requires Enabled(t1, Stack(i, true)) ==> t2 == Do(t1, Stack(i, true))
    requires Enabled(t2, Copy(i, true)) ==> t3 == Do(t2, Copy(i, true))
    requires Enabled(t3, Parent(i)) ==> t4 == Do(t3, Parent(i))
    requires Enabled(t4, Ready(i)) ==> t5 == Do(t4, Ready(i))
    ensures Enabled(t1, Stack(i, true)) && Enabled(t2, Copy(i, true)) && Enabled(t3, Parent(i)) && Enabled(t4, Ready(i))
    ensures var n := FirstIn(t.ps, UNUSED, 0);
      && |t5.ps| == |t.ps| && n != i && t5.nextpid == t.nextpid + 1
      && t5.ps[n] == t.ps[n].(state := RUNNABLE, pid := t.nextpid, parent := i, kstack := t.next, pgdir := t.next + 1)
      && t5.freedStacks == t.freedStacks && t5.freedDirs == t.freedDirs
      && forall j :: 0 <= j < |t.ps| && j != n ==> t5.ps[j] == t.ps[j]
  {
    var n := FirstIn(t.ps, UNUSED, 0);
    AllocFirst(t, i);
    assert Runs(t, i) && t.ps[i].place == Elsewhere;
    hide Do, Enabled, ForkAt, FirstIn;
    var p := t.ps[n].(state := EMBRYO, pid := t.nextpid);
    StackNext(t, t1, i, n, p);
    CopyNext(t, t2, i, n, p.(kstack := t.next));
    ParentNext(t, t3, i, n, p.(kstack := t.next, pgdir := t.next + 1));
    ReadyNext(t, t4, i, n, p.(kstack := t.next, pgdir := t.next + 1, parent := i));
    ForkEnd(t, t5, i, n, p.(kstack := t.next, pgdir := t.next + 1, parent := i, state := RUNNABLE));
  }

  /** The steps of a process that no method stands for: sleep, the scheduler, yield, and the two failures of fork, which
      give the slot back. */
  lemma OtherSteps(t: Table, i: int, n: int, j: int)
    requires Slot(t, i) && Slot(t, j) && j != i
    ensures Enabled(t, Sleep(i, n)) ==>
              Do(t, Sleep(i, n)).ps[j] == t.ps[j]
              && Do(t, Sleep(i, n)).ps[i] == t.ps[i].(chan := OnOther(n), state := SLEEPING)
    ensures Enabled(t, Schedule(i)) <==> t.ps[i].state == RUNNABLE
    ensures Enabled(t, Schedule(i)) ==>
              Do(t, Schedule(i)).ps[j] == t.ps[j] && Do(t, Schedule(i)).ps[i] == t.ps[i].(state := RUNNING)
    ensures Enabled(t, Yield(i)) ==>
              Do(t, Yield(i)).ps[j] == t.ps[j] && Do(t, Yield(i)).ps[i] == t.ps[i].(state := RUNNABLE)
    ensures Inv(t) && Enabled(t, Stack(i, false)) && t.ps[i].place.n == j ==>
              var t' := Do(t, Stack(i, false));
              t'.ps[i] == t.ps[i].(place := Elsewhere) && t'.ps[j] == t.ps[j].(kstack := 0, state := UNUSED)
    ensures Inv(t) && Enabled(t, Copy(i, false)) && t.ps[i].place.n == j ==>
              var t' := Do(t, Copy(i, false));
              t'.ps[i] == t.ps[i].(place := Elsewhere)
              && t'.ps[j] == t.ps[j].(kstack := 0, pgdir := 0, state := UNUSED)
              && t'.freedStacks == t.freedStacks + [t.ps[j].kstack]
  {
  }
}
