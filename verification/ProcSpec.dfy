/** The process table of xv6_work/proc.c as a step system: every step is one section under ptable.lock, or one
    store outside it, so that runs cover every interleaving of any number of processes and processors. */
module ProcSpec {
  const NPROC: nat := 64

  datatype Status = UNUSED | EMBRYO | SLEEPING | RUNNABLE | RUNNING | ZOMBIE

  /** What a process sleeps on: a process (wait), or anything else. */
  datatype Chan = NoChan | OnProc(i: int) | OnOther(n: int)

  /** Where the kernel code of a process is: anywhere else, inside wait, or inside fork with the new slot n
      (allocated, with a stack, with a page directory, with its parent set). */
  datatype Place = Elsewhere | InWait | Forked(n: int) | Stacked(n: int) | Copied(n: int) | Parented(n: int)

  /** parent is -1 for none; kstack is 0 for none. */
  datatype Proc = Proc(state: Status, pid: int, parent: int, chan: Chan, killed: bool, kstack: int, pgdir: int,
      place: Place)

  datatype Table = Table(
    ps: seq<Proc>, init: int, nextpid: int,
    // history: names for stacks and page directories, those given back so far, and whose page directory is its own
    next: int, freedStacks: seq<int>, freedDirs: seq<int>, hasDir: set<int>)

  datatype Step =
    | Alloc(i: int)               // fork: allocproc's search
    | Stack(i: int, ok: bool)     // fork: kalloc of the stack
    | Copy(i: int, ok: bool)      // fork: copyuvm
    | Parent(i: int)              // fork: np->parent = curproc
    | Ready(i: int)               // fork: the child becomes RUNNABLE
    | Exit(i: int)
    | Wait(i: int)                // one round of wait's loop
    | Sleep(i: int, n: int)       // sleep on something else
    | Wakeup(n: int)
    | Kill(pid: int)
    | Schedule(i: int) | Yield(i: int)

  predicate Slot(t: Table, i: int) {
    0 <= i < |t.ps|
  }

  predicate Runs(t: Table, i: int) {
    Slot(t, i) && t.ps[i].state == RUNNING
  }

  // ----- table scans -----

  function Woken(ps: seq<Proc>, c: Chan): (r: seq<Proc>)
    ensures |r| == |ps|
  {
    seq(|ps|, i requires 0 <= i < |ps| =>
      if ps[i].state == SLEEPING && ps[i].chan == c then ps[i].(state := RUNNABLE) else ps[i])
  }

  predicate Has(ps: seq<Proc>, k: int, parent: int, state: Status) {
    0 <= k < |ps| && ps[k].parent == parent && ps[k].state == state
  }

  /** The children of `cur` go to init; init is woken when one of them is a zombie. */
  function Adopted(ps: seq<Proc>, cur: int, init: int, zombies: bool): (r: seq<Proc>)
    ensures |r| == |ps|
  {
    var qs := if zombies then Woken(ps, OnProc(init)) else ps;
    seq(|ps|, i requires 0 <= i < |qs| => if qs[i].parent == cur then qs[i].(parent := init) else qs[i])
  }

  function ParentChan(p: Proc): Chan {
    if p.parent < 0 then NoChan else OnProc(p.parent)
  }

  ghost predicate ZombieChild(ps: seq<Proc>, cur: int) {
    exists k :: Has(ps, k, cur, ZOMBIE)
  }

  ghost function AfterExit(ps: seq<Proc>, cur: int, init: int): (r: seq<Proc>)
    requires 0 <= cur < |ps|
    ensures |r| == |ps|
  {
    var qs := Woken(ps, ParentChan(ps[cur]));
    var rs := Adopted(qs, cur, init, ZombieChild(qs, cur));
    rs[cur := rs[cur].(state := ZOMBIE)]
  }

  /** The first slot with the given state, from k on; |ps| for none. */
  function FirstIn(ps: seq<Proc>, state: Status, k: nat): (r: nat)
    requires k <= |ps|
    ensures k <= r <= |ps| && (r < |ps| ==> ps[r].state == state) && forall j :: k <= j < r ==> ps[j].state != state
    decreases |ps| - k
  {
    if k == |ps| || ps[k].state == state then k else FirstIn(ps, state, k + 1)
  }

  function FirstChild(ps: seq<Proc>, parent: int, k: nat): (r: nat)
    requires k <= |ps|
    ensures k <= r <= |ps| && (r < |ps| ==> Has(ps, r, parent, ZOMBIE)) && forall j :: k <= j < r ==>
              !Has(ps, j, parent, ZOMBIE)
    decreases |ps| - k
  {
    if k == |ps| || Has(ps, k, parent, ZOMBIE) then k else FirstChild(ps, parent, k + 1)
  }

  predicate HasKids(ps: seq<Proc>, parent: int) {
    exists k :: 0 <= k < |ps| && ps[k].parent == parent
  }

  function FirstPid(ps: seq<Proc>, pid: int, k: nat): (r: nat)
    requires k <= |ps|
    ensures k <= r <= |ps| && (r < |ps| ==> ps[r].pid == pid) && forall j :: k <= j < r ==> ps[j].pid != pid
    decreases |ps| - k
  {
    if k == |ps| || ps[k].pid == pid then k else FirstPid(ps, pid, k + 1)
  }

  // ----- the steps -----

  predicate Enabled(t: Table, a: Step) {
    match a
    case Alloc(i) => Runs(t, i) && t.ps[i].place == Elsewhere
    case Stack(i, ok) => Runs(t, i) && t.ps[i].place.Forked?
    case Copy(i, ok) => Runs(t, i) && t.ps[i].place.Stacked?
    case Parent(i) => Runs(t, i) && t.ps[i].place.Copied?
    case Ready(i) => Runs(t, i) && t.ps[i].place.Parented?
    case Exit(i) => Runs(t, i) && t.ps[i].place == Elsewhere && i != t.init
    case Wait(i) => Runs(t, i) && (t.ps[i].place == Elsewhere || t.ps[i].place == InWait)
    case Sleep(i, n) => Runs(t, i) && t.ps[i].place == Elsewhere
    case Wakeup(n) => true
    case Kill(pid) => true
    case Schedule(i) => Slot(t, i) && t.ps[i].state == RUNNABLE
    case Yield(i) => Runs(t, i)
  }

  function Set(t: Table, i: int, p: Proc): Table
    requires Slot(t, i)
  {
    t.(ps := t.ps[i := p])
  }

  /** The slot that fork works on is another one of the table. */
  predicate SlotKnown(t: Table, a: Step)
    requires Enabled(t, a)
  {
    a.Stack? || a.Copy? || a.Parent? || a.Ready? ==> Slot(t, t.ps[a.i].place.n) && t.ps[a.i].place.n != a.i
  }

  function DoAlloc(t: Table, i: int): Table
    requires Runs(t, i)
  {
    var n := FirstIn(t.ps, UNUSED, 0);
    if n == |t.ps| then t
    else Set(Set(t, n, t.ps[n].(state := EMBRYO, pid := t.nextpid)), i, t.ps[i].(place := Forked(n)))
        .(nextpid := t.nextpid + 1)
  }

  function DoStack(t: Table, i: int, ok: bool): Table
    requires Runs(t, i) && t.ps[i].place.Forked? && Slot(t, t.ps[i].place.n) && t.ps[i].place.n != i
  {
    var n := t.ps[i].place.n;
    if ok then Set(Set(t, n, t.ps[n].(kstack := t.next)), i, t.ps[i].(place := Stacked(n))).(next := t.next + 1)
    else Set(Set(t, n, t.ps[n].(kstack := 0, state := UNUSED)), i, t.ps[i].(place := Elsewhere))
  }

  function DoCopy(t: Table, i: int, ok: bool): Table
    requires Runs(t, i) && t.ps[i].place.Stacked? && Slot(t, t.ps[i].place.n) && t.ps[i].place.n != i
  {
    var n := t.ps[i].place.n;
    if ok then Set(Set(t, n, t.ps[n].(pgdir := t.next)), i, t.ps[i].(place := Copied(n)))
        .(next := t.next + 1, hasDir := t.hasDir + {n})
    else
      Set(Set(t, n, t.ps[n].(kstack := 0, pgdir := 0, state := UNUSED)), i, t.ps[i].(place := Elsewhere))
        .(freedStacks := t.freedStacks + [t.ps[n].kstack])
  }

  function DoParent(t: Table, i: int): Table
    requires Runs(t, i) && t.ps[i].place.Copied? && Slot(t, t.ps[i].place.n) && t.ps[i].place.n != i
  {
    var n := t.ps[i].place.n;
    Set(Set(t, n, t.ps[n].(parent := i)), i, t.ps[i].(place := Parented(n)))
  }

  function DoReady(t: Table, i: int): Table
    requires Runs(t, i) && t.ps[i].place.Parented? && Slot(t, t.ps[i].place.n) && t.ps[i].place.n != i
  {
    var n := t.ps[i].place.n;
    Set(Set(t, n, t.ps[n].(state := RUNNABLE)), i, t.ps[i].(place := Elsewhere))
  }

  function Reaped(p: Proc): Proc {
    p.(kstack := 0, pid := 0, parent := -1, killed := false, state := UNUSED)
  }

  /** One round: reap the first zombie child, or give up, or go to sleep on oneself. */
  function DoWait(t: Table, i: int): Table
    requires Runs(t, i)
  {
    var k := FirstChild(t.ps, i, 0);
    var p := t.ps[i].(chan := NoChan, place := Elsewhere);
    if k < |t.ps| then
      Set(Set(t, i, p), k, Reaped(t.ps[k]))
        .(freedStacks := t.freedStacks + [t.ps[k].kstack], freedDirs := t.freedDirs + [t.ps[k].pgdir],
          hasDir := t.hasDir - {k})
    else if !HasKids(t.ps, i) || t.ps[i].killed then Set(t, i, p)
    else Set(t, i, t.ps[i].(chan := OnProc(i), state := SLEEPING, place := InWait))
  }

  /** A step of fork that works on no other slot of the table does nothing here; StepKeeps shows that there is no
      such step in any run. */
  ghost function Do(t: Table, a: Step): Table
    requires Enabled(t, a)
  {
    if !SlotKnown(t, a) then t else
    match a
    case Alloc(i) => DoAlloc(t, i)
    case Stack(i, ok) => DoStack(t, i, ok)
    case Copy(i, ok) => DoCopy(t, i, ok)
    case Parent(i) => DoParent(t, i)
    case Ready(i) => DoReady(t, i)
    case Exit(i) => t.(ps := AfterExit(t.ps, i, t.init))
    case Wait(i) => DoWait(t, i)
    case Sleep(i, n) => Set(t, i, t.ps[i].(chan := OnOther(n), state := SLEEPING))
    case Wakeup(n) => t.(ps := Woken(t.ps, OnOther(n)))
    case Kill(pid) =>
      var k := FirstPid(t.ps, pid, 0);
      if k == |t.ps| then t
      else Set(t, k, t.ps[k].(killed := true, state := if t.ps[k].state == SLEEPING then RUNNABLE else t.ps[k].state))
    case Schedule(i) => Set(t, i, t.ps[i].(state := RUNNING))
    case Yield(i) => Set(t, i, t.ps[i].(state := RUNNABLE))
  }
}
