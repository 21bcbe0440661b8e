/** The table scans of xv6_work/proc.c: wakeup1, allocproc, exit, wait and kill.  Each method is a section under
    ptable.lock and takes the step of ProcSpec of that name. */
module ProcCode {
  import opened ProcSpec

  /** A process while exit walks over the table: adopted once the walk has passed it, and woken if it is init asleep
      in wait and a zombie has been passed. */
  function Passing(p: Proc, passed: bool, zombies: bool, cur: int, init: int): Proc {
    var q := if zombies && p.state == SLEEPING && p.chan == OnProc(init) then p.(state := RUNNABLE) else p;
    if passed && p.parent == cur then q.(parent := init) else q
  }

  ghost predicate AfterPass(ps: seq<Proc>, cur: int, init: int, p: Proc, p': Proc) {
    && p' == p.(state := p'.state, parent := if p.parent == cur then init else p.parent)
    && p'.state == (if p.state == SLEEPING && p.chan == OnProc(init) && ZombieChild(ps, cur) then RUNNABLE else p.state)
  }

  /** A wakeup makes no zombies and no children. */
  lemma SameZombies(was: seq<Proc>, mid: seq<Proc>, cur: int, c: Chan)
    requires mid == Woken(was, c)
    ensures ZombieChild(mid, cur) <==>
            exists k :: 0 <= k < |was| && was[k].parent == cur && was[k].state == ZOMBIE
  {
    if ZombieChild(mid, cur) {
      var k :| Has(mid, k, cur, ZOMBIE);
      assert was[k].parent == cur && was[k].state == ZOMBIE;
    }
    if k :| 0 <= k < |was| && was[k].parent == cur && was[k].state == ZOMBIE {
      assert Has(mid, k, cur, ZOMBIE);
    }
  }

  lemma NoneBefore(ps: seq<Proc>, i: int, k: nat)
    requires k <= |ps| && FirstChild(ps, i, 0) == FirstChild(ps, i, k)
    ensures forall j :: 0 <= j < k ==> ps[j].parent != i || ps[j].state != ZOMBIE
  {
    forall j | 0 <= j < k
      ensures ps[j].parent != i || ps[j].state != ZOMBIE
    {
      assert !Has(ps, j, i, ZOMBIE);
    }
  }

  /** The round of wait has reaped child k. */
  ghost predicate ReapedIn(t: Table, t': Table, i: int, k: int)
    requires 0 <= i < |t.ps| == |t'.ps| && 0 <= k < |t.ps|
  {
    && t.ps[k].parent == i && t.ps[k].state == ZOMBIE
    && t'.ps[k].state == UNUSED && t'.ps[k].pid == 0 && t'.ps[k].parent == -1 && !t'.ps[k].killed
    && t'.ps[k].kstack == 0 && t'.freedStacks == t.freedStacks + [t.ps[k].kstack]
    && t'.freedDirs == t.freedDirs + [t.ps[k].pgdir]
    && k != i && t'.ps[i] == t.ps[i].(chan := NoChan, place := Elsewhere)
    && forall j :: 0 <= j < |t.ps| && j != k && j != i ==> t'.ps[j] == t.ps[j]
  }

  /** Without a zombie child it gives up, or goes to sleep. */
  ghost predicate NotReaped(t: Table, t': Table, i: int, r: int)
    requires 0 <= i < |t.ps| == |t'.ps|
  {
    && t'.freedStacks == t.freedStacks && t'.freedDirs == t.freedDirs
    && (forall j :: 0 <= j < |t.ps| && j != i ==> t'.ps[j] == t.ps[j])
    && (if (forall k :: 0 <= k < |t.ps| ==> t.ps[k].parent != i) || t.ps[i].killed
        then r == -1 && t'.ps[i] == t.ps[i].(chan := NoChan, place := Elsewhere)
        else r == 0 && t'.ps[i] == t.ps[i].(chan := OnProc(i), state := SLEEPING, place := InWait))
  }

  class ProcTable {
    var ps: seq<Proc>
    var init: int
    var nextpid: int
    ghost var next: int
    ghost var freedStacks: seq<int>
    ghost var freedDirs: seq<int>
    ghost var hasDir: set<int>

    ghost function V(): Table
      reads this
    {
      Table(ps, init, nextpid, next, freedStacks, freedDirs, hasDir)
    }

    method Wakeup1(c: Chan)
      modifies this`ps
      ensures ps == Woken(old(ps), c) && |ps| == |old(ps)|
      ensures forall j :: 0 <= j < |ps| ==>
                ps[j] == if old(ps)[j].state == SLEEPING && old(ps)[j].chan == c then old(ps)[j].(state := RUNNABLE)
                         else old(ps)[j]
    {
      ghost var was := ps;
      var k := 0;
      while k < |ps|
        invariant k <= |ps| == |was|
        invariant forall j :: 0 <= j < |ps| ==> ps[j] == if j < k then Woken(was, c)[j] else was[j]
      {
        if ps[k].state == SLEEPING && ps[k].chan == c {
          ps := ps[k := ps[k].(state := RUNNABLE)];
        }
        k := k + 1;
      }
      assert ps == Woken(was, c);
    }

    method Wakeup(n: int)
      modifies this`ps
      ensures V() == Do(old(V()), Step.Wakeup(n)) && |ps| == |old(ps)|
      ensures forall j :: 0 <= j < |ps| ==>
                ps[j] == if old(ps)[j].state == SLEEPING && old(ps)[j].chan == OnOther(n)
                         then old(ps)[j].(state := RUNNABLE) else old(ps)[j]
    {
      Wakeup1(OnOther(n));
    }

    /** The search of allocproc: |ps| for no free slot. */
    method Alloc(i: int) returns (n: nat)
      requires Enabled(V(), Step.Alloc(i))
      modifies this`ps, this`nextpid
      ensures V() == Do(old(V()), Step.Alloc(i)) && n <= |old(ps)| == |ps|
      ensures forall j :: 0 <= j < n ==> old(ps)[j].state != UNUSED
      ensures n == |ps| ==> ps == old(ps) && nextpid == old(nextpid)
      ensures n < |ps| ==> old(ps)[n].state == UNUSED && n != i && nextpid == old(nextpid) + 1
                           && ps[n] == old(ps)[n].(state := EMBRYO, pid := old(nextpid))
                           && ps[i] == old(ps)[i].(place := Forked(n))
                           && forall j :: 0 <= j < |ps| && j != n && j != i ==> ps[j] == old(ps)[j]
    {
      n := 0;
      while n < |ps|
        invariant n <= |ps| && V() == old(V()) && FirstIn(ps, UNUSED, 0) == FirstIn(ps, UNUSED, n)
      {
        if ps[n].state == UNUSED {
          ps := ps[n := ps[n].(state := EMBRYO)];
          ps := ps[n := ps[n].(pid := nextpid)];
          nextpid := nextpid + 1;
          ps := ps[i := ps[i].(place := Forked(n))];
          assert ps == old(ps)[n := old(ps)[n].(state := EMBRYO, pid := old(nextpid))]
                              [i := old(ps)[i].(place := Forked(n))];
          return;
        }
        n := n + 1;
      }
    }

    /** The loop of exit: the children go to init, and zombies among them wake it. */
    method PassChildren(cur: int)
      requires 0 <= cur < |ps|
      modifies this`ps
      ensures ps == Adopted(old(ps), cur, init, ZombieChild(old(ps), cur)) && |ps| == |old(ps)|
      ensures forall j :: 0 <= j < |ps| ==> AfterPass(old(ps), cur, init, old(ps)[j], ps[j])
    {
      ghost var qs := ps;
      ghost var zombies := false;
      var k := 0;
      while k < |ps|
        invariant k <= |ps| == |qs|
        invariant forall j :: 0 <= j < |ps| ==> ps[j] == Passing(qs[j], j < k, zombies, cur, init)
        invariant zombies <==> exists j :: 0 <= j < k && Has(qs, j, cur, ZOMBIE)
      {
        if ps[k].parent == cur {
          assert qs[k].parent == cur;
          ps := ps[k := ps[k].(parent := init)];
          if ps[k].state == ZOMBIE {
            assert Has(qs, k, cur, ZOMBIE);
            Wakeup1(OnProc(init));
            zombies := true;
          }
        }
        k := k + 1;
      }
      assert zombies <==> ZombieChild(qs, cur) by {
        if j :| Has(qs, j, cur, ZOMBIE) { assert 0 <= j < k; }
      }
      assert ps == Adopted(qs, cur, init, zombies);
    }

    /** From the wakeup of the parent to ZOMBIE; the panic for an exit of init is the precondition. */
    method Exit(cur: int)
      requires Enabled(V(), Step.Exit(cur)) && Slot(V(), init)
      modifies this`ps
      ensures V() == Do(old(V()), Step.Exit(cur)) && |ps| == |old(ps)| && ps[cur].state == ZOMBIE
      ensures forall j :: 0 <= j < |ps| ==>
                ps[j] == old(ps)[j].(state := ps[j].state,
                                     parent := if old(ps)[j].parent == cur then init else old(ps)[j].parent)
      ensures forall j :: 0 <= j < |ps| && j != cur ==>
                var p := old(ps)[j];
                var roused := p.state == SLEEPING
                              && (p.chan == (if old(ps)[cur].parent < 0 then NoChan else OnProc(old(ps)[cur].parent))
                                  || (p.chan == OnProc(init)
                                      && exists k :: 0 <= k < |ps| && old(ps)[k].parent == cur
                                                     && old(ps)[k].state == ZOMBIE));
                ps[j].state == if roused then RUNNABLE else p.state
    {
      ghost var was := ps;
      Wakeup1(ParentChan(ps[cur]));
      ghost var mid := ps;
      PassChildren(cur);
      ps := ps[cur := ps[cur].(state := ZOMBIE)];
      SameZombies(was, mid, cur, ParentChan(was[cur]));
    }

    /** One round of wait under the lock: the pid of a reaped child, -1 for nothing to wait for, 0 for going to
        sleep. */
    method Wait(i: int) returns (r: int, ghost k: nat)
      requires Enabled(V(), Step.Wait(i))
      modifies this`ps, this`freedStacks, this`freedDirs, this`hasDir
      ensures V() == Do(old(V()), Step.Wait(i)) && |ps| == |old(ps)| && k <= |ps|
      ensures forall j :: 0 <= j < k ==> old(ps)[j].parent != i || old(ps)[j].state != ZOMBIE
      ensures if k < |ps| then r == old(ps)[k].pid && ReapedIn(old(V()), V(), i, k) else NotReaped(old(V()), V(), i, r)
    {
      k := |ps|;
      var havekids := false;
      var p := 0;
      while p < |ps|
        invariant p <= |ps| && V() == old(V()) && FirstChild(ps, i, 0) == FirstChild(ps, i, p)
        invariant havekids <==> exists j :: 0 <= j < p && ps[j].parent == i
      {
        if ps[p].parent == i {
          havekids := true;
          if ps[p].state == ZOMBIE {
            k, r := p, ps[p].pid;
            freedStacks := freedStacks + [ps[p].kstack];   // kfree
            freedDirs := freedDirs + [ps[p].pgdir];        // freevm
            hasDir := hasDir - {p};
            ps := ps[p := ps[p].(kstack := 0, pid := 0, parent := -1, killed := false, state := UNUSED)];
            ps := ps[i := ps[i].(chan := NoChan, place := Elsewhere)];
            assert ps == old(ps)[i := old(ps)[i].(chan := NoChan, place := Elsewhere)][p := Reaped(old(ps)[p])];
            NoneBefore(old(ps), i, p);
            return;
          }
        }
        p := p + 1;
      }
      assert havekids <==> HasKids(ps, i);
      NoneBefore(ps, i, |ps|);
      if !havekids || ps[i].killed {
        ps := ps[i := ps[i].(chan := NoChan, place := Elsewhere)];
        return -1, k;
      }
      ps := ps[i := ps[i].(chan := OnProc(i), state := SLEEPING, place := InWait)];  // sleep
      return 0, k;
    }

    /** 0 when a process with this pid was found, else -1; k is its place, |ps| for none. */
    method Kill(pid: int) returns (r: int, ghost k: nat)
      modifies this`ps
      ensures V() == Do(old(V()), Step.Kill(pid)) && |ps| == |old(ps)|
      ensures k <= |ps| && forall j :: 0 <= j < k ==> old(ps)[j].pid != pid
      ensures r == if k < |ps| then 0 else -1
      ensures k == |ps| ==> ps == old(ps)
      ensures k < |ps| ==> old(ps)[k].pid == pid && ps[k].killed
                           && ps[k].state == (if old(ps)[k].state == SLEEPING then RUNNABLE else old(ps)[k].state)
                           && ps[k] == old(ps)[k].(killed := true, state := ps[k].state)
                           && forall j :: 0 <= j < |ps| && j != k ==> ps[j] == old(ps)[j]
    {
      k := |ps|;
      var i := 0;
      while i < |ps|
        invariant i <= |ps| && ps == old(ps) && FirstPid(ps, pid, 0) == FirstPid(ps, pid, i)
        invariant forall j :: 0 <= j < i ==> ps[j].pid != pid
      {
        if ps[i].pid == pid {
          k := i;
          ps := ps[i := ps[i].(killed := true)];
          if ps[i].state == SLEEPING {
            ps := ps[i := ps[i].(state := RUNNABLE)];
          }
          return 0, k;
        }
        i := i + 1;
      }
      return -1, k;
    }
  }
}
