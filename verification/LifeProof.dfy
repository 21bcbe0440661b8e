/** One barrier per step is enough: the parallel program computes the same board as the serial one, in
    every interleaving of its reads, writes and barrier events. */
module LifeProof {
  import opened Collections
  import opened LifeRules
  import opened LifeParallel

  lemma RangesInside(g: Config, i: nat)
    requires GoodConfig(g) && i < g.threads
    ensures 0 <= First(g, i) <= Last(g, i) + 1 <= |g.init|
  {
    Consecutive(|g.init|, g.threads, i);
    StartsAscend(|g.init|, g.threads, i, i + 1);
  }

  lemma InitOk(g: Config)
    requires GoodConfig(g)
    ensures Inv(g, Init(g))
  {
    var s := Init(g);
    forall i | 0 <= i < g.threads
      ensures PcOk(g, 0, s.pcs[i], i)
    {
      RangesInside(g, i);
    }
    assert Here(s) == {};
  }

  // ----- counting the threads at the barrier -----

  lemma HereUnchanged(s: State, pcs: seq<PC>, i: nat)
    requires i < |s.pcs| == |pcs| && forall j :: 0 <= j < |pcs| && j != i ==> pcs[j] == s.pcs[j]
    requires s.pcs[i] != Waiting(s.generation) && pcs[i] != Waiting(s.generation)
    ensures Here(s.(pcs := pcs)) == Here(s)
  {
    forall j: nat
      ensures j in Here(s.(pcs := pcs)) <==> j in Here(s)
    {
      if j < |pcs| && j != i { assert pcs[j] == s.pcs[j]; }
    }
  }

  lemma HereGrows(s: State, i: nat)
    requires i < |s.pcs| && s.pcs[i] != Waiting(s.generation)
    ensures |Here(s.(pcs := s.pcs[i := Waiting(s.generation)]))| == |Here(s)| + 1
  {
    assert Here(s.(pcs := s.pcs[i := Waiting(s.generation)])) == Here(s) + {i};
  }

  lemma HereAll(s: State)
    ensures |Here(s)| <= |s.pcs|
    ensures |Here(s)| == |s.pcs| <==> forall i :: 0 <= i < |s.pcs| ==> s.pcs[i] == Waiting(s.generation)
  {
    var all := Below(|s.pcs|);
    SubsetSize(Here(s), all);
    if |Here(s)| == |s.pcs| {
      forall i | 0 <= i < |s.pcs|
        ensures s.pcs[i] == Waiting(s.generation)
      {
        assert i in Here(s);
      }
    }
    if forall i :: 0 <= i < |s.pcs| ==> s.pcs[i] == Waiting(s.generation) {
      assert Here(s) == all;
    }
  }

  // ----- one lemma for each kind of step -----

  /** A thread that moves on without having finished any further interior cell of its own. */
  lemma NothingNew(g: Config, nxt: seq<bool>, generation: nat, pcs: seq<PC>, i: nat, pc: PC)
    requires GoodConfig(g) && |pcs| == g.threads && i < g.threads && IsBoard(g.z, nxt)
    requires NextOk(g, nxt, generation, pcs)
    requires forall c :: 0 <= c < |g.init| && Owns(|g.init|, g.threads, i, c) && Interior(g.z, c) ==>
               (DoneWith(pc, generation, c) ==> DoneWith(pcs[i], generation, c))
    ensures NextOk(g, nxt, generation, pcs[i := pc])
  {
  }

  lemma SkipKeeps(g: Config, s: State, i: nat)
    requires Inv(g, s) && CanStep(g, s, i) && s.pcs[i].Working?
    requires s.pcs[i].cell <= Last(g, i) && !Interior(g.z, s.pcs[i].cell)
    ensures Inv(g, Next(g, s, i))
  {
    hide NextOk, Parallel, LiveIn;
    var pc := Working(s.pcs[i].step, s.pcs[i].cell + 1, 0, 0);
    NothingNew(g, Board(s, s.generation + 1), s.generation, s.pcs, i, pc);
    HereUnchanged(s, s.pcs[i := pc], i);
  }

  lemma ReadKeeps(g: Config, s: State, i: nat)
    requires Inv(g, s) && CanStep(g, s, i) && s.pcs[i].Working?
    requires s.pcs[i].cell <= Last(g, i) && Interior(g.z, s.pcs[i].cell) && s.pcs[i].k < 9
    ensures Inv(g, Next(g, s, i))
  {
    hide NextOk, Parallel, Lives, Window;
    var pc := s.pcs[i];
    WindowInside(g.z, pc.cell, pc.k);
    var seen := if Board(s, pc.step)[Window(g.z, pc.cell, pc.k)] then 1 else 0;
    var pc' := Working(pc.step, pc.cell, pc.k + 1, pc.live + seen);
    NothingNew(g, Board(s, s.generation + 1), s.generation, s.pcs, i, pc');
    HereUnchanged(s, s.pcs[i := pc'], i);
  }

  /** Writing one interior cell, and moving on past it. */
  lemma OneNew(g: Config, nxt: seq<bool>, generation: nat, pcs: seq<PC>, i: nat, cell: nat)
    requires GoodConfig(g) && |pcs| == g.threads && i < g.threads && IsBoard(g.z, nxt) && cell < |g.init|
    requires NextOk(g, nxt, generation, pcs) && Interior(g.z, cell)
    requires pcs[i].Working? && pcs[i].cell == cell
    ensures NextOk(g, nxt[cell := Lives(g.z, Parallel(g.z, g.init, generation), cell)], generation,
                   pcs[i := Working(pcs[i].step, cell + 1, 0, 0)])
  {
    var nxt' := nxt[cell := Lives(g.z, Parallel(g.z, g.init, generation), cell)];
    var pcs' := pcs[i := Working(pcs[i].step, cell + 1, 0, 0)];
    forall j, c | 0 <= j < g.threads && 0 <= c < |g.init| && Owns(|g.init|, g.threads, j, c)
                  && DoneWith(pcs'[j], generation, c) && Interior(g.z, c)
      ensures nxt'[c] == Lives(g.z, Parallel(g.z, g.init, generation), c)
    {
      assert c == cell || DoneWith(pcs[j], generation, c);
    }
  }

  lemma WriteKeeps(g: Config, s: State, i: nat)
    requires Inv(g, s) && CanStep(g, s, i) && s.pcs[i].Working?
    requires s.pcs[i].cell <= Last(g, i) && Interior(g.z, s.pcs[i].cell) && s.pcs[i].k == 9
    ensures Inv(g, Next(g, s, i))
  {
    hide NextOk, LiveIn, Parallel;
    var s', cell, step := Next(g, s, i), s.pcs[i].cell, s.pcs[i].step;
    OneNew(g, Board(s, step + 1), step, s.pcs, i, cell);
    HereUnchanged(s, s'.pcs, i);
    assert Here(s') == Here(s.(pcs := s'.pcs));
    assert Board(s', step) == Board(s, step);
    assert Board(s', step + 1) == Board(s, step + 1)[cell := Lives(g.z, Parallel(g.z, g.init, step), cell)];
  }

  lemma LeaveKeeps(g: Config, s: State, i: nat)
    requires Inv(g, s) && CanStep(g, s, i) && s.pcs[i].Waiting?
    ensures Inv(g, Next(g, s, i))
  {
    hide NextOk;
    var pc := Enter(g, i, s.pcs[i].step + 1);
    RangesInside(g, i);
    NothingNew(g, Board(s, s.generation + 1), s.generation, s.pcs, i, pc);
    HereUnchanged(s, s.pcs[i := pc], i);
  }

  /** When all threads stand at the barrier, the next generation is complete on the other board. */
  lemma Complete(g: Config, nxt: seq<bool>, generation: nat, pcs: seq<PC>)
    requires GoodConfig(g) && |pcs| == g.threads && IsBoard(g.z, nxt) && NextOk(g, nxt, generation, pcs)
    requires forall i :: 0 <= i < |pcs| ==> pcs[i] == Waiting(generation)
    ensures nxt == Parallel(g.z, g.init, generation + 1)
  {
    var n := |g.init|;
    forall c | 0 <= c < n
      ensures nxt[c] == Parallel(g.z, g.init, generation + 1)[c]
    {
      if Interior(g.z, c) {
        Consecutive(n, g.threads, 0);
        var i := HasOwner(n, g.threads, c, 0);
        assert DoneWith(pcs[i], generation, c);
      }
    }
  }

  lemma OpenKeeps(g: Config, s1: State)
    requires Consistent(g, s1) && s1.generation < g.steps && s1.arrived + 1 == g.threads
    requires forall i :: 0 <= i < |s1.pcs| ==> s1.pcs[i] == Waiting(s1.generation)
    ensures Inv(g, Arrive(s1))
  {
    var s', gen := Arrive(s1), s1.generation;
    Complete(g, Board(s1, gen + 1), gen, s1.pcs);
    assert Board(s', gen + 1) == Board(s1, gen + 1);
    assert Board(s', gen + 2) == Board(s1, gen);
    assert Here(s') == {};
    assert NextOk(g, Board(s1, gen), gen + 1, s1.pcs);
  }

  lemma ArriveKeeps(g: Config, s: State, i: nat)
    requires Inv(g, s) && CanStep(g, s, i) && s.pcs[i].Working? && s.pcs[i].cell > Last(g, i)
    ensures Inv(g, Next(g, s, i))
  {
    hide NextOk;
    var pc := Waiting(s.generation);
    var s1 := s.(pcs := s.pcs[i := pc]);
    NothingNew(g, Board(s, s.generation + 1), s.generation, s.pcs, i, pc);
    HereGrows(s, i);
    HereAll(s1);
    if s.arrived + 1 == g.threads {
      OpenKeeps(g, s1);
    } else {
      assert Here(Arrive(s1)) == Here(s1);
    }
  }

  // ----- the theorems -----

  lemma StepKeeps(g: Config, s: State, i: nat)
    requires Inv(g, s) && CanStep(g, s, i)
    ensures Inv(g, Next(g, s, i))
  {
    hide Inv, Next, NextOk, LiveIn;
    match s.pcs[i]
    case Working(_, cell, k, _) =>
      if cell > Last(g, i) {
        ArriveKeeps(g, s, i);
      } else if !Interior(g.z, cell) {
        SkipKeeps(g, s, i);
      } else if k < 9 {
        ReadKeeps(g, s, i);
      } else {
        WriteKeeps(g, s, i);
      }
    case Waiting(_) => LeaveKeeps(g, s, i);
  }

  ghost predicate IsStep(g: Config, s: State, i: nat, s': State) {
    CanStep(g, s, i) && s' == Next(g, s, i)
  }

  /** An interleaving: thread who[j] takes the j-th step. */
  ghost predicate IsRun(g: Config, ss: seq<State>, who: seq<nat>) {
    && GoodConfig(g) && |ss| == |who| + 1 && ss[0] == Init(g)
    && forall j :: 0 <= j < |who| ==> IsStep(g, ss[j], who[j], ss[j + 1])
  }

  lemma {:induction false} RunKeeps(g: Config, ss: seq<State>, who: seq<nat>, j: nat)
    requires IsRun(g, ss, who) && j < |ss|
    ensures Inv(g, ss[j])
  {
    if j == 0 {
      InitOk(g);
    } else {
      RunKeeps(g, ss, who, j - 1);
      assert IsStep(g, ss[j - 1], who[j - 1], ss[j]);
      StepKeeps(g, ss[j - 1], who[j - 1]);
    }
  }

  ghost predicate AllFinished(s: State) {
    forall i :: 0 <= i < |s.pcs| ==> s.pcs[i] == Finished
  }

  /** What simulate_life_parallel leaves in `state` after the joins: the copy-back for odd step counts. */
  function Result(g: Config, s: State): seq<bool> {
    if g.steps % 2 == 1 then s.boards.1 else s.boards.0
  }

  lemma ParallelIsSerial(g: Config, ss: seq<State>, who: seq<nat>)
    requires IsRun(g, ss, who) && AllFinished(ss[|who|])
    ensures Result(g, ss[|who|]) == Parallel(g.z, g.init, g.steps)
    ensures DeadBorder(g.z, g.init) ==> Result(g, ss[|who|]) == Serial(g.z, g.init, g.steps).0
    ensures g.steps % 2 == 1 ==>
              (Result(g, ss[|who|]) == Serial(g.z, g.init, g.steps).0 <==> DeadBorder(g.z, g.init))
  {
    var s := ss[|who|];
    RunKeeps(g, ss, who, |who|);
    assert PcOk(g, s.generation, s.pcs[0], 0);
    if DeadBorder(g.z, g.init) {
      DeadBorderAgrees(g.z, g.init, g.steps);
    }
    if g.steps % 2 == 1 {
      OddStepsAgree(g.z, g.init, g.steps);
    }
  }

  /** The threads that are computing all read one board and all write the other, each its own cells. */
  lemma NoRace(g: Config, ss: seq<State>, who: seq<nat>, at: nat, i: nat, j: nat)
    requires IsRun(g, ss, who) && at < |ss| && i < |ss[at].pcs| && j < |ss[at].pcs|
    requires ss[at].pcs[i].Working? && ss[at].pcs[j].Working?
    ensures (ss[at].pcs[i].step + 1) % 2 != ss[at].pcs[j].step % 2
    ensures i != j && ss[at].pcs[i].cell <= Last(g, i) && ss[at].pcs[j].cell <= Last(g, j) ==>
              ss[at].pcs[i].cell != ss[at].pcs[j].cell
  {
    RunKeeps(g, ss, who, at);
    var s := ss[at];
    assert PcOk(g, s.generation, s.pcs[i], i) && PcOk(g, s.generation, s.pcs[j], j);
    if i != j && s.pcs[i].cell == s.pcs[j].cell && s.pcs[i].cell <= Last(g, i) && s.pcs[j].cell <= Last(g, j) {
      OneOwner(|g.init|, g.threads, i, j, s.pcs[i].cell);
    }
  }

  /** In every reachable state a thread that neither waits at the closed barrier nor has finished can move. */
  lemma EveryoneMoves(g: Config, ss: seq<State>, who: seq<nat>, at: nat, i: nat)
    requires IsRun(g, ss, who) && at < |ss| && i < |ss[at].pcs|
    ensures CanStep(g, ss[at], i) <==> ss[at].pcs[i] != Finished && ss[at].pcs[i] != Waiting(ss[at].generation)
  {
    RunKeeps(g, ss, who, at);
    assert PcOk(g, ss[at].generation, ss[at].pcs[i], i);
    RangesInside(g, i);
  }

  /** No deadlock: as long as some thread has not finished, some thread can take a step. */
  lemma NeverStuck(g: Config, ss: seq<State>, who: seq<nat>, at: nat)
    requires IsRun(g, ss, who) && at < |ss| && !AllFinished(ss[at])
    ensures exists i: nat :: CanStep(g, ss[at], i)
  {
    RunKeeps(g, ss, who, at);
    var s := ss[at];
    HereAll(s);
    var j :| 0 <= j < |s.pcs| && s.pcs[j] != Waiting(s.generation);
    assert PcOk(g, s.generation, s.pcs[j], j);
    if s.pcs[j] == Finished {
      var i :| 0 <= i < |s.pcs| && s.pcs[i] != Finished;
      assert PcOk(g, s.generation, s.pcs[i], i);
      EveryoneMoves(g, ss, who, at, i);
    } else {
      EveryoneMoves(g, ss, who, at, j);
    }
  }
}
