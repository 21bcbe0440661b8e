/** simulate_life_parallel as a step system: every read of one cell, every write of one cell and every
    barrier event is a step of its own, and the threads take steps in any order. */
module LifeParallel {
  import opened LifeRules

  // ----- the partition of the cells -----

  function StartCell(n: nat, threads: nat, i: nat): int
    requires threads > 0
  {
    if i < n % threads then i * (n / threads + 1) else i * (n / threads) + n % threads
  }

  function EndCell(n: nat, threads: nat, i: nat): int
    requires threads > 0
  {
    if i < n % threads then StartCell(n, threads, i) + n / threads else StartCell(n, threads, i) + n / threads - 1
  }

  lemma Consecutive(n: nat, threads: nat, i: nat)
    requires i < threads
    ensures StartCell(n, threads, 0) == 0
    ensures EndCell(n, threads, i) + 1 == StartCell(n, threads, i + 1)
    ensures StartCell(n, threads, threads) == n
    ensures StartCell(n, threads, i) <= StartCell(n, threads, i + 1)
  {
    var q, e := n / threads, n % threads;
    assert n == threads * q + e;
    assert (i + 1) * q == i * q + q && (i + 1) * (q + 1) == i * (q + 1) + q + 1 && i * (q + 1) == i * q + i;
  }

  /** No thread has more than one cell more than another one. */
  lemma EvenShares(n: nat, threads: nat, i: nat)
    requires i < threads
    ensures n / threads <= EndCell(n, threads, i) - StartCell(n, threads, i) + 1 <= n / threads + 1
  {
  }

  predicate Owns(n: nat, threads: nat, i: nat, c: int)
    requires threads > 0
  {
    StartCell(n, threads, i) <= c <= EndCell(n, threads, i)
  }

  lemma {:induction false} StartsBelow(n: nat, threads: nat, i: nat)
    requires i <= threads && 0 < threads
    ensures 0 <= StartCell(n, threads, i)
  {
    if i > 0 {
      StartsBelow(n, threads, i - 1);
      Consecutive(n, threads, i - 1);
    }
  }

  lemma {:induction false} StartsAscend(n: nat, threads: nat, i: nat, j: nat)
    requires i <= j <= threads && 0 < threads
    ensures 0 <= StartCell(n, threads, i) <= StartCell(n, threads, j) <= n
    decreases threads - i
  {
    if i < threads {
      Consecutive(n, threads, i);
      StartsAscend(n, threads, i + 1, if i < j then j else i + 1);
      StartsBelow(n, threads, i);
    } else {
      Consecutive(n, threads, 0);
    }
  }

  /** Every cell has exactly one owner. */
  lemma {:induction false} HasOwner(n: nat, threads: nat, c: nat, from: nat) returns (i: nat)
    requires c < n && from < threads && StartCell(n, threads, from) <= c
    ensures i < threads && Owns(n, threads, i, c)
    decreases threads - from
  {
    Consecutive(n, threads, from);
    if c <= EndCell(n, threads, from) {
      i := from;
    } else {
      i := HasOwner(n, threads, c, from + 1);
    }
  }

  lemma OneOwner(n: nat, threads: nat, i: nat, j: nat, c: int)
    requires i < threads && j < threads && Owns(n, threads, i, c) && Owns(n, threads, j, c)
    ensures i == j
  {
    Consecutive(n, threads, i);
    Consecutive(n, threads, j);
    if i < j {
      StartsAscend(n, threads, i + 1, j);
    } else if j < i {
      StartsAscend(n, threads, j + 1, i);
    }
  }

  // ----- the step system -----

  /** Working: about to look at window cell k of `cell` in this step; with k == 9, about to write it. */
  datatype PC = Working(step: nat, cell: int, k: nat, live: nat) | Waiting(step: nat) | Finished

  /** `boards.0` is *state and `boards.1` is *next_state of the caller; a thread that has swapped its own
      two pointers `step` times reads boards.(step % 2) and writes the other one. */
  datatype State = State(boards: (seq<bool>, seq<bool>), generation: nat, arrived: nat, pcs: seq<PC>)

  datatype Config = Config(z: Size, init: seq<bool>, threads: nat, steps: nat)

  predicate GoodConfig(g: Config) {
    IsBoard(g.z, g.init) && g.threads > 0
  }

  function Board(s: State, parity: nat): seq<bool> {
    if parity % 2 == 0 then s.boards.0 else s.boards.1
  }

  function SetCell(s: State, parity: nat, c: nat, alive: bool): State
    requires c < |s.boards.0| && c < |s.boards.1|
  {
    if parity % 2 == 0 then s.(boards := (s.boards.0[c := alive], s.boards.1))
    else s.(boards := (s.boards.0, s.boards.1[c := alive]))
  }

  function First(g: Config, i: nat): int
    requires GoodConfig(g)
  {
    StartCell(|g.init|, g.threads, i)
  }

  function Last(g: Config, i: nat): int
    requires GoodConfig(g)
  {
    EndCell(|g.init|, g.threads, i)
  }

  function Enter(g: Config, i: nat, step: nat): PC
    requires GoodConfig(g)
  {
    if step < g.steps then Working(step, First(g, i), 0, 0) else Finished
  }

  function Init(g: Config): State
    requires GoodConfig(g)
  {
    State((g.init, g.init), 0, 0, seq(g.threads, i requires 0 <= i => Enter(g, i, 0)))
  }

  predicate Shaped(g: Config, s: State) {
    GoodConfig(g) && |s.pcs| == g.threads && IsBoard(g.z, s.boards.0) && IsBoard(g.z, s.boards.1)
  }

  /** What a program counter may say while the barrier is in this generation. */
  predicate PcOk(g: Config, generation: nat, pc: PC, i: nat)
    requires GoodConfig(g)
  {
    match pc
    case Working(step, cell, k, live) =>
      && step == generation < g.steps && First(g, i) <= cell <= Last(g, i) + 1 <= |g.init| && k <= 9
      && (k == 0 ==> live == 0)
      && (k > 0 ==> cell <= Last(g, i) && Interior(g.z, cell)
                    && live == LiveIn(g.z, Parallel(g.z, g.init, step), cell, k))
    case Waiting(step) => (step == generation < g.steps) || step + 1 == generation <= g.steps
    case Finished => generation == g.steps
  }

  /** A thread that looks at a cell looks inside the board. */
  predicate InBoard(g: Config, pc: PC, i: nat)
    requires GoodConfig(g)
  {
    pc.Working? ==> pc.k <= 9 && 0 <= pc.cell && (pc.cell <= Last(g, i) ==> pc.cell < |g.init|)
  }

  /** May thread i move?  Only a thread at a barrier that has not opened yet may not. */
  predicate CanStep(g: Config, s: State, i: nat) {
    && Shaped(g, s) && i < g.threads && InBoard(g, s.pcs[i], i)
    && s.pcs[i] != Finished && s.pcs[i] != Waiting(s.generation)
  }

  /** pthread_barrier_wait: the last thread to arrive opens the barrier. */
  function Arrive(s: State): State {
    if s.arrived + 1 == |s.pcs| then s.(generation := s.generation + 1, arrived := 0)
    else s.(arrived := s.arrived + 1)
  }

  function Next(g: Config, s: State, i: nat): State
    requires CanStep(g, s, i)
  {
    match s.pcs[i]
    case Working(step, cell, k, live) =>
      if cell > Last(g, i) then Arrive(s.(pcs := s.pcs[i := Waiting(step)]))
      else if !Interior(g.z, cell) then s.(pcs := s.pcs[i := Working(step, cell + 1, 0, 0)])
      else if k < 9 then
        WindowInside(g.z, cell, k);
        var seen := if Board(s, step)[Window(g.z, cell, k)] then 1 else 0;
        s.(pcs := s.pcs[i := Working(step, cell, k + 1, live + seen)])
      else
        var alive := live == 3 || (live == 4 && Board(s, step)[cell]);
        SetCell(s.(pcs := s.pcs[i := Working(step, cell + 1, 0, 0)]), step + 1, cell, alive)
    case Waiting(step) => s.(pcs := s.pcs[i := Enter(g, i, step + 1)])
  }

  // ----- invariant -----

  ghost function Here(s: State): set<nat> {
    set i: nat | i < |s.pcs| && s.pcs[i] == Waiting(s.generation)
  }

  /** This thread has already written cell c of the next generation, or will not write it at all. */
  predicate DoneWith(pc: PC, generation: nat, c: nat) {
    match pc
    case Working(_, cell, _, _) => c < cell
    case Waiting(step) => step == generation
    case Finished => false
  }

  /** The board being written: border as at the start, and every finished cell as it must be. */
  ghost predicate NextOk(g: Config, nxt: seq<bool>, generation: nat, pcs: seq<PC>)
    requires GoodConfig(g) && |pcs| == g.threads && IsBoard(g.z, nxt)
  {
    && (forall c :: 0 <= c < |g.init| && !Interior(g.z, c) ==> nxt[c] == g.init[c])
    && (forall i, c :: 0 <= i < g.threads && 0 <= c < |g.init| && Owns(|g.init|, g.threads, i, c)
                       && DoneWith(pcs[i], generation, c) && Interior(g.z, c) ==>
                       nxt[c] == Lives(g.z, Parallel(g.z, g.init, generation), c))
  }

  /** Everything but the number of threads at the barrier. */
  ghost predicate Consistent(g: Config, s: State) {
    && Shaped(g, s) && s.generation <= g.steps
    && (forall i :: 0 <= i < g.threads ==> PcOk(g, s.generation, s.pcs[i], i))
    && Board(s, s.generation) == Parallel(g.z, g.init, s.generation)
    && NextOk(g, Board(s, s.generation + 1), s.generation, s.pcs)
  }

  ghost predicate Inv(g: Config, s: State) {
    Consistent(g, s) && s.arrived == |Here(s)| < g.threads
  }
}
