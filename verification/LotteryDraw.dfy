/** The draw of the scheduler: who wins which number, and how often over all states of the generator. */
module LotteryDraw {
  import opened LotteryRandom

  datatype State = Unused | Embryo | Sleeping | Runnable | Running | Zombie

  datatype Proc = Proc(state: State, tickets: nat, scheduled: nat)

  function Weight(p: Proc): nat {
    if p.state == Runnable then p.tickets else 0
  }

  /** The tickets of the runnable processes before index k. */
  function Prefix(ps: seq<Proc>, k: nat): nat
    requires k <= |ps|
  {
    if k == 0 then 0 else Prefix(ps, k - 1) + Weight(ps[k - 1])
  }

  function Total(ps: seq<Proc>): nat {
    Prefix(ps, |ps|)
  }

  lemma {:induction false} PrefixGrows(ps: seq<Proc>, j: nat, k: nat)
    requires j <= k <= |ps|
    ensures Prefix(ps, j) <= Prefix(ps, k)
  {
    if j < k { PrefixGrows(ps, j, k - 1); }
  }

  /** Process i holds the numbers from Prefix(i) on, one for each of its tickets. */
  predicate Holds(ps: seq<Proc>, i: nat, d: nat) {
    i < |ps| && Prefix(ps, i) <= d < Prefix(ps, i + 1)
  }

  lemma HoldsOnce(ps: seq<Proc>, i: nat, j: nat, d: nat)
    requires Holds(ps, i, d) && Holds(ps, j, d)
    ensures i == j
  {
    if i < j { PrefixGrows(ps, i + 1, j); }
    if j < i { PrefixGrows(ps, j + 1, i); }
  }

  /** Below the total somebody holds every number; nobody holds the total itself. */
  lemma {:induction false} SomebodyHolds(ps: seq<Proc>, d: nat, k: nat)
    requires k <= |ps|
    ensures d < Prefix(ps, k) <==> exists i: nat :: i < k && Holds(ps, i, d)
  {
    if k > 0 {
      SomebodyHolds(ps, d, k - 1);
      if d < Prefix(ps, k) && d >= Prefix(ps, k - 1) { assert Holds(ps, k - 1, d); }
      if i: nat :| i < k && Holds(ps, i, d) { PrefixGrows(ps, i + 1, k); }
    }
  }

  /** How many of the draws 0 .. n go to process i. */
  function Wins(ps: seq<Proc>, i: nat, n: nat): nat {
    if n == 0 then 0 else Wins(ps, i, n - 1) + if Holds(ps, i, n - 1) then 1 else 0
  }

  lemma {:induction false} WinsUpTo(ps: seq<Proc>, i: nat, n: nat)
    requires i < |ps|
    ensures Wins(ps, i, n) == if n <= Prefix(ps, i) then 0
                              else if n <= Prefix(ps, i + 1) then n - Prefix(ps, i)
                              else Weight(ps[i])
  {
    if n > 0 { WinsUpTo(ps, i, n - 1); }
  }

  /** Of the draws 0 .. Total, a runnable process wins exactly as many as it has tickets; the draw equal to the
      total is won by nobody. */
  lemma FairDraw(ps: seq<Proc>, i: nat)
    requires i < |ps|
    ensures Wins(ps, i, Total(ps) + 1) == if ps[i].state == Runnable then ps[i].tickets else 0
    ensures !Holds(ps, i, Total(ps))
  {
    PrefixGrows(ps, i + 1, |ps|);
    WinsUpTo(ps, i, Total(ps) + 1);
  }

  // ----- over the states of the generator -----

  /** The state x is accepted and its number belongs to process i. */
  predicate Winning(ps: seq<Proc>, i: nat, x: nat)
    requires Total(ps) < 0x8000_0000 && Size(Total(ps)) > 0
  {
    Accepted(Total(ps), x) && Holds(ps, i, x / Size(Total(ps)))
  }

  /** How many of the states 1 .. n - 1 are won by process i. */
  function Share(ps: seq<Proc>, i: nat, n: nat): nat
    requires Total(ps) < 0x8000_0000 && Size(Total(ps)) > 0
  {
    if n == 0 then 0 else Share(ps, i, n - 1) + if n - 1 >= 1 && Winning(ps, i, n - 1) then 1 else 0
  }

  lemma Quotients(x: nat, b: nat, lo: nat, hi: nat)
    requires b > 0
    ensures lo <= x / b < hi <==> lo * b <= x < hi * b
  {
    var q := x / b;
    Quotient(x, b, q);
    LessMul(q, lo, b);
    LessMul(q, hi, b);
    MulMono(lo, if lo <= q then q else lo, b);
    MulMono(hi, if hi <= q then q else hi, b);
  }

  /** The states won by process i lie side by side. */
  lemma StatesOf(ps: seq<Proc>, i: nat, x: nat)
    requires i < |ps| && Total(ps) < 0x8000_0000
    ensures Size(Total(ps)) > 0
    ensures Winning(ps, i, x) <==> Prefix(ps, i) * Size(Total(ps)) <= x < Prefix(ps, i + 1) * Size(Total(ps))
  {
    var t := Total(ps);
    Bins(t, x);
    PrefixGrows(ps, i + 1, |ps|);
    PrefixGrows(ps, i, i + 1);
    hide Accepted, Size, Prefix;
    Quotients(x, Size(t), Prefix(ps, i), Prefix(ps, i + 1));
  }

  function Between(lo: nat, hi: nat, n: nat): nat {
    if n <= lo then 0 else if n <= hi then n - lo else if lo <= hi then hi - lo else 0
  }

  lemma {:induction false} ShareUpTo(ps: seq<Proc>, i: nat, n: nat)
    requires i < |ps| && Total(ps) < 0x8000_0000 && Size(Total(ps)) > 0
    ensures var b := Size(Total(ps)); var lo, hi := Prefix(ps, i) * b, Prefix(ps, i + 1) * b;
      Share(ps, i, n) == Between(if lo == 0 then 1 else lo, hi, n)
  {
    var b := Size(Total(ps));
    PrefixGrows(ps, i, i + 1);
    MulMono(Prefix(ps, i), Prefix(ps, i + 1), b);
    if n > 0 {
      ShareUpTo(ps, i, n - 1);
      StatesOf(ps, i, n - 1);
      hide Size, Winning, Prefix;
    }
  }

  lemma BinsInPeriod(lo: nat, w: nat, t: nat, b: nat)
    requires b >= 1 && lo + w <= t && b * (t + 1) <= 0x8000_0000
    ensures Between(if lo * b == 0 then 1 else lo * b, (lo + w) * b, N) == w * b - if lo == 0 && w > 0 then 1 else 0
  {
    var x, y, z := lo * b, w * b, t * b;
    assert (lo + w) * b == x + y;
    assert b * (t + 1) == z + b;
    MulMono(lo + w, t, b);
    MulMono(1, if lo > 0 then lo else 1, b);
    MulMono(1, if w > 0 then w else 1, b);
    assert lo == 0 ==> x == 0;
    assert w == 0 ==> y == 0;
  }

  /** Over the states 1 .. N - 1 a process is chosen once for every raw value in its bins: tickets times the bin
      size.  Only the holder of number 0 gets one state less, for the generator never produces 0. */
  lemma FairShare(ps: seq<Proc>, i: nat)
    requires i < |ps| && Total(ps) < 0x8000_0000
    ensures Size(Total(ps)) > 0
    ensures Share(ps, i, N) == (if ps[i].state == Runnable then ps[i].tickets else 0) * Size(Total(ps))
              - if Holds(ps, i, 0) then 1 else 0
  {
    Divide(Total(ps));
    ShareUpTo(ps, i, N);
    PrefixGrows(ps, i + 1, |ps|);
    hide Size, Share, Accepted;
    BinsInPeriod(Prefix(ps, i), Weight(ps[i]), Total(ps), Size(Total(ps)));
  }

  // ----- the code -----

  class Scheduler {
    var table: seq<Proc>
    var random: Generator

    constructor (table: seq<Proc>)
      ensures this.table == table && fresh(random) && random.seed == 1
    {
      this.table := table;
      random := new Generator();
    }

    /** The loop that adds up the tickets. */
    method Count() returns (total: nat)
      ensures total == Total(table)
    {
      total := 0;
      var k := 0;
      while k < |table|
        invariant k <= |table| && total == Prefix(table, k)
      {
        if table[k].state == Runnable { total := total + table[k].tickets; }
        k := k + 1;
      }
    }

    /** The loop that takes tickets off the number until it turns negative as an int; |table| for nobody.  The
        winner runs. */
    method Draw(d: nat) returns (i: nat)
      requires d <= Total(table) < 0x8000_0000
      modifies this`table
      ensures i < |table| <==> d < Total(old(table))
      ensures i < |old(table)| ==> Holds(old(table), i, d)
      ensures i < |old(table)| ==> old(table)[i].state == Runnable && old(table)[i].tickets > 0
      ensures i < |old(table)| ==>
                table == old(table)[i := old(table)[i].(state := Running, scheduled := old(table)[i].scheduled + 1)]
      ensures i >= |old(table)| ==> table == old(table)
    {
      var randomNum := d;
      i := 0;
      while i < |table|
        invariant i <= |table| && table == old(table) && Prefix(table, i) <= d && randomNum == d - Prefix(table, i)
      {
        PrefixGrows(table, i + 1, |table|);
        if table[i].state == Runnable {
          randomNum := (randomNum - table[i].tickets) % UINT;
          if randomNum >= 0x8000_0000 {  // (int)random_num < 0
            var p := table[i];
            table := table[i := p.(state := Running, scheduled := p.scheduled + 1)];
            return;
          }
        }
        i := i + 1;
      }
    }

    /** One turn of the scheduler's loop. */
    method Schedule() returns (i: nat)
      requires Total(table) < 0x8000_0000 && 1 <= random.seed < N
      modifies this`table, random
      ensures 1 <= random.seed < N && random == old(random) && |table| == |old(table)|
      ensures exists n: nat :: n <= HALF + 1 && random.seed == Iter(old(random.seed), n)
                               && FirstAccepted(Total(old(table)), old(random.seed), n)
      ensures Size(Total(old(table))) > 0
      ensures forall j: nat :: j < |old(table)| ==> (i == j <==> Winning(old(table), j, random.seed))
      ensures i < |old(table)| ==> old(table)[i].state == Runnable && old(table)[i].tickets > 0
      ensures i < |old(table)| ==>
                table == old(table)[i := old(table)[i].(state := Running, scheduled := old(table)[i].scheduled + 1)]
      ensures i >= |old(table)| ==> table == old(table)
    {
      hide Iter, Accepted, Size;
      ghost var ps := table;
      var total := Count();
      var d;
      ghost var turns;
      d, turns := random.RandomAtMost(total);
      Bins(total, random.seed);
      i := Draw(d);
      forall j: nat | j < |ps|
        ensures i == j <==> Winning(ps, j, random.seed)
      {
        if Holds(ps, j, d) {
          PrefixGrows(ps, j + 1, |ps|);
          HoldsOnce(ps, i, j, d);
        }
      }
    }
  }
}
