/** The circular doubly linked list of bio.c, as the values of its next and prev pointers.  Buffers are numbers
    0 .. NBUF, and NBUF itself is bcache.head. */
module BioList {
  import opened Collections

  const NBUF: nat := 30
  const HEAD: nat := NBUF

  /** The list as a sequence of buffers from head.next on; position 0 and the one after the last are head. */
  function At(order: seq<nat>, k: nat): nat {
    if 1 <= k <= |order| then order[k - 1] else HEAD
  }

  predicate LinkedAt(next: seq<nat>, prev: seq<nat>, order: seq<nat>, k: nat)
    requires |next| == |prev| == NBUF + 1
  {
    && At(order, k) <= NBUF && At(order, k + 1) <= NBUF
    && next[At(order, k)] == At(order, k + 1) && prev[At(order, k + 1)] == At(order, k)
  }

  ghost predicate Linked(next: seq<nat>, prev: seq<nat>, order: seq<nat>) {
    && |next| == |prev| == NBUF + 1
    && NoDup(order) && (forall k :: 0 <= k < |order| ==> order[k] < NBUF)
    && forall k: nat :: k <= |order| ==> LinkedAt(next, prev, order, k)
  }

  function Without(order: seq<nat>, p: nat): seq<nat>
    requires p < |order|
  {
    order[..p] + order[p + 1..]
  }

  lemma WithoutAt(order: seq<nat>, p: nat, k: nat)
    requires p < |order|
    ensures At(Without(order, p), k) == if k <= p then At(order, k) else if k < |order| then At(order, k + 1) else HEAD
  {
  }

  lemma Neighbours(next: seq<nat>, prev: seq<nat>, order: seq<nat>, p: nat)
    requires Linked(next, prev, order) && p < |order|
    ensures next[order[p]] == At(order, p + 2) <= NBUF && prev[order[p]] == At(order, p) <= NBUF
  {
    assert LinkedAt(next, prev, order, p) && LinkedAt(next, prev, order, p + 1);
    assert At(order, p + 1) == order[p];
  }

  lemma Apart(next: seq<nat>, prev: seq<nat>, order: seq<nat>, j: nat, k: nat)
    requires Linked(next, prev, order) && j <= |order| && k <= |order| && j != k
    ensures At(order, j) != At(order, k)
  {
  }

  lemma EndsApart(next: seq<nat>, prev: seq<nat>, order: seq<nat>, j: nat, p: nat)
    requires Linked(next, prev, order) && j <= |order| && p < |order| && j != p && j != p + 1
    ensures At(order, j + 1) != At(order, p + 2)
  {
  }

  /** The two pointer writes that make the neighbours of a buffer point at each other take just that buffer out. */
  lemma Unlink(next: seq<nat>, prev: seq<nat>, order: seq<nat>, p: nat, next': seq<nat>, prev': seq<nat>)
    requires Linked(next, prev, order) && p < |order|
    requires next[order[p]] <= NBUF && prev[order[p]] <= NBUF
    requires prev' == prev[next[order[p]] := prev[order[p]]] && next' == next[prev[order[p]] := next[order[p]]]
    ensures Linked(next', prev', Without(order, p))
  {
    Neighbours(next, prev, order, p);
    var q := Without(order, p);
    forall k: nat | k <= |q|
      ensures LinkedAt(next', prev', q, k)
    {
      WithoutAt(order, p, k);
      WithoutAt(order, p, k + 1);
      var j := if k <= p then k else k + 1;
      assert LinkedAt(next, prev, order, j);
      if k != p {
        Apart(next, prev, order, j, p);
        EndsApart(next, prev, order, j, p);
      }
    }
  }

  lemma LaterApart(next: seq<nat>, prev: seq<nat>, order: seq<nat>, k: nat)
    requires Linked(next, prev, order) && 2 <= k <= |order| + 1
    ensures At(order, k) != At(order, 1) && At(order, k - 1) != HEAD
  {
  }

  /** The four pointer writes that hang a buffer between head and its successor put it first. */
  lemma LinkFirst(next: seq<nat>, prev: seq<nat>, order: seq<nat>, b: nat, next': seq<nat>, prev': seq<nat>)
    requires Linked(next, prev, order) && b < NBUF && b !in order
    requires next[HEAD] <= NBUF && next' == next[b := next[HEAD]][HEAD := b]
        && prev' == prev[b := HEAD][next[HEAD] := b]
    ensures Linked(next', prev', [b] + order)
  {
    assert LinkedAt(next, prev, order, 0);
    var q := [b] + order;
    assert At(order, 1) != b by { assert |order| > 0 ==> order[0] != b; }
    forall k: nat | k <= |q|
      ensures LinkedAt(next', prev', q, k)
    {
      if k >= 1 {
        assert LinkedAt(next, prev, order, k - 1);
        assert At(q, k + 1) == At(order, k);
        if k >= 2 {
          assert At(q, k) == At(order, k - 1) == order[k - 2];
          LaterApart(next, prev, order, k);
          assert order[k - 2] != b;
          assert At(order, k) != b by { assert k <= |order| ==> order[k - 1] != b; }
        }
      }
    }
  }

  lemma EmptyLinked(next: seq<nat>, prev: seq<nat>)
    requires |next| == |prev| == NBUF + 1 && next[HEAD] == HEAD && prev[HEAD] == HEAD
    ensures Linked(next, prev, [])
  {
    forall k: nat | k <= 0
      ensures LinkedAt(next, prev, [], k)
    {
    }
  }
}
