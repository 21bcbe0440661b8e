/** How many blocks a write needs: the count behind the panic of balloc. */
module FsSpace {
  import opened Blocks
  import opened Octets
  import opened FsSpec

  ghost function FreeBlocks(bitmap: seq<bool>): set<nat> {
    set b: nat | b < |bitmap| && !bitmap[b]
  }

  /** The pointer slots of file i with no block attached. */
  ghost function Empty(s: Fs, i: nat): set<nat>
    requires Sized(s)
  {
    set slot: nat | slot < SLOTS && At(s, Place(i, slot)) == 0
  }

  /** The slots that bmap fills for the file blocks lo .. hi-1: their own, and the indirect block's. */
  function SlotsOf(lo: nat, hi: nat): (r: set<nat>)
    ensures forall slot: nat :: slot in r <==>
              (slot < NDIRECT && lo <= slot < hi) || (slot == NDIRECT && lo < hi && NDIRECT < hi)
                  || (slot > NDIRECT && lo < slot <= hi)
  {
    if hi <= lo then {}
    else SlotsOf(lo, hi - 1) + {DataSlot(hi - 1)} + if hi > NDIRECT then {NDIRECT} else {}
  }

  /** The slots that a write of n bytes at off uses. */
  function SlotsFor(off: nat, n: nat): set<nat> {
    if n == 0 then {} else SlotsOf(off / BSIZE, (off + n - 1) / BSIZE + 1)
  }

  /** The blocks that must be allocated before these slots are all attached. */
  ghost function Need(s: Fs, i: nat, slots: set<nat>): nat
    requires Sized(s)
  {
    |Empty(s, i) * slots|
  }

  /** Every one of these slots of file i is attached now, each empty one at the price of one free block. */
  ghost predicate Filled(s: Fs, s': Fs, i: nat, slots: set<nat>) {
    && Sized(s) && Sized(s')
    && Empty(s', i) == Empty(s, i) - slots
    && |FreeBlocks(s'.bitmap)| + Need(s, i, slots) == |FreeBlocks(s.bitmap)|
  }

  lemma TakeFree(bitmap: seq<bool>, a: nat)
    requires a < |bitmap| && !bitmap[a]
    ensures |FreeBlocks(bitmap[a := true])| == |FreeBlocks(bitmap)| - 1
  {
    assert FreeBlocks(bitmap[a := true]) == FreeBlocks(bitmap) - {a};
  }

  lemma NoneFree(bitmap: seq<bool>)
    requires forall b :: 0 <= b < |bitmap| ==> bitmap[b]
    ensures |FreeBlocks(bitmap)| == 0
  {
    assert FreeBlocks(bitmap) == {};
  }

  lemma FilledNone(s: Fs, i: nat)
    requires Sized(s)
    ensures Filled(s, s, i, {})
  {
    assert Empty(s, i) * {} == {};
  }

  /** A slot that was attached before costs nothing. */
  lemma FilledAlready(s: Fs, i: nat, slot: nat)
    requires Sized(s)
    ensures At(s, Place(i, slot)) != 0 ==> Filled(s, s, i, {slot}) && Need(s, i, {slot}) == 0
  {
    if At(s, Place(i, slot)) != 0 {
      assert Empty(s, i) * {slot} == {};
    }
  }

  lemma NeedOne(s: Fs, i: nat, slot: nat)
    requires Sized(s) && slot < SLOTS && At(s, Place(i, slot)) == 0
    ensures Need(s, i, {slot}) == 1
  {
    assert Empty(s, i) * {slot} == {slot};
  }

  lemma FilledOne(s: Fs, s': Fs, i: nat, slot: nat)
    requires Sized(s) && Sized(s') && slot < SLOTS && At(s, Place(i, slot)) == 0 && At(s', Place(i, slot)) != 0
    requires forall q: Place :: q.slot < SLOTS && q != Place(i, slot) ==> At(s', q) == At(s, q)
    requires |FreeBlocks(s'.bitmap)| == |FreeBlocks(s.bitmap)| - 1
    ensures Filled(s, s', i, {slot})
  {
    NeedOne(s, i, slot);
  }

  lemma NeedMore(s: Fs, s1: Fs, i: nat, a: set<nat>, b: set<nat>)
    requires Filled(s, s1, i, a)
    ensures Need(s, i, a + b) == Need(s, i, a) + Need(s1, i, b)
  {
    var e := Empty(s, i);
    assert e * (a + b) == e * a + (e - a) * b;
  }

  /** Costs add up, also when the two parts share slots. */
  lemma FilledTwice(s: Fs, s1: Fs, s2: Fs, i: nat, a: set<nat>, b: set<nat>)
    requires Filled(s, s1, i, a) && Filled(s1, s2, i, b)
    ensures Filled(s, s2, i, a + b)
  {
    NeedMore(s, s1, i, a, b);
  }

  /** Running out half-way means that there was too little at the start. */
  lemma ShortBefore(s: Fs, s1: Fs, i: nat, a: set<nat>, b: set<nat>, all: set<nat>)
    requires Filled(s, s1, i, a) && |FreeBlocks(s1.bitmap)| < Need(s1, i, b) && a + b <= all
    ensures |FreeBlocks(s.bitmap)| < Need(s, i, all)
  {
    NeedMore(s, s1, i, a, b);
    var e := Empty(s, i);
    assert e * all == e * (a + b) + e * (all - (a + b));
  }

  lemma FilledEnough(s: Fs, s': Fs, i: nat, slots: set<nat>)
    requires Filled(s, s', i, slots)
    ensures Need(s, i, slots) <= |FreeBlocks(s.bitmap)|
  {
  }

  /** Data, sizes and other files make no difference. */
  lemma SameSlots(s: Fs, s1: Fs, s2: Fs, i: nat, slots: set<nat>)
    requires Filled(s, s1, i, slots) && Sized(s2) && s2.bitmap == s1.bitmap && forall q: Place :: At(s2, q) == At(s1, q)
    ensures Filled(s, s2, i, slots)
  {
    assert Empty(s2, i) == Empty(s1, i);
  }

  lemma NextBlock(lo: nat, bn: nat)
    requires lo <= bn
    ensures SlotsOf(lo, bn + 1) == SlotsOf(lo, bn) + SlotsOf(bn, bn + 1)
    ensures SlotsOf(lo, lo) == {}
  {
  }

  lemma OneBlock(bn: nat)
    ensures SlotsOf(bn, bn + 1) == if bn < NDIRECT then {bn} else {NDIRECT} + {bn + 1}
  {
  }

  /** bmap of a block behind the indirect block: the indirect block first, then the entry. */
  lemma FilledIndirect(s: Fs, s1: Fs, s2: Fs, i: nat, bn: nat)
    requires bn >= NDIRECT && Filled(s, s1, i, {NDIRECT}) && Filled(s1, s2, i, {bn + 1})
    ensures Filled(s, s2, i, SlotsOf(bn, bn + 1)) && Need(s, i, SlotsOf(bn, bn + 1)) <= |FreeBlocks(s.bitmap)|
  {
    OneBlock(bn);
    FilledTwice(s, s1, s2, i, {NDIRECT}, {bn + 1});
  }

  lemma ShortIndirect(s: Fs, s1: Fs, i: nat, bn: nat)
    requires Sized(s) && bn >= NDIRECT
    requires |FreeBlocks(s.bitmap)| < Need(s, i, {NDIRECT})
        || (Filled(s, s1, i, {NDIRECT}) && |FreeBlocks(s1.bitmap)| < Need(s1, i, {bn + 1}))
    ensures |FreeBlocks(s.bitmap)| < Need(s, i, SlotsOf(bn, bn + 1))
  {
    OneBlock(bn);
    if |FreeBlocks(s.bitmap)| < Need(s, i, {NDIRECT}) {
      FilledNone(s, i);
      ShortBefore(s, s, i, {}, {NDIRECT}, SlotsOf(bn, bn + 1));
    } else {
      ShortBefore(s, s1, i, {NDIRECT}, {bn + 1}, SlotsOf(bn, bn + 1));
    }
  }

  lemma SlotsGrow(lo: nat, mid: nat, hi: nat)
    requires mid <= hi
    ensures SlotsOf(lo, mid) <= SlotsOf(lo, hi)
  {
  }

  lemma Borders(off: nat, a: nat, b: nat)
    requires a > 0 && b > 0
    ensures off / BSIZE <= (off + a - 1) / BSIZE <= (off + a) / BSIZE <= (off + a - 1) / BSIZE + 1
    ensures (off + a) / BSIZE <= (off + a + b - 1) / BSIZE
  {
  }

  /** Two writes one behind the other use the slots of one write. */
  lemma SlotsJoin(off: nat, a: nat, b: nat)
    ensures SlotsFor(off, a + b) == SlotsFor(off, a) + SlotsFor(off + a, b)
  {
    if a > 0 && b > 0 {
      Borders(off, a, b);
    }
  }

  lemma SlotsMore(off: nat, a: nat, b: nat)
    requires a <= b
    ensures SlotsFor(off, a) <= SlotsFor(off, b)
  {
    SlotsJoin(off, a, b - a);
  }
}
