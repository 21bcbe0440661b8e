/** The Game of Life of life/: the rule for one cell, and the serial program. */
module LifeRules {
  datatype Size = Size(w: nat, h: nat)

  predicate IsBoard(z: Size, b: seq<bool>) {
    z.w > 0 && z.h > 0 && |b| == z.w * z.h
  }

  predicate Interior(z: Size, c: nat)
    requires z.w > 0
  {
    var x, y := c % z.w, c / z.w;
    0 < x < z.w - 1 && 0 < y < z.h - 1
  }

  /** The k-th cell of the 3x3 window around c, row by row. */
  function Window(z: Size, c: nat, k: nat): int {
    c + (k / 3 - 1) * z.w + k % 3 - 1
  }

  lemma RowsBefore(a: nat, b: nat, w: nat)
    requires a <= b
    ensures a * w <= b * w && (a + 1) * w == a * w + w
  {
    assert b * w == a * w + (b - a) * w;
  }

  lemma WindowRow(w: nat, k: nat)
    requires k < 9
    ensures (k / 3 - 1) * w == 0 - w || (k / 3 - 1) * w == 0 || (k / 3 - 1) * w == w
  {
    if k / 3 == 0 {
    } else if k / 3 == 1 {
    } else {
      assert k / 3 == 2;
    }
  }

  lemma WindowInside(z: Size, c: nat, k: nat)
    requires z.w > 0 && z.h > 0 && c < z.w * z.h && Interior(z, c) && k < 9
    ensures 0 <= Window(z, c, k) < z.w * z.h
  {
    var x, y := c % z.w, c / z.w;
    RowsBefore(1, y, z.w);
    RowsBefore(y + 2, z.h, z.w);
    RowsBefore(y, y + 1, z.w);
    RowsBefore(y + 1, y + 2, z.w);
    WindowRow(z.w, k);
  }

  /** Live cells among the first k of the window. */
  function LiveIn(z: Size, b: seq<bool>, c: nat, k: nat): nat
    requires IsBoard(z, b) && c < |b| && Interior(z, c) && k <= 9
  {
    if k == 0 then 0
    else
      WindowInside(z, c, k - 1);
      LiveIn(z, b, c, k - 1) + if b[Window(z, c, k - 1)] then 1 else 0
  }

  /** Three live cells in the window, or four of which the middle is one. */
  predicate Lives(z: Size, b: seq<bool>, c: nat)
    requires IsBoard(z, b) && c < |b| && Interior(z, c)
  {
    var live := LiveIn(z, b, c, 9);
    live == 3 || (live == 4 && b[c])
  }

  /** One generation of the interior, with the border taken from another board. */
  function Step(z: Size, b: seq<bool>, border: seq<bool>): (b': seq<bool>)
    requires IsBoard(z, b) && IsBoard(z, border)
    ensures IsBoard(z, b')
  {
    seq(|b|, c requires 0 <= c < |b| => if Interior(z, c) then Lives(z, b, c) else border[c])
  }

  predicate DeadBorder(z: Size, b: seq<bool>)
    requires IsBoard(z, b)
  {
    forall c :: 0 <= c < |b| && !Interior(z, c) ==> !b[c]
  }

  // ----- the serial program -----

  /** The two boards after k swaps: the current one and the one the next generation goes to. */
  function Serial(z: Size, b: seq<bool>, k: nat): (r: (seq<bool>, seq<bool>))
    requires IsBoard(z, b)
    ensures IsBoard(z, r.0) && IsBoard(z, r.1)
  {
    if k == 0 then (b, seq(|b|, i => false))
    else
      var (cur, nxt) := Serial(z, b, k - 1);
      (Step(z, cur, nxt), cur)
  }

  /** The interior cells before (x, y) in scan order have their next value, all others the old one. */
  ghost predicate RowsDone(z: Size, cur: seq<bool>, was: seq<bool>, nxt: seq<bool>, y: nat, x: nat) {
    && IsBoard(z, cur) && IsBoard(z, was) && IsBoard(z, nxt)
    && forall c :: 0 <= c < |nxt| ==>
         nxt[c] == if Interior(z, c) && (c / z.w < y || (c / z.w == y && c % z.w < x)) then Lives(z, cur, c) else was[c]
  }

  lemma DivMod(x: nat, y: nat, w: nat)
    requires x < w
    ensures (y * w + x) % w == x && (y * w + x) / w == y
  {
    var c := y * w + x;
    assert c == c / w * w + c % w;
    if c / w < y {
      RowsBefore(c / w + 1, y, w);
    } else if c / w > y {
      RowsBefore(y + 1, c / w, w);
    }
  }

  lemma CellAt(z: Size, x: nat, y: nat)
    requires 0 < x < z.w - 1 && 0 < y < z.h - 1
    ensures y * z.w + x < z.w * z.h && (y * z.w + x) % z.w == x && (y * z.w + x) / z.w == y
    ensures Interior(z, y * z.w + x)
  {
    RowsBefore(y, y + 1, z.w);
    RowsBefore(y + 1, z.h, z.w);
    DivMod(x, y, z.w);
  }

  method CountWindow(z: Size, b: seq<bool>, c: nat) returns (live: nat)
    requires IsBoard(z, b) && c < |b| && Interior(z, c)
    ensures live == LiveIn(z, b, c, 9)
  {
    live := 0;
    for yOffset := 0 to 3
      invariant live == LiveIn(z, b, c, 3 * yOffset)
    {
      for xOffset := 0 to 3
        invariant live == LiveIn(z, b, c, 3 * yOffset + xOffset)
      {
        WindowInside(z, c, 3 * yOffset + xOffset);
        if b[c + (yOffset - 1) * z.w + xOffset - 1] {
          live := live + 1;
        }
      }
    }
  }

  lemma CellDone(z: Size, cur: seq<bool>, was: seq<bool>, nxt: seq<bool>, y: nat, x: nat)
    requires RowsDone(z, cur, was, nxt, y, x) && 0 < x < z.w - 1 && 0 < y < z.h - 1
    ensures y * z.w + x < |nxt| && Interior(z, y * z.w + x)
    ensures RowsDone(z, cur, was, nxt[y * z.w + x := Lives(z, cur, y * z.w + x)], y, x + 1)
  {
    CellAt(z, x, y);
    var c0 := y * z.w + x;
    forall c | 0 <= c < |nxt| && c / z.w == y && c % z.w == x
      ensures c == c0
    {
      assert c == c / z.w * z.w + c % z.w;
    }
  }

  /** 1 for a live cell in column x and row y. */
  function Alive(z: Size, b: seq<bool>, x: int, y: int): nat
    requires IsBoard(z, b) && 0 <= y * z.w + x < |b|
  {
    if b[y * z.w + x] then 1 else 0
  }

  lemma AroundInside(z: Size, x: nat, y: nat)
    requires 0 < x < z.w - 1 && 0 < y < z.h - 1
    ensures 0 <= (y - 1) * z.w + x - 1 && (y + 1) * z.w + x + 1 < z.w * z.h
    ensures (y - 1) * z.w == y * z.w - z.w && (y + 1) * z.w == y * z.w + z.w
  {
    RowsBefore(1, y, z.w);
    RowsBefore(y - 1, y, z.w);
    RowsBefore(y, y + 1, z.w);
    RowsBefore(y + 2, z.h, z.w);
    RowsBefore(y + 1, y + 2, z.w);
  }

  /** The live cells among the eight neighbours. */
  function Neighbours(z: Size, b: seq<bool>, x: nat, y: nat): nat
    requires IsBoard(z, b) && 0 < x < z.w - 1 && 0 < y < z.h - 1
  {
    AroundInside(z, x, y);
    Alive(z, b, x - 1, y - 1) + Alive(z, b, x, y - 1) + Alive(z, b, x + 1, y - 1)
    + Alive(z, b, x - 1, y) + Alive(z, b, x + 1, y)
    + Alive(z, b, x - 1, y + 1) + Alive(z, b, x, y + 1) + Alive(z, b, x + 1, y + 1)
  }

  lemma WindowAt(z: Size, c: nat, x: nat, y: nat, r: nat, q: nat)
    requires c == y * z.w + x && r < 3 && q < 3 && (y + r - 1) * z.w == y * z.w + (r - 1) * z.w
    ensures Window(z, c, 3 * r + q) == (y + r - 1) * z.w + (x + q - 1)
  {
    assert (3 * r + q) / 3 == r && (3 * r + q) % 3 == q;
  }

  /** One row of the window. */
  lemma RowIs(z: Size, b: seq<bool>, c: nat, x: nat, y: nat, r: nat)
    requires IsBoard(z, b) && c < |b| && Interior(z, c) && c == y * z.w + x && r < 3
    requires 0 < x < z.w - 1 && 0 < y < z.h - 1
    ensures 0 <= (y + r - 1) * z.w + x - 1 && (y + r - 1) * z.w + x + 1 < |b|
    ensures LiveIn(z, b, c, 3 * r + 3) == LiveIn(z, b, c, 3 * r) + Alive(z, b, x - 1, y + r - 1)
                                          + Alive(z, b, x, y + r - 1) + Alive(z, b, x + 1, y + r - 1)
  {
    AroundInside(z, x, y);
    hide Interior;
    assert (y + r - 1) * z.w == y * z.w + (r - 1) * z.w by {
      if r == 0 {} else if r == 1 {} else { assert r == 2; }
    }
    WindowAt(z, c, x, y, r, 0);
    WindowAt(z, c, x, y, r, 1);
    WindowAt(z, c, x, y, r, 2);
    hide Window;
    var k := 3 * r;
    assert LiveIn(z, b, c, k + 1) == LiveIn(z, b, c, k) + Alive(z, b, x - 1, y + r - 1);
    assert LiveIn(z, b, c, k + 2) == LiveIn(z, b, c, k + 1) + Alive(z, b, x, y + r - 1);
    assert LiveIn(z, b, c, k + 3) == LiveIn(z, b, c, k + 2) + Alive(z, b, x + 1, y + r - 1);
  }

  lemma WindowIs(z: Size, b: seq<bool>, x: nat, y: nat)
    requires IsBoard(z, b) && 0 < x < z.w - 1 && 0 < y < z.h - 1
    ensures var c := y * z.w + x;
      c < |b| && Interior(z, c) && LiveIn(z, b, c, 9) == Neighbours(z, b, x, y) + if b[c] then 1 else 0
  {
    CellAt(z, x, y);
    var c := y * z.w + x;
    RowIs(z, b, c, x, y, 0);
    RowIs(z, b, c, x, y, 1);
    RowIs(z, b, c, x, y, 2);
    assert LiveIn(z, b, c, 0) == 0;
    hide Interior, LiveIn, Window;
  }

  /** One generation in columns and rows: away from the border a cell lives on with two or three live neighbours, and
      comes to life with three. */
  lemma StepAt(z: Size, b: seq<bool>, border: seq<bool>, x: nat, y: nat)
    requires IsBoard(z, b) && IsBoard(z, border) && x < z.w && y < z.h
    ensures 0 <= y * z.w + x < |b|
    ensures Step(z, b, border)[y * z.w + x] ==
            if 0 < x < z.w - 1 && 0 < y < z.h - 1 then
              Neighbours(z, b, x, y) == 3 || (b[y * z.w + x] && Neighbours(z, b, x, y) == 2)
            else border[y * z.w + x]
  {
    RowsBefore(y, y + 1, z.w);
    RowsBefore(y + 1, z.h, z.w);
    DivMod(x, y, z.w);
    if 0 < x < z.w - 1 && 0 < y < z.h - 1 { WindowIs(z, b, x, y); }
  }

  method SimulateLifeSerial(z: Size, state: seq<bool>, steps: nat) returns (state': seq<bool>)
    requires IsBoard(z, state)
    ensures state' == Serial(z, state, steps).0
  {
    state' := state;
    var nextState := seq(|state|, i => false);
    for step := 0 to steps
      invariant (state', nextState) == Serial(z, state, step)
    {
      var next0 := nextState;
      var y := 1;
      while y < z.h - 1
        invariant RowsDone(z, state', next0, nextState, y, 1)
      {
        var x := 1;
        while x < z.w - 1
          invariant x >= 1 && RowsDone(z, state', next0, nextState, y, x)
        {
          CellAt(z, x, y);
          var c := y * z.w + x;
          var liveInWindow := CountWindow(z, state', c);
          CellDone(z, state', next0, nextState, y, x);
          nextState := nextState[c := liveInWindow == 3 || (liveInWindow == 4 && state'[c])];
          x := x + 1;
        }
        y := y + 1;
      }
      assert nextState == Step(z, state', next0);
      state', nextState := nextState, state';
    }
  }

  // ----- the board that the parallel program works towards -----

  /** Both boards of the parallel program start as copies, so the border never changes. */
  function Parallel(z: Size, b: seq<bool>, k: nat): (r: seq<bool>)
    requires IsBoard(z, b)
    ensures IsBoard(z, r)
    ensures forall c :: 0 <= c < |b| && !Interior(z, c) ==> r[c] == b[c]
  {
    if k == 0 then b else var p := Parallel(z, b, k - 1); Step(z, p, p)
  }

  lemma {:induction false} SerialBorder(z: Size, b: seq<bool>, k: nat)
    requires IsBoard(z, b)
    ensures forall c :: 0 <= c < |b| && !Interior(z, c) ==>
              Serial(z, b, k).0[c] == (if k % 2 == 0 then b[c] else false) &&
              Serial(z, b, k).1[c] == (if k % 2 == 0 then false else b[c])
  {
    if k > 0 {
      SerialBorder(z, b, k - 1);
    }
  }

  /** With a dead border both programs compute the same board. */
  lemma {:induction false} DeadBorderAgrees(z: Size, b: seq<bool>, k: nat)
    requires IsBoard(z, b) && DeadBorder(z, b)
    ensures Serial(z, b, k).0 == Parallel(z, b, k)
  {
    if k > 0 {
      DeadBorderAgrees(z, b, k - 1);
      SerialBorder(z, b, k - 1);
      var (cur, nxt) := Serial(z, b, k - 1);
      assert Step(z, cur, nxt) == Step(z, cur, cur);
    }
  }

  /** After an odd number of steps they agree only then: the serial border has been cleared. */
  lemma OddStepsAgree(z: Size, b: seq<bool>, k: nat)
    requires IsBoard(z, b) && k % 2 == 1
    ensures Serial(z, b, k).0 == Parallel(z, b, k) <==> DeadBorder(z, b)
  {
    if DeadBorder(z, b) {
      DeadBorderAgrees(z, b, k);
    } else {
      var c :| 0 <= c < |b| && !Interior(z, c) && b[c];
      SerialBorder(z, b, k);
      assert Serial(z, b, k).0[c] != Parallel(z, b, k)[c];
    }
  }
}
