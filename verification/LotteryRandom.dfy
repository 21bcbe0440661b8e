/** The random numbers of the lottery scheduler: the Park-Miller generator in 32-bit arithmetic, and the
    rejection of raw values that fall into no whole bin. */
module LotteryRandom {
  const N: nat := 0x7fff_ffff
  const G: nat := 48271
  const UINT: nat := 0x1_0000_0000

  // ----- multiplication modulo N -----

  function Mul(a: nat, b: nat): nat {
    a * b % N
  }

  lemma AddMultiple(k: int, r: int)
    ensures (N * k + r) % N == r % N
  {
  }

  lemma Distribute(q: nat, r: nat, b: nat)
    ensures (N * q + r) * b == N * (q * b) + r * b
  {
  }

  lemma ModLeft(a: nat, b: nat)
    ensures Mul(a % N, b) == Mul(a, b)
  {
    var q, r := a / N, a % N;
    assert a == N * q + r;
    Distribute(q, r, b);
    AddMultiple(q * b, r * b);
  }

  lemma MulSwap(a: nat, b: nat)
    ensures Mul(a, b) == Mul(b, a)
  {
    assert a * b == b * a;
  }

  lemma Associate(a: nat, b: nat, c: nat)
    ensures a * b * c == a * (b * c)
  {
  }

  lemma MulAssoc(a: nat, b: nat, c: nat)
    ensures Mul(Mul(a, b), c) == Mul(a, Mul(b, c))
  {
    ModLeft(a * b, c);
    ModLeft(b * c, a);
    MulSwap(a, Mul(b, c));
    MulSwap(b * c, a);
    Associate(a, b, c);
  }

  lemma MulOne(a: nat)
    requires a < N
    ensures Mul(a, 1) == a && Mul(a, 0) == 0 == Mul(0, a)
  {
  }

  lemma MulBelow(a: nat, b: nat)
    ensures Mul(a, b) < N
  {
  }

  /** The step that the generator is meant to take. */
  function Step(s: nat): nat {
    Mul(s, G)
  }

  const INVERSE: nat := 1899818559  // of G modulo N

  function Back(s: nat): nat {
    Mul(s, INVERSE)
  }

  lemma Inverse()
    ensures Mul(G, INVERSE) == 1 && Mul(INVERSE, G) == 1
  {
  }

  lemma BackStep(s: nat)
    requires s < N
    ensures Back(Step(s)) == s && Step(Back(s)) == s
  {
    hide Mul;
    Inverse();
    MulAssoc(s, G, INVERSE);
    MulAssoc(s, INVERSE, G);
    MulOne(s);
  }

  /** On 1 .. N - 1 the step is one-to-one and onto: no state is lost, none comes up twice. */
  lemma StepBijection(s: nat)
    requires 1 <= s < N
    ensures 1 <= Step(s) < N && 1 <= Back(s) < N && Back(Step(s)) == s && Step(Back(s)) == s
  {
    hide Mul;
    BackStep(s);
    MulOne(G);
    MulOne(INVERSE);
    MulBelow(s, G);
    MulBelow(s, INVERSE);
  }

  lemma StepInjective(s: nat, t: nat)
    requires 1 <= s < N && 1 <= t < N && Step(s) == Step(t)
    ensures s == t
  {
    hide Mul;
    BackStep(s);
    BackStep(t);
  }

  // ----- many steps -----

  function Iter(s: nat, n: nat): nat {
    if n == 0 then s else Step(Iter(s, n - 1))
  }

  function Power(n: nat): nat {
    if n == 0 then 1 else Mul(Power(n - 1), G)
  }

  lemma {:induction false} IterPower(s: nat, n: nat)
    requires s < N
    ensures Iter(s, n) == Mul(s, Power(n))
  {
    hide Mul;
    if n == 0 {
      MulOne(s);
    } else {
      IterPower(s, n - 1);
      MulAssoc(s, Power(n - 1), G);
    }
  }

  lemma PowerBelow(n: nat)
    ensures Power(n) < N
  {
  }

  lemma {:induction false} PowerSum(m: nat, n: nat)
    ensures Power(m + n) == Mul(Power(m), Power(n))
  {
    if n == 0 {
      PowerBelow(m);
      MulOne(Power(m));
    } else {
      PowerSum(m, n - 1);
      hide Mul;
      MulAssoc(Power(m), Power(n - 1), G);
    }
  }

  lemma MulIs(a: nat, b: nat, k: nat, r: nat)
    requires a * b == N * k + r && r < N
    ensures Mul(a, b) == r
  {
    AddMultiple(k, r);
  }

  /** One squaring, with the quotients that show the remainders. */
  lemma Twice(n: nat, c: nat, q: nat, r: nat, p: nat, d: nat)
    requires Power(n) == c && r < N && d < N
    requires c * c == N * q + r && r * G == N * p + d
    ensures Power(2 * n + 1) == d
  {
    hide Mul;
    MulIs(c, c, q, r);
    MulIs(r, G, p, d);
    PowerSum(n, n);
    assert Power(2 * n + 1) == Mul(Power(2 * n), G);
  }

  const HALF: nat := 0x3fff_ffff  // (N - 1) / 2

  lemma PowerZero()
    ensures Power(0) == 1
  {
  }

  /** G is no square modulo N: its power (N - 1) / 2 is -1, computed by thirty squarings. */
  lemma HalfPower()
    ensures Power(HALF) == N - 1
  {
    hide Power, Mul;
    PowerZero();
    Twice(0, 1, 0, 1, 0, 48271);
    Twice(1, 48271, 1, 182605794, 4104, 1291394886);
    Twice(3, 1291394886, 776583679, 407355683, 9156, 1105902161);
    Twice(7, 1105902161, 569512876, 1738531149, 39078, 1271135913);
    Twice(15, 1271135913, 752409226, 631416347, 14192, 2010567813);
    Twice(31, 2010567813, 1882381240, 352020689, 7912, 1500063655);
    Twice(63, 1500063655, 1047826823, 1771495544, 39819, 1210064531);
    Twice(127, 1210064531, 681847413, 17494750, 393, 528003979);
    Twice(255, 528003979, 129820873, 33068610, 743, 674523589);
    Twice(511, 674523589, 211867537, 1079773482, 24271, 170153285);
    Twice(1023, 170153285, 13481890, 2090638395, 46993, 506941574);
    Twice(2047, 506941574, 119670182, 571083722, 12836, 1682251770);
    Twice(4095, 1682251770, 1317807947, 1598990191, 35941, 2145752934);
    Twice(8191, 2145752934, 2144023615, 1775284451, 39904, 1568284333);
    Twice(16383, 1568284333, 1145301270, 919923199, 20677, 2093369910);
    Twice(32767, 2093369910, 2040619767, 715957851, 16093, 547094450);
    Twice(65535, 547094450, 139378168, 691983804, 15554, 789557446);
    Twice(131071, 789557446, 290293693, 1989304545, 44715, 988416090);
    Twice(262143, 988416090, 454935416, 669745948, 15054, 1087833970);
    Twice(524287, 1087833970, 551055533, 579592049, 13028, 70844163);
    Twice(1048575, 70844163, 2337105, 662348634, 14888, 494375278);
    Twice(2097151, 494375278, 113810838, 2041211098, 45882, 456219904);
    Twice(4194303, 456219904, 96921157, 1099949637, 24724, 1283239199);
    Twice(8388607, 1283239199, 766805765, 1087336646, 24441, 179422739);
    Twice(16777215, 179422739, 14990809, 2087461698, 46921, 1783423271);
    Twice(33554431, 1783423271, 1481081622, 427104007, 9600, 894510697);
    Twice(67108863, 894510697, 372598593, 1684717138, 37868, 2070223802);
    Twice(134217727, 2070223802, 1995743528, 381248588, 8569, 1463220205);
    Twice(268435455, 1463220205, 996987041, 1501823498, 33757, 1916600179);
    Twice(536870911, 1916600179, 1710539799, 247665088, 5566, 2147483646);
  }

  lemma Complement(s: nat)
    requires 1 <= s < N
    ensures Mul(s, N - 1) == N - s
  {
    assert s * (N - 1) == N * (s - 1) + (N - s);
    AddMultiple(s - 1, N - s);
  }

  /** After half a period every state has turned into its complement. */
  lemma HalfTurn(s: nat)
    requires 1 <= s < N
    ensures Iter(s, HALF) == N - s
  {
    hide Iter, Power, Mul;
    IterPower(s, HALF);
    HalfPower();
    Complement(s);
  }

  // ----- the code -----

  /** The bins of random_at_most(max): `Size` raw values each, the last `Defect` raw values are rejected. */
  function Size(max: nat): nat
    requires max < 0x8000_0000
  {
    0x8000_0000 / (max + 1)
  }

  function Defect(max: nat): nat
    requires max < 0x8000_0000
  {
    0x8000_0000 % (max + 1)
  }

  predicate Accepted(max: nat, x: nat)
    requires max < 0x8000_0000
  {
    x < 0x8000_0000 - Defect(max)
  }

  lemma MulMono(a: nat, b: nat, c: nat)
    requires a <= b
    ensures a * c <= b * c
  {
  }

  lemma LessMul(q: nat, k: nat, b: nat)
    ensures q < k ==> q * b + b <= k * b
  {
    if q < k {
      MulMono(q + 1, k, b);
      assert (q + 1) * b == q * b + b;
    }
  }

  lemma Quotient(x: nat, b: nat, k: nat)
    requires b >= 1
    ensures x / b == k <==> k * b <= x < k * b + b
  {
    var q := x / b;
    assert x == q * b + x % b;
    LessMul(q, k, b);
    LessMul(k, q, b);
  }

  lemma Divide(max: nat)
    requires max < 0x8000_0000
    ensures Size(max) >= 1 && Size(max) * (max + 1) == 0x8000_0000 - Defect(max) && Defect(max) <= max
  {
    var n, b := 0x8000_0000, max + 1;
    assert n == n / b * b + n % b;
    assert b <= n;
    Quotient(n, b, n / b);
    MulMono(1, n / b, b);
  }

  lemma BinIndex(x: nat, b: nat, m: nat)
    requires b >= 1
    ensures x / b <= m <==> x < b * (m + 1)
  {
    var q := x / b;
    Quotient(x, b, q);
    LessMul(q, m + 1, b);
    LessMul(m, q, b);
    assert b * (m + 1) == m * b + b && (m + 1) * b == m * b + b;
  }

  /** Every bin accepts exactly Size(max) raw values, side by side, and there are max + 1 bins. */
  lemma Bins(max: nat, x: nat)
    requires max < 0x8000_0000
    ensures Size(max) >= 1
    ensures Accepted(max, x) <==> x / Size(max) <= max
    ensures forall k: nat :: x / Size(max) == k <==> k * Size(max) <= x < k * Size(max) + Size(max)
  {
    Divide(max);
    hide Size, Defect;
    BinIndex(x, Size(max), max);
    forall k: nat
      ensures x / Size(max) == k <==> k * Size(max) <= x < k * Size(max) + Size(max)
    {
      Quotient(x, Size(max), k);
    }
  }

  /** More than half of the raw values are accepted. */
  lemma MostAccepted(max: nat, x: nat)
    requires max < 0x8000_0000
    ensures x <= 0x4000_0000 ==> Accepted(max, x)
  {
    Divide(max);
    MulMono(1, Size(max), max + 1);
  }

  /** The n-th number after s is the first that is accepted. */
  ghost predicate FirstAccepted(max: nat, s: nat, n: nat)
    requires max < 0x8000_0000
  {
    1 <= n && Accepted(max, Iter(s, n)) && forall j :: 1 <= j < n ==> !Accepted(max, Iter(s, j))
  }

  lemma Schrage(s: nat, div: nat, rem: nat)
    requires 1 <= s < N && div == s / (N / G) && rem == s % (N / G)
    ensures rem * G < N && div * (N % G) < N
    ensures var a, b := rem * G, div * (N % G); Step(s) == (if a > b then a - b else a + (N - b)) || a == b
    ensures rem * G != div * (N % G)
  {
    var a, b := rem * G, div * (N % G);
    assert s == div * 44488 + rem;
    assert s * G == N * div + (a - b);
    AddMultiple(div, a - b);
    StepBijection(s);
    if a > b {
      assert Step(s) == (a - b) % N;
    } else {
      AddMultiple(div - 1, a - b + N);
      assert s * G == N * (div - 1) + (a - b + N);
    }
  }

  lemma IterNext(s: nat, n: nat)
    ensures Iter(s, n + 1) == Step(Iter(s, n)) && Iter(s, 0) == s
  {
  }

  lemma AcceptedMeans(max: nat, x: nat)
    requires max < 0x8000_0000
    ensures Accepted(max, x) <==> x < 0x8000_0000 - 0x8000_0000 % (max + 1)
    ensures Size(max) == 0x8000_0000 / (max + 1)
  {
  }

  lemma {:induction false} IterShift(s: nat, n: nat)
    ensures Iter(s, n + 1) == Iter(Step(s), n)
  {
    if n > 0 { IterShift(s, n - 1); }
  }

  /** A whole half period without an accepted value is impossible. */
  lemma EndsInTime(max: nat, start: nat, turns: nat)
    requires max < 0x8000_0000 && 1 <= start < N && 1 <= turns <= HALF + 1
    requires forall j :: 1 <= j <= turns ==> !Accepted(max, Iter(start, j))
    ensures turns < HALF + 1
  {
    hide Iter, Mul, Step;
    StepBijection(start);
    IterNext(start, 0);
    IterShift(start, HALF);
    HalfTurn(Step(start));
    MostAccepted(max, Step(start));
    MostAccepted(max, N - Step(start));
    assert Accepted(max, Iter(start, 1)) || Accepted(max, Iter(start, HALF + 1));
  }

  class Generator {
    var seed: nat

    constructor ()
      ensures seed == 1
    {
      seed := 1;
    }

    /** Schrage's method: every intermediate value fits 32 bits, and the result is seed * G modulo N. */
    method Next() returns (x: nat)
      requires 1 <= seed < N
      modifies this
      ensures x == seed == Step(old(seed)) && 1 <= seed < N
    {
      hide Mul, Step;
      var div := seed / (N / G);
      var rem := seed % (N / G);
      var a := rem * G % UINT;
      var b := div * (N % G) % UINT;
      Schrage(seed, div, rem);
      StepBijection(seed);
      seed := if a > b then a - b else (a + (N - b)) % UINT;
      x := seed;
    }

    /** A number from 0 to max.  The loop ends: a state and the one half a period later add up to N, so that
        they cannot both be rejected. */
    method RandomAtMost(max: nat) returns (r: nat, ghost turns: nat)
      requires max < 0x8000_0000 && 1 <= seed < N
      modifies this
      ensures 1 <= seed < N && r <= max && seed == Iter(old(seed), turns) && turns <= HALF + 1
      ensures FirstAccepted(max, old(seed), turns) && r * Size(max) <= seed < r * Size(max) + Size(max)
    {
      hide Iter, Mul, Step, Accepted;
      var numBins := max + 1;
      var numRand := (N + 1) % UINT;
      var binSize := numRand / numBins;
      var defect := numRand % numBins;
      ghost var start := seed;
      IterNext(start, 0);
      var x := Next();
      turns := 1;
      while numRand - defect <= x
        invariant 1 <= x == seed < N && 1 <= turns <= HALF + 1 && x == Iter(start, turns)
        invariant forall j :: 1 <= j < turns ==> !Accepted(max, Iter(start, j))
        decreases HALF + 1 - turns
      {
        AcceptedMeans(max, x);
        EndsInTime(max, start, turns);
        IterNext(start, turns);
        x := Next();
        turns := turns + 1;
      }
      AcceptedMeans(max, x);
      Bins(max, x);
      r := x / binSize;
    }
  }
}
