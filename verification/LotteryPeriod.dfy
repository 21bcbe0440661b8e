/** The full period of the generator: from every state it comes through all of 1 .. N - 1, each once, before it
    returns.  So the counts over all states are the counts over one period of a run. */
module LotteryPeriod {
  import opened Collections
  import opened LotteryRandom
  import opened LotteryDraw

  const PERIOD: nat := 0x7fff_fffe  // N - 1 == 2 * 3 * 3 * 7 * 11 * 31 * 151 * 331

  lemma WholePeriod()
    ensures Power(PERIOD) == 1
  {
    hide Power, Mul;
    PowerSum(HALF, HALF);
    HalfPower();
    assert HALF + HALF == PERIOD;
    MulIs(N - 1, N - 1, N - 2, 1);
  }

  // ----- powers of G, computed by squaring -----

  lemma PowerOne()
    ensures Power(1) == G
  {
    assert Power(1) == Mul(Power(0), G);
  }

  lemma Square(e: nat, c: nat, q: nat, r: nat)
    requires Power(e) == c && c * c == N * q + r && r < N
    ensures Power(2 * e) == r
  {
    hide Power, Mul;
    MulIs(c, c, q, r);
    PowerSum(e, e);
  }

  lemma SquareTimes(e: nat, c: nat, m: nat, b: nat, q: nat, r: nat, p: nat, d: nat)
    requires Power(e) == c && Power(m) == b && r < N && d < N
    requires c * c == N * q + r && r * b == N * p + d
    ensures Power(2 * e + m) == d
  {
    hide Power, Mul;
    Square(e, c, q, r);
    MulIs(r, b, p, d);
    PowerSum(2 * e, m);
  }

  lemma PowerSix()
    ensures Power(6) == 407355683
  {
    hide Power, Mul;
    PowerOne();
    SquareTimes(1, 48271, 1, 48271, 1, 182605794, 4104, 1291394886);
    Square(3, 1291394886, 776583679, 407355683);
  }

  lemma PowerU()
    ensures Power(9296466) == 62058866
  {
    hide Power, Mul;
    PowerSix();
    Square(6, 407355683, 77271206, 1203428207);
    SquareTimes(12, 1203428207, 6, 407355683, 674389046, 1402304087, 266002742, 631416347);
    SquareTimes(30, 631416347, 6, 407355683, 185652916, 2130959757, 404221270, 163677341);
    SquareTimes(66, 163677341, 6, 407355683, 12475192, 1143645057, 216937769, 1959645388);
    SquareTimes(138, 1959645388, 6, 407355683, 1788237154, 1536849906, 291524708, 665722);
    Square(282, 665722, 206, 804150002);
    SquareTimes(564, 804150002, 6, 407355683, 301123236, 674878312, 128017513, 29537185);
    Square(1134, 29537185, 406264, 1359417);
    Square(2268, 1359417, 860, 1178643469);
    SquareTimes(4536, 1178643469, 6, 407355683, 646896859, 1018189188, 193140074, 1605585526);
    Square(9078, 1605585526, 1200430506, 305761294);
    Square(18156, 305761294, 43534659, 628333063);
    Square(36312, 628333063, 183844211, 1340844452);
    SquareTimes(72624, 1340844452, 6, 407355683, 837195592, 1298696280, 246349401, 53213793);
    SquareTimes(145254, 53213793, 6, 407355683, 1318616, 1468774297, 278611461, 563001584);
    Square(290514, 563001584, 147601023, 413538175);
    Square(581028, 413538175, 79634516, 1335570773);
    Square(1162056, 1335570773, 830622990, 1844572999);
    SquareTimes(2324112, 1844572999, 6, 407355683, 1584389037, 1196276062, 226921333, 519618895);
    SquareTimes(4648230, 519618895, 6, 407355683, 125730315, 646362220, 122608302, 62058866);
  }

  lemma PowerV()
    ensures Power(1386) == 739992498
  {
    hide Power, Mul;
    PowerSix();
    SquareTimes(6, 407355683, 6, 407355683, 77271206, 1203428207, 228278021, 2136927794);
    SquareTimes(18, 2136927794, 6, 407355683, 2126423827, 1696049367, 321723217, 928270262);
    Square(42, 928270262, 401253662, 1869683330);
    Square(84, 1869683330, 1627819499, 109656047);
    SquareTimes(168, 109656047, 6, 407355683, 5599320, 509346169, 96617758, 1241625001);
    SquareTimes(342, 1241625001, 6, 407355683, 717878641, 1030166274, 195412005, 983852907);
    SquareTimes(690, 983852907, 6, 407355683, 450744546, 1102911387, 209211009, 739992498);
  }

  lemma NotBy3()
    ensures Power(715827882) == 634005911
  {
    hide Power, Mul;
    PowerU();
    Square(9296466, 62058866, 1793402, 1381708862);
    Square(18592932, 1381708862, 889002988, 465197808);
    SquareTimes(37185864, 465197808, 9296466, 62058866, 100773293, 1796165293, 51906323, 1413737757);
    SquareTimes(83668194, 1413737757, 9296466, 62058866, 930696002, 944111755, 27283329, 2029348967);
    Square(176632854, 2029348967, 1917712964, 34067381);
    SquareTimes(353265708, 34067381, 9296466, 62058866, 540440, 386014481, 11155205, 634005911);
  }

  lemma NotBy7()
    ensures Power(306783378) == 1752599774
  {
    hide Power, Mul;
    PowerU();
    Square(9296466, 62058866, 1793402, 1381708862);
    Square(18592932, 1381708862, 889002988, 465197808);
    Square(37185864, 465197808, 100773293, 1796165293);
    Square(74371728, 1796165293, 1502320990, 1207925319);
    SquareTimes(148743456, 1207925319, 9296466, 62058866, 679438736, 1582901569, 45743340, 1752599774);
  }

  lemma NotBy11()
    ensures Power(195225786) == 219454379
  {
    hide Power, Mul;
    PowerU();
    Square(9296466, 62058866, 1793402, 1381708862);
    SquareTimes(18592932, 1381708862, 9296466, 62058866, 889002988, 465197808, 13443477, 1413845109);
    Square(46482330, 1413845109, 930837352, 806439137);
    SquareTimes(92964660, 806439137, 9296466, 62058866, 302840062, 883838655, 25541533, 219454379);
  }

  lemma NotBy31()
    ensures Power(69273666) == 64
  {
    hide Power, Mul;
    PowerV();
    SquareTimes(1386, 739992498, 1386, 739992498, 254990950, 1838285354, 633447138, 1049322006);
    Square(4158, 1049322006, 512728780, 1879603376);
    Square(8316, 1879603376, 1645138884, 636767428);
    Square(16632, 636767428, 188812966, 535168182);
    Square(33264, 535168182, 133367713, 319895813);
    SquareTimes(66528, 319895813, 1386, 739992498, 47652670, 1614043479, 556176559, 608589869);
    SquareTimes(134442, 608589869, 1386, 739992498, 172472386, 155365419, 53536726, 909706940);
    Square(270270, 909706940, 385365782, 1725796646);
    Square(540540, 1725796646, 1386913501, 143831169);
    SquareTimes(1081080, 143831169, 1386, 739992498, 9633323, 1567137580, 540013449, 1646306337);
    SquareTimes(2163546, 1646306337, 1386, 739992498, 1262093222, 11816935, 4071948, 1507919274);
    SquareTimes(4328478, 1507919274, 1386, 739992498, 1058830198, 1745914970, 601617610, 723671390);
    SquareTimes(8658342, 723671390, 1386, 739992498, 243866946, 2125700038, 732486174, 799718346);
    Square(17318070, 799718346, 297813412, 801702152);
    SquareTimes(34636140, 801702152, 1386, 739992498, 299292775, 543680679, 187344674, 64);
  }

  lemma NotBy151()
    ensures Power(14221746) == 556613938
  {
    hide Power, Mul;
    PowerV();
    Square(1386, 739992498, 254990950, 1838285354);
    SquareTimes(2772, 1838285354, 1386, 739992498, 1573605949, 431489313, 148685115, 1572359469);
    Square(6930, 1572359469, 1151261059, 2123559788);
    Square(13860, 2123559788, 2099902450, 1540369794);
    Square(27720, 1540369794, 1104892745, 691161421);
    Square(55440, 691161421, 222448310, 1850952671);
    Square(110880, 1850952671, 1595367580, 1278069981);
    Square(221760, 1278069981, 760640426, 251226739);
    SquareTimes(443520, 251226739, 1386, 739992498, 29390153, 1438246130, 495599278, 1507525874);
    Square(888426, 1507525874, 1058277795, 2033745511);
    SquareTimes(1776852, 2033745511, 1386, 739992498, 1926031338, 1548121435, 533460755, 214221145);
    Square(3555090, 214221145, 21369521, 2073387938);
    SquareTimes(7110180, 2073387938, 1386, 739992498, 2001848790, 1152154714, 397016222, 556613938);
  }

  lemma NotBy331()
    ensures Power(6487866) == 1627574666
  {
    hide Power, Mul;
    PowerV();
    Square(1386, 739992498, 254990950, 1838285354);
    Square(2772, 1838285354, 1573605949, 431489313);
    SquareTimes(5544, 431489313, 1386, 739992498, 86698228, 379334453, 130713288, 1027332258);
    Square(12474, 1027332258, 491464309, 1665723641);
    Square(24948, 1665723641, 1292040222, 175047247);
    SquareTimes(49896, 175047247, 1386, 739992498, 14268578, 761335043, 262345290, 142034784);
    Square(101178, 142034784, 9394194, 1874181138);
    Square(202356, 1874181138, 1635660854, 2031920506);
    SquareTimes(404712, 2031920506, 1386, 739992498, 1922576196, 1681829224, 579534568, 1025952056);
    Square(810810, 1025952056, 490144650, 671088586);
    Square(1621620, 671088586, 209715166, 746588994);
    SquareTimes(3243240, 746588994, 1386, 739992498, 259557332, 32982232, 11365210, 1627574666);
  }

  // ----- no shorter period -----

  ghost predicate Prime(p: nat) {
    p >= 2 && forall d :: 1 < d < p ==> p % d != 0
  }

  /** No number from 2 to n divides p. */
  predicate Tried(p: nat, n: nat) {
    n <= 1 || (p % n != 0 && Tried(p, n - 1))
  }

  lemma {:induction false} TriedAll(p: nat, n: nat, d: nat)
    requires Tried(p, n) && 1 < d <= n
    ensures p % d != 0
  {
    if d < n { TriedAll(p, n - 1, d); }
  }

  lemma Smaller(d: nat, e: nat, n: nat)
    requires d > n && 0 < d * e < (n + 1) * (n + 1) && d < d * e
    ensures 1 < e <= n
  {
    if e >= n + 1 {
      MulMono(n + 1, d, n + 1);
      MulMono(n + 1, e, d);
    }
  }

  lemma Remainder(x: nat, b: nat, q: nat, r: nat)
    requires x == q * b + r && r < b
    ensures x / b == q && x % b == r
  {
    Quotient(x, b, q);
  }

  lemma Divides(p: nat, e: nat, d: nat)
    requires p == d * e && e > 0
    ensures p % e == 0
  {
    Remainder(p, e, d, 0);
  }

  /** Trial division up to the square root. */
  lemma TrialDivision(p: nat, n: nat)
    requires p >= 2 && Tried(p, n) && p < (n + 1) * (n + 1)
    ensures Prime(p)
  {
    forall d | 1 < d < p
      ensures p % d != 0
    {
      if p % d == 0 {
        var e := p / d;
        assert p == d * e;
        if d <= n {
          TriedAll(p, n, d);
        } else {
          Smaller(d, e, n);
          Divides(p, e, d);
          TriedAll(p, n, e);
        }
      }
    }
  }

  lemma Factors()
    ensures Prime(2) && Prime(3) && Prime(7) && Prime(11) && Prime(31) && Prime(151) && Prime(331)
  {
    TrialDivision(2, 1);
    TrialDivision(3, 1);
    TrialDivision(7, 2);
    TrialDivision(11, 3);
    TrialDivision(31, 5);
    assert Tried(151, 6);
    TrialDivision(151, 12);
    assert Tried(331, 6);
    assert Tried(331, 12);
    TrialDivision(331, 18);
  }

  lemma Less(p: nat, q: nat, r: nat, s: nat, g: nat, m: nat)
    requires p == q * r + s && r * g == p * m
    ensures s * g == p * (g - q * m)
  {
    calc {
      s * g;
      (p - q * r) * g;
      p * g - q * (r * g);
      p * g - q * (p * m);
      p * (g - q * m);
    }
  }

  lemma Sign(p: nat, k: int)
    requires p > 0 && p * k >= 0
    ensures k >= 0
  {
  }

  lemma Multiple(p: nat, k: int, x: nat)
    requires p > 0 && x == p * k
    ensures x % p == 0
  {
    Sign(p, k);
    Remainder(x, p, k, 0);
  }

  /** A prime that divides r * g, with 0 < r < p, divides g. */
  lemma {:induction false} Euclid(p: nat, r: nat, g: nat)
    requires Prime(p) && 1 <= r < p && r * g % p == 0
    ensures g % p == 0
    decreases r
  {
    if r > 1 {
      var q, s := p / r, p % r;
      var m := r * g / p;
      assert r * g == p * m;
      assert s * g == p * (g - q * m) by { Less(p, q, r, s, g, m); }
      Multiple(p, g - q * m, s * g);
      Euclid(p, s, g);
    }
  }

  lemma Cancel(p: nat, x: int, y: int)
    requires p > 0 && p * x == p * y
    ensures x == y
  {
    Sign(p, x - y);
    Sign(p, y - x);
  }

  /** One prime of a product: it divides the first factor or is part of the second. */
  lemma Strip(p: nat, k: nat, g: nat, m: nat)
    requires Prime(p) && k * g == p * m
    ensures k % p == 0 || (g % p == 0 && k * (g / p) == m)
  {
    if k % p != 0 {
      var q, r := k / p, k % p;
      calc {
        r * g;
        (k - q * p) * g;
        k * g - p * (q * g);
        p * (m - q * g);
      }
      Multiple(p, m - q * g, r * g);
      Euclid(p, r, g);
      assert k * g == k * (p * (g / p)) == p * (k * (g / p));
      Cancel(p, k * (g / p), m);
    }
  }

  lemma {:induction false} PowerMultiple(d: nat, q: nat)
    requires Power(d) == 1
    ensures Power(q * d) == 1
  {
    if q == 0 {
      PowerZero();
    } else {
      hide Power, Mul;
      PowerMultiple(d, q - 1);
      PowerSum((q - 1) * d, d);
      assert q * d == (q - 1) * d + d;
      MulOne(1);
    }
  }

  /** Any exponent with power 1 leads to one that divides the period. */
  lemma {:induction false} Reduce(d: nat) returns (e: nat)
    requires 0 < d && Power(d) == 1
    ensures 0 < e <= d && PERIOD % e == 0 && Power(e) == 1
  {
    hide Power, Mul;
    e := d;
    var q, r := PERIOD / d, PERIOD % d;
    if r > 0 {
      assert PERIOD == q * d + r;
      PowerMultiple(d, q);
      PowerSum(q * d, r);
      WholePeriod();
      PowerBelow(r);
      MulOne(Power(r));
      MulSwap(1, Power(r));
      e := Reduce(r);
    }
  }

  lemma PrimeOut(p: nat, k: nat, e: nat, m: nat)
    requires p > 0 && k % p == 0 && k * e == p * m && Power(e) == 1
    ensures Power(m) == 1
  {
    hide Power;
    var q := k / p;
    assert k * e == (p * q) * e == p * (q * e);
    Cancel(p, q * e, m);
    PowerMultiple(e, q);
  }

  lemma One(k: nat, x: nat)
    requires k * x == 1
    ensures k == 1
  {
    if k >= 2 {
      MulMono(2, k, x);
      assert false;
    }
  }

  /** Step by step, every prime of the period would have to be in e. */
  lemma NoFactorLeft(k: nat, e: nat)
    requires k * e == PERIOD && Power(e) == 1
    ensures k == 1
  {
    hide Power, Prime;
    Factors();
    if k % 2 == 0 { PrimeOut(2, k, e, HALF); HalfPower(); assert false; }
    if k % 3 == 0 { PrimeOut(3, k, e, 715827882); NotBy3(); assert false; }
    if k % 7 == 0 { PrimeOut(7, k, e, 306783378); NotBy7(); assert false; }
    if k % 11 == 0 { PrimeOut(11, k, e, 195225786); NotBy11(); assert false; }
    if k % 31 == 0 { PrimeOut(31, k, e, 69273666); NotBy31(); assert false; }
    if k % 151 == 0 { PrimeOut(151, k, e, 14221746); NotBy151(); assert false; }
    if k % 331 == 0 { PrimeOut(331, k, e, 6487866); NotBy331(); assert false; }
    var a := e / 2;
    Strip(2, k, e, HALF);
    var b := a / 3;
    Strip(3, k, a, 357913941);
    var c := b / 3;
    Strip(3, k, b, 119304647);
    var d := c / 7;
    Strip(7, k, c, 17043521);
    var f := d / 11;
    Strip(11, k, d, 1549411);
    var g := f / 31;
    Strip(31, k, f, 49981);
    var h := g / 151;
    Strip(151, k, g, 331);
    Strip(331, k, h, 1);
    One(k, h / 331);
  }

  /** No smaller power of G is 1: G is a primitive root modulo N. */
  lemma NoShorter(d: nat)
    requires 0 < d < PERIOD
    ensures Power(d) != 1
  {
    if Power(d) == 1 {
      hide Power;
      var e := Reduce(d);
      var k := PERIOD / e;
      assert k * e == PERIOD;
      NoFactorLeft(k, e);
      assert false;
    }
  }

  // ----- all states -----

  lemma PowerState(n: nat)
    ensures 1 <= Power(n) < N && Power(n + 1) == Step(Power(n))
  {
    if n > 0 {
      PowerState(n - 1);
      StepBijection(Power(n - 1));
    }
  }

  lemma {:induction false} SamePower(i: nat, d: nat)
    requires Power(i) == Power(i + d)
    ensures Power(d) == 1
  {
    if i == 0 {
      PowerZero();
    } else {
      PowerState(i - 1);
      PowerState(i - 1 + d);
      hide Power, Step;
      StepInjective(Power(i - 1), Power(i - 1 + d));
      SamePower(i - 1, d);
    }
  }

  /** The first n powers of G. */
  ghost function Powers(n: nat): (s: set<nat>) {
    if n == 0 then {} else Powers(n - 1) + {Power(n - 1)}
  }

  lemma {:induction false} FindPower(n: nat, x: nat) returns (j: nat)
    requires x in Powers(n)
    ensures j < n && Power(j) == x
  {
    j := n - 1;
    if x != Power(n - 1) { j := FindPower(n - 1, x); }
  }

  lemma {:induction false} PowersSize(n: nat)
    requires n <= PERIOD
    ensures |Powers(n)| == n && forall x :: x in Powers(n) ==> 1 <= x < N
  {
    if n > 0 {
      PowersSize(n - 1);
      PowerState(n - 1);
      hide Power;
      if Power(n - 1) in Powers(n - 1) {
        var j := FindPower(n - 1, Power(n - 1));
        SamePower(j, n - 1 - j);
        NoShorter(n - 1 - j);
        assert false;
      }
    }
  }

  /** Every state is a power of G. */
  lemma PowerOf(x: nat) returns (j: nat)
    requires 1 <= x < N
    ensures j < PERIOD && Power(j) == x
  {
    hide Power, Powers, Below;
    PowersSize(PERIOD);
    var all := Below(N) - {0};
    assert all + {0} == Below(N);
    SubsetSize(Powers(PERIOD), all);
    j := FindPower(PERIOD, x);
  }

  lemma IterFrom(s: nat, a: nat, n: nat)
    requires 1 <= s < N && Power(a) == s
    ensures Iter(s, n) == Power(a + n)
  {
    hide Power, Iter, Mul;
    IterPower(s, n);
    PowerSum(a, n);
  }

  lemma Returns(s: nat)
    requires 1 <= s < N
    ensures Iter(s, PERIOD) == s
  {
    hide Power, Iter, Mul;
    IterPower(s, PERIOD);
    WholePeriod();
    MulOne(s);
  }

  /** Within one period no state comes up twice. */
  lemma NoRepeat(s: nat, i: nat, j: nat)
    requires 1 <= s < N && i < j < i + PERIOD
    ensures Iter(s, i) != Iter(s, j)
  {
    hide Power, Iter;
    var a := PowerOf(s);
    IterFrom(s, a, i);
    IterFrom(s, a, j);
    if Power(a + i) == Power(a + j) {
      SamePower(a + i, j - i);
      NoShorter(j - i);
      assert false;
    }
  }

  /** Within one period every state comes up. */
  lemma Reached(s: nat, x: nat) returns (n: nat)
    requires 1 <= s < N && 1 <= x < N
    ensures 1 <= n <= PERIOD && Iter(s, n) == x
  {
    hide Power, Iter, Mul;
    var a := PowerOf(s);
    var b := PowerOf(x);
    n := if b > a then b - a else b + PERIOD - a;
    IterFrom(s, a, n);
    if b <= a {
      PowerSum(b, PERIOD);
      WholePeriod();
      MulOne(x);
    }
  }

  // ----- draws over one period -----

  /** How many of the first n numbers after s are won by process i. */
  function Won(ps: seq<Proc>, i: nat, s: nat, n: nat): nat
    requires Total(ps) < 0x8000_0000 && Size(Total(ps)) > 0
  {
    if n == 0 then 0 else Won(ps, i, s, n - 1) + if Winning(ps, i, Iter(s, n)) then 1 else 0
  }

  ghost function WonStates(ps: seq<Proc>, i: nat, s: nat, n: nat): set<nat>
    requires Total(ps) < 0x8000_0000 && Size(Total(ps)) > 0
  {
    if n == 0 then {}
    else if Winning(ps, i, Iter(s, n)) then WonStates(ps, i, s, n - 1) + {Iter(s, n)}
    else WonStates(ps, i, s, n - 1)
  }

  lemma {:induction false} WonStatesAre(ps: seq<Proc>, i: nat, s: nat, n: nat, j: nat)
    requires Total(ps) < 0x8000_0000 && Size(Total(ps)) > 0 && 1 <= j <= n
    ensures Iter(s, j) in WonStates(ps, i, s, n) <== Winning(ps, i, Iter(s, j))
  {
    hide Iter, Winning;
    if j < n { WonStatesAre(ps, i, s, n - 1, j); }
  }

  lemma {:induction false} WonStateFrom(ps: seq<Proc>, i: nat, s: nat, n: nat, x: nat) returns (j: nat)
    requires Total(ps) < 0x8000_0000 && Size(Total(ps)) > 0 && x in WonStates(ps, i, s, n)
    ensures 1 <= j <= n && Iter(s, j) == x && Winning(ps, i, x)
  {
    hide Iter, Winning;
    j := n;
    if !(Winning(ps, i, Iter(s, n)) && x == Iter(s, n)) { j := WonStateFrom(ps, i, s, n - 1, x); }
  }

  lemma {:induction false} WonIsSize(ps: seq<Proc>, i: nat, s: nat, n: nat)
    requires Total(ps) < 0x8000_0000 && Size(Total(ps)) > 0 && 1 <= s < N && n <= PERIOD
    ensures |WonStates(ps, i, s, n)| == Won(ps, i, s, n)
  {
    hide Iter, Winning, Total, Size, Prefix;
    if n > 0 {
      WonIsSize(ps, i, s, n - 1);
      if Iter(s, n) in WonStates(ps, i, s, n - 1) {
        var j := WonStateFrom(ps, i, s, n - 1, Iter(s, n));
        NoRepeat(s, j, n);
        assert false;
      }
    }
  }

  ghost function ShareStates(ps: seq<Proc>, i: nat, n: nat): set<nat>
    requires Total(ps) < 0x8000_0000 && Size(Total(ps)) > 0
  {
    if n == 0 then {}
    else if n - 1 >= 1 && Winning(ps, i, n - 1) then ShareStates(ps, i, n - 1) + {n - 1}
    else ShareStates(ps, i, n - 1)
  }

  lemma {:induction false} ShareStatesAre(ps: seq<Proc>, i: nat, n: nat, x: nat)
    requires Total(ps) < 0x8000_0000 && Size(Total(ps)) > 0
    ensures x in ShareStates(ps, i, n) <==> 1 <= x < n && Winning(ps, i, x)
  {
    hide Winning, Total, Size;
    if n > 0 { ShareStatesAre(ps, i, n - 1, x); }
  }

  lemma {:induction false} ShareIsSize(ps: seq<Proc>, i: nat, n: nat)
    requires Total(ps) < 0x8000_0000 && Size(Total(ps)) > 0
    ensures |ShareStates(ps, i, n)| == Share(ps, i, n)
  {
    if n > 0 {
      ShareIsSize(ps, i, n - 1);
      ShareStatesAre(ps, i, n - 1, n - 1);
      hide Winning, Total, Size;
    }
  }

  lemma StateAfter(s: nat, n: nat)
    requires 1 <= s < N
    ensures 1 <= Iter(s, n) < N
  {
    hide Power, Iter;
    var a := PowerOf(s);
    IterFrom(s, a, n);
    PowerState(a + n);
  }

  /** Whatever the seed, over one period a process wins tickets times the bin size of the numbers; only the holder
      of number 0 gets one less. */
  lemma FairPeriod(ps: seq<Proc>, i: nat, s: nat)
    requires i < |ps| && Total(ps) < 0x8000_0000 && 1 <= s < N
    ensures Size(Total(ps)) > 0
    ensures Won(ps, i, s, PERIOD) == (if ps[i].state == Runnable then ps[i].tickets else 0) * Size(Total(ps))
              - if Holds(ps, i, 0) then 1 else 0
  {
    FairShare(ps, i);
    hide Size, Share, Holds, Total, Winning, Won, WonStates, ShareStates, Iter, Weight;
    WonIsSize(ps, i, s, PERIOD);
    ShareIsSize(ps, i, N);
    var w, all := WonStates(ps, i, s, PERIOD), ShareStates(ps, i, N);
    forall x
      ensures x in w <==> x in all
    {
      ShareStatesAre(ps, i, N, x);
      if x in w {
        var j := WonStateFrom(ps, i, s, PERIOD, x);
        StateAfter(s, j);
      }
      if x in all {
        var j := Reached(s, x);
        WonStatesAre(ps, i, s, PERIOD, j);
      }
    }
    assert w == all;
  }
}
