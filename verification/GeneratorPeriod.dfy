/** The order of 48271 modulo 2^31 - 1 is exactly 2^31 - 2, so its powers run
    through every nonzero residue before the first one comes back. */
module GeneratorPeriod {
  import opened Common
  import opened ModularPower
  import opened OrderCertificate

  // ---------- exponents that return to one ----------

  lemma ReturnsAdd(a: nat, b: nat)
    requires Returns(a)
    ensures Returns(a + b) <==> Returns(b)
  {
    PowerSum(MULTIPLIER, a, b);
    PowerReduced(MULTIPLIER, b);
  }

  lemma {:induction false} ReturnsMultiple(d: nat, m: nat)
    requires Returns(d)
    ensures Returns(d * m)
  {
    if m == 0 {
      assert d * m == 0 && Power(MULTIPLIER, 0) == 1;
    } else {
      ReturnsMultiple(d, m - 1);
      assert d * m == d + d * (m - 1);
      ReturnsAdd(d, d * (m - 1));
    }
  }

  /** The inverse of a power, so that powers can be cancelled. */
  lemma {:induction false} PowerCancels(k: nat)
    ensures Times(Power(MULTIPLIER, k), Power(INVERSE, k)) == 1
  {
    if k > 0 {
      var a, b := Power(MULTIPLIER, k - 1), Power(INVERSE, k - 1);
      PowerCancels(k - 1);
      InverseCancels();
      hide Power;
      Interchange(a, MULTIPLIER, b, INVERSE);
    }
  }

  lemma Interchange(a: nat, g: nat, b: nat, h: nat)
    ensures Times(Times(a, g), Times(b, h)) == Times(Times(a, b), Times(g, h))
  {
    TimesAssociates(a, g, Times(b, h));
    TimesAssociates(g, b, h);
    TimesAssociates(a, b, Times(g, h));
    TimesAssociates(b, g, h);
    Commutes(g, b);
    hide Times;
  }

  lemma Commutes(a: nat, b: nat)
    ensures Times(a, b) == Times(b, a)
  {
    assert a * b == b * a;
  }

  lemma EqualPowers(i: nat, j: nat)
    requires i <= j && Power(MULTIPLIER, i) == Power(MULTIPLIER, j)
    ensures Returns(j - i)
  {
    hide Power, Times;
    PowerSum(MULTIPLIER, i, j - i);
    PowerCancels(i);
    PowerReduced(MULTIPLIER, j - i);
    CancelFactor(Power(MULTIPLIER, i), Power(MULTIPLIER, j - i), Power(INVERSE, i));
  }

  lemma CancelFactor(x: nat, y: nat, z: nat)
    requires Times(x, y) == x && Times(x, z) == 1 && Times(y, 1) == y
    ensures y == 1
  {
    hide Times;
    TimesAssociates(z, x, y);
    Commutes(x, z);
    Commutes(1, y);
  }

  // ---------- the least return ----------

  ghost predicate LeastReturn(d: nat) {
    0 < d && Returns(d) && forall k :: 0 < k < d ==> !Returns(k)
  }

  lemma {:induction false} LeastExists(bound: nat, k: nat) returns (d: nat)
    requires k <= bound && 0 < bound && Returns(bound)
    requires forall j :: 0 < j < k ==> !Returns(j)
    ensures LeastReturn(d)
    decreases bound - k
  {
    hide Power;
    if 0 < k && Returns(k) {
      d := k;
    } else {
      d := LeastExists(bound, k + 1);
    }
  }

  lemma LeastDivides(d: nat, k: nat)
    requires LeastReturn(d) && Returns(k)
    ensures k % d == 0
  {
    ReturnsMultiple(d, k / d);
    assert k == d * (k / d) + k % d;
    ReturnsAdd(d * (k / d), k % d);
  }

  // ---------- the prime factors of ORDER ----------

  predicate NoDivisorUpTo(q: nat, k: nat) {
    k < 2 || (q % k != 0 && NoDivisorUpTo(q, k - 1))
  }

  /** Eighteen trial divisions are enough below 19 * 19. */
  predicate SmallPrime(q: nat) {
    2 <= q < 361 && NoDivisorUpTo(q, if q <= 19 then q - 1 else 18)
  }

  lemma {:induction false} NoDivisorAt(q: nat, k: nat, r: nat)
    requires NoDivisorUpTo(q, k) && 2 <= r <= k
    ensures q % r != 0
  {
    if r < k {
      NoDivisorAt(q, k - 1, r);
    }
  }

  lemma Smaller(r: nat, t: nat)
    requires 19 <= r && 19 <= t
    ensures 361 <= r * t
  {}

  lemma NoProduct(q: nat, r: nat, t: nat)
    requires SmallPrime(q) && 2 <= r < q && 2 <= t < q
    ensures q != r * t
  {
    if q == r * t {
      var bound := if q <= 19 then q - 1 else 18;
      if r <= bound {
        Exact(r, t);
        NoDivisorAt(q, bound, r);
      } else if t <= bound {
        Exact(t, r);
        assert t * r == q;
        NoDivisorAt(q, bound, t);
      } else {
        Smaller(r, t);
      }
    }
  }

  lemma Descend(q: int, r: int, t: int, s: int, b: int, c: int)
    requires q == r * t + s && r * b == q * c
    ensures s * b == q * (b - t * c)
  {
    assert r * t * b == t * (r * b) == t * (q * c) == q * (t * c);
    assert s * b == (q - r * t) * b == q * b - r * t * b;
  }

  /** Euclid's lemma by descent on the remainder of one factor. */
  lemma {:induction false} PrimeDivides(q: nat, r: nat, b: int, c: int) returns (e: int)
    requires SmallPrime(q) && 0 < r < q && r * b == q * c
    ensures b == q * e
    decreases r
  {
    if r == 1 {
      e := c;
    } else {
      var t, s := q / r, q % r;
      assert q == r * t + s;
      QuotientInside(q, r);
      if s == 0 {
        NoProduct(q, r, t);
        assert false;
      }
      Descend(q, r, t, s, b, c);
      e := PrimeDivides(q, s, b, b - t * c);
    }
  }

  lemma QuotientInside(q: nat, r: nat)
    requires 2 <= r < q
    ensures q % r == 0 ==> 2 <= q / r < q
  {
    var t := q / r;
    assert q == r * t + q % r;
    if q % r == 0 {
      assert t >= 2;
      assert r * t >= 2 * t;
    }
  }

  /** A prime that divides d * m and not m is a factor of d. */
  lemma SplitFactor(q: nat, d: nat, m: nat, rest: nat) returns (e: nat)
    requires SmallPrime(q) && d * m == q * rest && m % q != 0
    ensures d == q * e && e * m == rest
  {
    var r, t := m % q, m / q;
    assert m == q * t + r;
    RemainderTimes(q, d, m, rest, r, t);
    var f := PrimeDivides(q, r, d, rest - t * d);
    if f < 0 {
      Negative(q, f);
      assert false;
    }
    e := f;
    SplitRest(q, e, m, d, rest);
  }

  lemma Negative(q: nat, f: int)
    requires q > 0 && f < 0
    ensures q * f < 0
  {}

  lemma RemainderTimes(q: int, d: int, m: int, rest: int, r: int, t: int)
    requires m == q * t + r && d * m == q * rest
    ensures r * d == q * (rest - t * d)
  {
    assert d * m == d * (q * t) + d * r;
    assert d * (q * t) == q * (t * d);
  }

  lemma SplitRest(q: nat, e: nat, m: nat, d: nat, rest: nat)
    requires q > 0 && d == q * e && d * m == q * rest
    ensures e * m == rest
  {
    assert d * m == q * (e * m);
    assert q * (e * m - rest) == 0;
  }

  predicate Factor(q: nat) {
    q == 2 || q == 3 || q == 7 || q == 11 || q == 31 || q == 151 || q == 331
  }

  lemma FactorsArePrime(q: nat)
    requires Factor(q)
    ensures SmallPrime(q)
  {
    assert NoDivisorUpTo(2, 1) && NoDivisorUpTo(3, 2) && NoDivisorUpTo(7, 6) && NoDivisorUpTo(11, 10);
    assert NoDivisorUpTo(31, 9) && NoDivisorUpTo(151, 9) && NoDivisorUpTo(331, 9);
    assert NoDivisorUpTo(31, 18) && NoDivisorUpTo(151, 18) && NoDivisorUpTo(331, 18);
  }

  lemma NoReturnAt(q: nat)
    requires Factor(q)
    ensures ORDER % q == 0 && !Returns(ORDER / q)
  {
    hide Returns;
    OrderFacts();
  }

  /** The cofactor of the least return has none of the primes of ORDER. */
  lemma CofactorAvoids(d: nat, m: nat, q: nat)
    requires LeastReturn(d) && d * m == ORDER && Factor(q)
    ensures m % q != 0
  {
    NoReturnAt(q);
    if m % q == 0 {
      var t := m / q;
      assert m == q * t;
      ReturnsMultiple(d, t);
      assert d * m == q * (d * t);
      hide Returns, LeastReturn;
      Exact(q, d * t);
    }
  }

  /** The order of 48271 is 2 * 3 * 3 * 7 * 11 * 31 * 151 * 331 and no less. */
  lemma OrderIsLeast()
    ensures LeastReturn(ORDER)
  {
    OrderFacts();
    hide Returns;
    var d := LeastExists(ORDER, 0);
    LeastDivides(d, ORDER);
    var m := ORDER / d;
    assert d * m == ORDER;
    forall q: nat | Factor(q)
      ensures SmallPrime(q) && m % q != 0
    {
      FactorsArePrime(q);
      CofactorAvoids(d, m, q);
    }
    CofactorIsOne(d, m);
  }

  lemma CofactorIsOne(d: nat, m: nat)
    requires d * m == ORDER
    requires forall q: nat | Factor(q) :: SmallPrime(q) && m % q != 0
    ensures d == ORDER
  {
    hide SmallPrime;
    assert Factor(2) && Factor(3) && Factor(7) && Factor(11) && Factor(31) && Factor(151) && Factor(331);
    var e := SplitFactor(2, d, m, 0x3FFFFFFF);
    e := SplitFactor(3, e, m, 0x15555555);
    e := SplitFactor(3, e, m, 119304647);
    e := SplitFactor(7, e, m, 17043521);
    e := SplitFactor(11, e, m, 1549411);
    e := SplitFactor(31, e, m, 49981);
    e := SplitFactor(151, e, m, 331);
    e := SplitFactor(331, e, m, 1);
    assert e == 1;
  }

  // ---------- consequences ----------

  /** Two powers agree exactly when their exponents agree modulo ORDER. */
  lemma PowersAgree(i: nat, j: nat)
    requires i <= j
    ensures Power(MULTIPLIER, i) == Power(MULTIPLIER, j) <==> (j - i) % ORDER == 0
  {
    OrderIsLeast();
    if Power(MULTIPLIER, i) == Power(MULTIPLIER, j) {
      EqualPowers(i, j);
      LeastDivides(ORDER, j - i);
    }
    if (j - i) % ORDER == 0 {
      var m := (j - i) / ORDER;
      assert j - i == ORDER * m;
      ReturnsMultiple(ORDER, m);
      PowerSum(MULTIPLIER, i, j - i);
      PowerReduced(MULTIPLIER, i);
    }
  }

  lemma ZeroAbsorbs(a: nat, b: nat)
    ensures a == 0 ==> Times(a, b) == 0
  {}

  lemma PowerNonzero(k: nat)
    ensures 0 < Power(MULTIPLIER, k) < MODULUS
  {
    PowerCancels(k);
    PowerReduced(MULTIPLIER, k);
    ZeroAbsorbs(Power(MULTIPLIER, k), Power(INVERSE, k));
  }

  ghost function Powers(n: nat): set<nat> {
    set t | 0 <= t < n :: Power(MULTIPLIER, t)
  }

  lemma {:induction false} PowersCount(n: nat)
    requires n <= ORDER
    ensures |Powers(n)| == n
  {
    if n > 0 {
      var last := Power(MULTIPLIER, n - 1);
      PowersCount(n - 1);
      forall t | 0 <= t < n - 1
        ensures Power(MULTIPLIER, t) != last
      {
        PowersAgree(t, n - 1);
      }
      hide Power;
      assert Powers(n) == Powers(n - 1) + {last};
    }
  }

  /** A set of n numbers between 1 and n leaves none out. */
  lemma {:induction false} Pigeonhole(s: set<nat>, n: nat)
    requires forall x <- s :: 0 < x <= n
    ensures |s| <= n
    ensures |s| == n ==> forall x :: 0 < x <= n ==> x in s
  {
    if n == 0 {
      assert s == {};
    } else {
      Pigeonhole(s - {n}, n - 1);
    }
  }

  lemma PowersInRange(n: nat)
    ensures forall y <- Powers(n) :: 0 < y <= ORDER
  {
    forall y <- Powers(n)
      ensures 0 < y <= ORDER
    {
      var t :| 0 <= t < n && Power(MULTIPLIER, t) == y;
      PowerNonzero(t);
    }
  }

  /** Every nonzero residue is a power of 48271. */
  lemma EveryResidue(x: nat) returns (t: nat)
    requires 0 < x < MODULUS
    ensures t < ORDER && Power(MULTIPLIER, t) == x
  {
    hide Power;
    PowersInRange(ORDER);
    PowersCount(ORDER);
    Pigeonhole(Powers(ORDER), ORDER);
    assert x in Powers(ORDER);
    t :| 0 <= t < ORDER && Power(MULTIPLIER, t) == x;
  }
}
