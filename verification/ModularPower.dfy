/** Multiplication and powers modulo 2^31 - 1, the arithmetic of the tail
    generator. */
module ModularPower {

  const MODULUS: nat := 0x7FFFFFFF
  const MULTIPLIER: nat := 0xBC8F
  const INVERSE: nat := 1899818559
  const ORDER: nat := 0x7FFFFFFE

  function Times(a: nat, b: nat): nat {
    (a * b) % MODULUS
  }

  function Power(g: nat, k: nat): nat {
    if k == 0 then 1 else Times(Power(g, k - 1), g)
  }

  lemma ModTimes(a: nat, b: nat)
    ensures ((a % MODULUS) * b) % MODULUS == (a * b) % MODULUS
  {
    var q := a / MODULUS;
    assert a == q * MODULUS + a % MODULUS;
    assert a * b == (q * b) * MODULUS + (a % MODULUS) * b;
    MultipleVanishes(q * b, (a % MODULUS) * b);
  }

  lemma TimesReduces(a: nat, b: nat)
    ensures Times(a, b) < MODULUS && Times(a % MODULUS, b) == Times(a, b) == Times(a, b) % MODULUS
  {
    ModTimes(a, b);
  }

  lemma MultipleVanishes(q: nat, r: nat)
    ensures (q * MODULUS + r) % MODULUS == r % MODULUS
  {
    var s := r / MODULUS;
    assert q * MODULUS + r == (q + s) * MODULUS + r % MODULUS;
  }

  lemma TimesAssociates(a: nat, b: nat, c: nat)
    ensures Times(Times(a, b), c) == Times(a, Times(b, c))
  {
    ModTimes(a * b, c);
    ModTimes(b * c, a);
    assert a * b * c == (b * c) * a;
    assert Times(b, c) * a == a * Times(b, c);
  }

  lemma {:induction false} PowerSum(g: nat, a: nat, b: nat)
    ensures Power(g, a + b) == Times(Power(g, a), Power(g, b))
  {
    if b == 0 {
      PowerReduced(g, a);
    } else {
      PowerSum(g, a, b - 1);
      TimesAssociates(Power(g, a), Power(g, b - 1), g);
    }
  }

  lemma PowerReduced(g: nat, a: nat)
    ensures Power(g, a) < MODULUS && Times(Power(g, a), 1) == Power(g, a)
  {}

  lemma InverseCancels()
    ensures Times(MULTIPLIER, INVERSE) == 1
  {}

  /** Exponents at which the generator returns to one. */
  predicate Returns(k: nat) {
    Power(MULTIPLIER, k) == 1
  }
}
