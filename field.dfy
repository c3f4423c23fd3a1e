/**
 * The field the circuit computes over. The builder is generic over any type with
 * zero, one, addition, negation and multiplication; this model fixes the prime
 * field of integers modulo 251 (the field the builder's documentation uses).
 */
module Field {
  /** A field element, kept in canonical form. */
  type Fe = x: int | 0 <= x < 251

  const Zero: Fe := 0
  const One: Fe := 1

  function Add(a: Fe, b: Fe): Fe { (a + b) % 251 }

  function Neg(a: Fe): Fe { if a == 0 then 0 else 251 - a }

  function Mul(a: Fe, b: Fe): Fe { (a * b) % 251 }

  function Sub(a: Fe, b: Fe): Fe { Add(a, Neg(b)) }

  /** Multiplying by minus one negates. */
  lemma MulMinusOne(a: Fe)
    ensures Mul(Neg(One), a) == Neg(a)
  {
    if a != 0 {
      assert 250 * a == 251 * (a - 1) + (251 - a);
    }
  }

  /** One is the multiplicative identity and zero the additive one. */
  lemma Identities(a: Fe)
    ensures Mul(One, a) == a && Mul(a, One) == a && Add(Zero, a) == a && Add(a, Zero) == a
  {
  }

  /** Addition is commutative and associative. */
  lemma AddAC(a: Fe, b: Fe, c: Fe)
    ensures Add(a, b) == Add(b, a)
    ensures Add(Add(a, b), c) == Add(a, Add(b, c))
  {
    AddCases(a, b);
    AddCases(Add(a, b), c);
    AddCases(b, c);
    AddCases(a, Add(b, c));
  }

  /** A sum of two residues wraps at most once. */
  lemma AddCases(a: Fe, b: Fe)
    ensures Add(a, b) == if a + b < 251 then a + b else a + b - 251
  {
  }

  /** 251 has no divisor between 2 and 250. */
  lemma Prime251(d: int)
    requires 2 <= d < 251
    ensures 251 % d != 0
  {
    if d < 16 {
      assert d == 2 || d == 3 || d == 4 || d == 5 || d == 6 || d == 7 || d == 8 || d == 9
        || d == 10 || d == 11 || d == 12 || d == 13 || d == 14 || d == 15;
    }
  }

  /** Euclid's lemma for 251: if 251 divides a * b and not a, it divides b. */
  lemma {:induction false} Euclid251(a: nat, b: nat)
    requires 0 < a < 251 && (a * b) % 251 == 0
    ensures b % 251 == 0
    decreases a
  {
    if a > 1 {
      var q := 251 / a;
      var r := 251 % a;
      Prime251(a);
      var k := (a * b) / 251;
      assert a * b == 251 * k;
      assert r * b == 251 * b - q * (a * b) by {
        assert 251 == q * a + r;
        assert 251 * b == (q * a + r) * b == q * (a * b) + r * b;
      }
      assert r * b == 251 * (b - q * k);
      Euclid251(r, b);
    }
  }

  /** The only roots of x * (x - 1) are 0 and 1. */
  lemma BitRoots(a: Fe)
    ensures Mul(a, Sub(a, One)) == Zero <==> a == Zero || a == One
  {
    if a >= 2 {
      assert Sub(a, One) == a - 1;
      if Mul(a, Sub(a, One)) == Zero {
        Euclid251(a, a - 1);
      }
    }
  }
}
