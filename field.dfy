/** The prime field F_p that the blueprint components compute over.
    An element is an integer in [0, p); every operation returns a reduced element.
    The field's own implementation is an external dependency of the blueprint library;
    here it is given concretely so that inversion and the absence of zero divisors
    can be proved rather than assumed. */
module PrimeField {
  import opened Arith

  predicate Divides(d: int, n: int)
    requires d > 0
  {
    n % d == 0
  }

  ghost predicate IsPrime(p: int)
  {
    p >= 2 && forall d :: 2 <= d < p ==> !Divides(d, p)
  }

  predicate InField(p: int, a: int)
  {
    0 <= a < p
  }

  function Add(p: int, a: int, b: int): (r: int)
    requires p > 0
    ensures InField(p, r)
  {
    (a + b) % p
  }

  function Sub(p: int, a: int, b: int): (r: int)
    requires p > 0
    ensures InField(p, r)
  {
    (a - b) % p
  }

  function Mul(p: int, a: int, b: int): (r: int)
    requires p > 0
    ensures InField(p, r)
  {
    (a * b) % p
  }

  /** Extended Euclid: g divides both a and b (with cofactors qa, qb) and a*x + b*y == g. */
  function Egcd(a: nat, b: nat): (r: (nat, int, int, int, int))
    ensures var (g, x, y, qa, qb) := r; a * x + b * y == g && a == qa * g && b == qb * g
    decreases b
  {
    if b == 0 then (a, 1, 0, 1, 0)
    else
      var (g, x, y, qb, qm) := Egcd(b, a % b);
      var k := a / b;
      assert a == k * b + a % b;
      EgcdStep(a, b, k, a % b, g, x, y, qb, qm);
      (g, y, x - k * y, k * qb + qm, qb)
  }

  /** One step of extended Euclid on plain numbers: from `a = k * b + m` and the
      Bezout identity and cofactors for `(b, m)`, those for `(a, b)`. */
  lemma EgcdStep(a: int, b: int, k: int, m: int, g: int, x: int, y: int, qb: int, qm: int)
    requires a == k * b + m && b * x + m * y == g && b == qb * g && m == qm * g
    ensures a * y + b * (x - k * y) == g && a == (k * qb + qm) * g
  {
    assert a * y == k * b * y + m * y;
    assert k * b == k * qb * g;
  }

  /** Every nonzero element of a prime field has a multiplicative inverse. */
  function Inverse(p: int, a: int): (r: int)
    requires IsPrime(p) && 0 < a < p
    ensures 0 < r < p && Mul(p, a, r) == 1
  {
    var (g, x, y, qa, qp) := Egcd(a, p);
    BezoutCoprime(p, a, g, qa, qp);
    var r := x % p;
    calc {
      (a * r) % p;
      { ModMulRight(a, x, p); }
      (a * x) % p;
      { ModAddMultiple(a * x, y, p); assert a * x + y * p == 1; }
      1 % p;
      { ModSmall(1, p); }
      1;
    }
    r
  }

  /** The only common divisor of p and an element 0 < a < p is 1. */
  lemma BezoutCoprime(p: int, a: int, g: nat, qa: int, qp: int)
    requires IsPrime(p) && 0 < a < p
    requires a == qa * g && p == qp * g
    ensures g == 1
  {
    assert g != 0;
    if g >= 2 {
      assert qa >= 1 by {
        if qa <= 0 { MulNonPositive(qa, g); }
      }
      assert g <= a by { MulAtLeast(qa, g); assert qa * g == g * qa; }
      ModMultiple(qp, g);
      assert Divides(g, p);
      assert false;
    }
  }

  lemma MulNonPositive(k: int, d: int)
    requires k <= 0 && d >= 0
    ensures k * d <= 0
  {
  }

  // ---------------------------------------------------------------------
  // Field laws used by the circuit proofs

  /** Two reduced elements are equal exactly when their difference is 0. */
  lemma SubZero(p: int, a: int, b: int)
    requires p > 0 && InField(p, a) && InField(p, b)
    ensures Sub(p, a, b) == 0 <==> a == b
  {
    ModEqDiff(a, b, p);
    ModSmall(a, p);
    ModSmall(b, p);
  }

  /** A prime field has no zero divisors. */
  lemma NoZeroDivisors(p: int, a: int, b: int)
    requires IsPrime(p) && InField(p, a) && InField(p, b)
    requires Mul(p, a, b) == 0
    ensures a == 0 || b == 0
  {
    if a != 0 {
      var i := Inverse(p, a);
      assert Mul(p, i, a) == 1 by { assert i * a == a * i; }
      MulAssociative(p, i, a, b);
      MulOne(p, b);
      MulZero(p, i);
    }
  }

  /** Multiplication in the field is associative. */
  lemma MulAssociative(p: int, a: int, b: int, c: int)
    requires p > 0
    ensures Mul(p, Mul(p, a, b), c) == Mul(p, a, Mul(p, b, c))
  {
    ModMulLeft(a * b, c, p);
    ModMulRight(a, b * c, p);
    assert (a * b) * c == a * (b * c);
  }

  /** The inverse is the only element whose product with a is 1. */
  lemma InverseUnique(p: int, a: int, b: int)
    requires IsPrime(p) && 0 < a < p && InField(p, b)
    requires Mul(p, a, b) == 1
    ensures b == Inverse(p, a)
  {
    var i := Inverse(p, a);
    ModEqDiff(a * b, a * i, p);
    assert a * b - a * i == a * (b - i);
    ModMulRight(a, b - i, p);
    NoZeroDivisors(p, a, Sub(p, b, i));
    SubZero(p, b, i);
  }

  /** Multiplying by 1 and by 0. */
  lemma MulOne(p: int, a: int)
    requires p > 0 && InField(p, a)
    ensures Mul(p, a, 1) == a && Mul(p, 1, a) == a
  {
    ModSmall(a, p);
  }

  lemma MulZero(p: int, a: int)
    requires p > 0
    ensures Mul(p, a, 0) == 0 && Mul(p, 0, a) == 0
  {
  }
}
