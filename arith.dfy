/** Integer facts shared by the field model and the Keccak padding arithmetic:
    Euclidean division by a positive divisor, congruences, and powers of two. */
module Arith {

  /** Division by a positive number has exactly one quotient and remainder. */
  lemma DivModUnique(a: int, d: int, q: int, r: int)
    requires d > 0 && a == q * d + r && 0 <= r < d
    ensures a / d == q && a % d == r
  {
    var q', r' := a / d, a % d;
    assert a == q' * d + r' && 0 <= r' < d;
    assert (q' - q) * d == r - r';
    if q' > q {
      MulAtLeast(q' - q, d);
    } else if q' < q {
      MulAtLeast(q - q', d);
    }
  }

  /** Quotient and remainder of a natural number by a positive one. */
  function DivMod(a: nat, d: nat): (qr: (nat, nat))
    requires d > 0
    ensures a == qr.0 * d + qr.1 && qr.1 < d
  {
    assert a == (a / d) * d + a % d;
    (a / d, a % d)
  }

  lemma MulAtLeast(k: int, d: int)
    requires k >= 1 && d > 0
    ensures k * d >= d
  {
    assert k * d == (k - 1) * d + d;
    assert (k - 1) * d >= 0;
  }

  /** Adding a multiple of the divisor does not change the remainder. */
  lemma ModAddMultiple(a: int, k: int, d: int)
    requires d > 0
    ensures (a + k * d) % d == a % d
  {
    assert a == (a / d) * d + a % d;
    assert a + k * d == (a / d + k) * d + a % d;
    DivModUnique(a + k * d, d, a / d + k, a % d);
  }

  /** Numbers already reduced are their own remainder. */
  lemma ModSmall(a: int, d: int)
    requires 0 <= a < d
    ensures a % d == a
  {
    DivModUnique(a, d, 0, a);
  }

  /** A multiple of d leaves remainder 0. */
  lemma ModMultiple(k: int, d: int)
    requires d > 0
    ensures (k * d) % d == 0
  {
    DivModUnique(k * d, d, k, 0);
  }

  /** Remainders agree exactly when the difference is a multiple. */
  lemma ModEqDiff(a: int, b: int, d: int)
    requires d > 0
    ensures a % d == b % d <==> (a - b) % d == 0
  {
    var qa, qb := a / d, b / d;
    assert a == qa * d + a % d && b == qb * d + b % d;
    assert a - b == (qa - qb) * d + (a % d - b % d);
    if a % d == b % d {
      DivModUnique(a - b, d, qa - qb, 0);
    } else if a % d > b % d {
      DivModUnique(a - b, d, qa - qb, a % d - b % d);
    } else {
      DivModUnique(a - b, d, qa - qb - 1, a % d - b % d + d);
    }
  }

  /** Reducing a factor before multiplying does not change the product's remainder. */
  lemma ModMulLeft(a: int, b: int, d: int)
    requires d > 0
    ensures ((a % d) * b) % d == (a * b) % d
  {
    var q := a / d;
    assert a == q * d + a % d;
    assert a * b == (a % d) * b + (q * b) * d by {
      assert a * b == (q * d + a % d) * b;
    }
    ModAddMultiple((a % d) * b, q * b, d);
  }

  lemma ModMulRight(a: int, b: int, d: int)
    requires d > 0
    ensures (a * (b % d)) % d == (a * b) % d
  {
    ModMulLeft(b, a, d);
    assert a * (b % d) == (b % d) * a && a * b == b * a;
  }

  /** Reducing a summand before adding does not change the sum's remainder. */
  lemma ModAddLeft(a: int, b: int, d: int)
    requires d > 0
    ensures ((a % d) + b) % d == (a + b) % d
  {
    assert a == (a / d) * d + a % d;
    ModAddMultiple((a % d) + b, a / d, d);
  }

  lemma ModAddRight(a: int, b: int, d: int)
    requires d > 0
    ensures (a + (b % d)) % d == (a + b) % d
  {
    ModAddLeft(b, a, d);
  }

  lemma ModSubLeft(a: int, b: int, d: int)
    requires d > 0
    ensures ((a % d) - b) % d == (a - b) % d
  {
    ModAddLeft(a, -b, d);
  }

  lemma ModSubRight(a: int, b: int, d: int)
    requires d > 0
    ensures (a - (b % d)) % d == (a - b) % d
  {
    assert b == (b / d) * d + b % d;
    assert a - b + (b / d) * d == a - (b % d);
    ModAddMultiple(a - b, b / d, d);
  }

  // ---------------------------------------------------------------------
  // Powers of two

  function Pow2(n: nat): (r: nat)
    ensures r >= 1
  {
    if n == 0 then 1 else 2 * Pow2(n - 1)
  }

  lemma {:induction false} Pow2Add(a: nat, b: nat)
    ensures Pow2(a + b) == Pow2(a) * Pow2(b)
  {
    if a > 0 {
      Pow2Add(a - 1, b);
      assert Pow2(a + b) == 2 * Pow2(a - 1 + b);
    }
  }

  lemma {:induction false} Pow2Monotone(a: nat, b: nat)
    requires a <= b
    ensures Pow2(a) <= Pow2(b)
  {
    if a < b {
      Pow2Monotone(a, b - 1);
    }
  }
}
