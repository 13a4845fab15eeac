/**
 * Integer facts the unit loop of `ByteCountSI` relies on: powers of the unit,
 * and that dividing twice is dividing by the product.
 */
module Arith {
  function Pow(base: nat, e: nat): nat
  {
    if e == 0 then 1 else base * Pow(base, e - 1)
  }

  lemma MulAtLeast(m: int, p: int)
    requires m >= 1 && p >= 0
    ensures m * p >= p
  {
  }

  lemma {:induction false} PowMonotone(base: nat, e1: nat, e2: nat)
    requires base >= 1 && e1 <= e2
    ensures Pow(base, e1) <= Pow(base, e2)
    decreases e2
  {
    if e1 < e2 {
      PowMonotone(base, e1, e2 - 1);
      MulAtLeast(base, Pow(base, e2 - 1));
    }
  }

  lemma MulSmall(m: int, k: int)
    requires m > 0 && -m < m * k < m
    ensures k == 0
  {
  }

  lemma MulDistributes(m: int, x: int, y: int)
    ensures m * (x + y) == m * x + m * y
  {
  }

  lemma MulAssociates(x: int, y: int, z: int)
    ensures x * (y * z) == (x * y) * z
  {
  }

  lemma MulMonotone(m: int, x: int, y: int)
    requires m >= 0 && x <= y
    ensures m * x <= m * y
  {
    MulDistributes(m, x, y - x);
  }

  /** The quotient is determined by any decomposition with a remainder in range. */
  lemma DivUnique(b: int, m: int, q: int, r: int)
    requires m > 0 && 0 <= r < m && b == m * q + r
    ensures b / m == q
  {
    var q0, r0 := b / m, b % m;
    assert b == m * q0 + r0;
    MulDistributes(m, q - q0, q0);
    MulSmall(m, q - q0);
  }

  /** Two nested Euclidean decompositions make one by the product. */
  lemma DivDivFacts(b: int, d: int, c: int, q: int, r: int, q2: int, r2: int)
    requires d > 0 && c > 0
    requires b == d * q + r && 0 <= r < d
    requires q == c * q2 + r2 && 0 <= r2 < c
    ensures b == (d * c) * q2 + (d * r2 + r) && 0 <= d * r2 + r < d * c
  {
    MulDistributes(d, c * q2, r2);
    MulAssociates(d, c, q2);
    MulMonotone(d, r2, c - 1);
    MulDistributes(d, c - 1, 1);
  }

  /** Dividing twice is dividing by the product (for a non-negative dividend). */
  lemma DivDiv(b: int, d: int, c: int)
    requires b >= 0 && d > 0 && c > 0
    ensures b / d / c == b / (d * c)
  {
    var q, r := b / d, b % d;
    var q2, r2 := q / c, q % c;
    DivDivFacts(b, d, c, q, r, q2, r2);
    DivUnique(b, d * c, q2, d * r2 + r);
  }
}
