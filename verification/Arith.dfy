/** The few facts about multiplication and division by a variable that the
    layout arithmetic needs. */
module Arith {

  lemma MulOrder(a: int, b: int, p: nat)
    requires a <= b
    ensures a * p <= b * p
  {
    assert 0 <= (b - a) * p;
  }

  lemma Euclid(x: nat, d: nat)
    requires d > 0
    ensures x == (x / d) * d + x % d && x % d < d
  {
  }

  lemma QuotientUnique(d: nat, q1: int, r1: nat, q2: int, r2: nat)
    requires r1 < d && r2 < d && q1 * d + r1 == q2 * d + r2
    ensures q1 == q2 && r1 == r2
  {
    assert (q1 + 1) * d == q1 * d + d;
    assert (q2 + 1) * d == q2 * d + d;
    if q1 < q2 {
      MulOrder(q1 + 1, q2, d);
    } else if q2 < q1 {
      MulOrder(q2 + 1, q1, d);
    }
  }

  lemma DivUnique(x: nat, d: nat, q: nat, r: nat)
    requires r < d && x == q * d + r
    ensures x / d == q && x % d == r
  {
    Euclid(x, d);
    QuotientUnique(d, x / d, x % d, q, r);
  }

  lemma DivBelow(x: nat, d: nat, m: nat)
    requires d > 0
    ensures x / d < m <==> x < m * d
  {
    Euclid(x, d);
    if x / d < m {
      MulOrder(x / d + 1, m, d);
      assert (x / d + 1) * d == (x / d) * d + d;
    } else {
      MulOrder(m, x / d, d);
    }
  }

  lemma DivOrder(x: nat, y: nat, d: nat)
    requires x <= y && d > 0
    ensures x / d <= y / d
  {
    Euclid(x, d);
    DivBelow(y, d, x / d);
  }

  /** Division by a product is division by one factor and then the other. */
  lemma DivDiv(x: nat, a: nat, b: nat)
    requires a > 0 && b > 0
    ensures a * b > 0 && x / (a * b) == x / b / a
  {
    var q := x / b;
    Euclid(x, b);
    Euclid(q, a);
    var r := (q % a) * b + x % b;
    MulOrder(q % a + 1, a, b);
    assert (q % a + 1) * b == (q % a) * b + b;
    assert q * b == ((q / a) * a + q % a) * b == (q / a) * (a * b) + (q % a) * b;
    DivUnique(x, a * b, q / a, r);
  }

  /** Rounding up: the least number of pieces of size `d` that hold `x`. */
  function CeilDiv(x: nat, d: nat): nat
    requires d > 0
  {
    (x + d - 1) / d
  }

  lemma CeilDivIsLeast(x: nat, d: nat, m: nat)
    requires d > 0
    ensures CeilDiv(x, d) <= m <==> x <= m * d
  {
    DivBelow(x + d - 1, d, m + 1);
    assert (m + 1) * d == m * d + d;
  }

  /** Quotient and remainder by repeated subtraction. They agree with `/` and `%`
      but, being recursive, keep division out of proofs that do not need it. */
  function Quot(x: nat, d: nat): nat
    requires d > 0
  {
    if x < d then 0 else 1 + Quot(x - d, d)
  }

  function Rem(x: nat, d: nat): (r: nat)
    requires d > 0
    ensures r < d
  {
    if x < d then x else Rem(x - d, d)
  }

  lemma {:induction false} QuotRem(x: nat, d: nat)
    requires d > 0
    ensures Quot(x, d) == x / d && Rem(x, d) == x % d
  {
    if x < d {
      DivUnique(x, d, 0, x);
    } else {
      QuotRem(x - d, d);
      Euclid(x - d, d);
      assert ((x - d) / d + 1) * d == ((x - d) / d) * d + d;
      DivUnique(x, d, (x - d) / d + 1, (x - d) % d);
    }
  }

  lemma {:induction false} QuotStep(x: nat, d: nat)
    requires d > 0
    ensures Quot(x + 1, d) <= Quot(x, d) + 1
  {
    if x >= d { QuotStep(x - d, d); }
  }
}
