/** Products and quotients of naturals, in the few forms the index arithmetic needs. */
module IntMath {

  function Min(a: int, b: int): (m: int)
    ensures m <= a && m <= b && (m == a || m == b)
  {
    if a <= b then a else b
  }

  function Max(a: int, b: int): (m: int)
    ensures m >= a && m >= b && (m == a || m == b)
  {
    if a >= b then a else b
  }

  function Quotient(a: nat, b: nat): (q: nat)
    requires b > 0
    ensures q * b <= a < q * b + b
  {
    a / b
  }

  lemma MulSign(k: int, d: nat)
    ensures k <= 0 ==> k * d <= 0
    ensures k >= 0 ==> k * d >= 0
    ensures k >= 1 ==> k * d >= d
  {
    if k <= 0 { assert (-k) * d >= 0; }
    if k >= 1 { assert (k - 1) * d >= 0; }
  }

  /** A quotient is the only number whose multiple fits. */
  lemma QuotientIs(a: nat, b: nat, q: nat)
    requires b > 0 && q * b <= a < q * b + b
    ensures Quotient(a, b) == q
  {
    var r := Quotient(a, b);
    MulSign(r - q, b);
    MulSign(q - r, b);
    assert (r - q) * b == r * b - q * b && (q - r) * b == q * b - r * b;
  }

  lemma QuotientMono(a: nat, b: nat, d: nat)
    requires a <= b && d > 0
    ensures Quotient(a, d) <= Quotient(b, d)
  {
    var x, y := Quotient(a, d), Quotient(b, d);
    MulSign(x - y, d);
    assert (x - y) * d == x * d - y * d;
  }

  lemma MulMono(a: nat, b: nat, d: nat)
    requires a <= b
    ensures a * d <= b * d
  {
    MulSign(b - a, d);
    assert (b - a) * d == b * d - a * d;
  }

  /** Multiplication as a named function, for proofs that only need its steps. */
  function Mul(a: nat, b: nat): nat { a * b }

  lemma MulStep(a: nat, k: nat, b: nat)
    requires a < k
    ensures Mul(a + 1, b) == Mul(a, b) + b <= Mul(k, b)
    ensures Mul(0, b) == 0
  {
    MulMono(a + 1, k, b);
  }
}
