/** Finite sums of reals, and the few laws the probability and expert-sum proofs need.
    Laws are stated between named functions, so a caller never has to match a lambda. */
module RealSums {

  function Sum(n: nat, f: nat -> real): real {
    if n == 0 then 0.0 else Sum(n - 1, f) + f(n - 1)
  }

  /** Multiplication as a named function: lets proofs match products by congruence. */
  function Times(u: real, v: real): real { u * v }

  lemma TimesUnits(u: real)
    ensures Times(1.0, u) == u == Times(u, 1.0)
    ensures Times(0.0, u) == 0.0 == Times(u, 0.0)
    ensures Times(-1.0, u) == -u
  {}

  lemma TimesNonneg(u: real, v: real)
    requires u >= 0.0 && v >= 0.0
    ensures Times(u, v) >= 0.0
  {}

  lemma TimesLaws(a: real, b: real, c: real)
    ensures Times(a, b) == Times(b, a)
    ensures Times(Times(a, b), c) == Times(a, Times(b, c)) == Times(Times(a, c), b)
    ensures Times(a, c) + Times(b, c) == Times(a + b, c)
  {}

  lemma {:induction false} SumEq(n: nat, f: nat -> real, g: nat -> real)
    requires forall i: nat | i < n :: f(i) == g(i)
    ensures Sum(n, f) == Sum(n, g)
  {
    if n > 0 { SumEq(n - 1, f, g); }
  }

  /** Sums are linear: sum(a f + b g) = a sum f + b sum g. */
  lemma {:induction false} SumLinear(n: nat, a: real, f: nat -> real, b: real, g: nat -> real, h: nat -> real)
    requires forall i: nat | i < n :: h(i) == Times(a, f(i)) + Times(b, g(i))
    ensures Sum(n, h) == Times(a, Sum(n, f)) + Times(b, Sum(n, g))
  {
    if n > 0 { SumLinear(n - 1, a, f, b, g, h); }
  }

  lemma {:induction false} SumScale(n: nat, a: real, f: nat -> real, h: nat -> real)
    requires forall i: nat | i < n :: h(i) == Times(a, f(i))
    ensures Sum(n, h) == Times(a, Sum(n, f))
  {
    if n > 0 { SumScale(n - 1, a, f, h); }
  }

  lemma {:induction false} SumMono(n: nat, f: nat -> real, g: nat -> real)
    requires forall i: nat | i < n :: f(i) <= g(i)
    ensures Sum(n, f) <= Sum(n, g)
  {
    if n > 0 { SumMono(n - 1, f, g); }
  }

  lemma {:induction false} SumZero(n: nat, f: nat -> real)
    requires forall i: nat | i < n :: f(i) == 0.0
    ensures Sum(n, f) == 0.0
  {
    if n > 0 { SumZero(n - 1, f); }
  }

  /** A sum of non-negative terms is non-negative, and is zero only if every term is. */
  lemma {:induction false} SumNonneg(n: nat, f: nat -> real)
    requires forall i: nat | i < n :: f(i) >= 0.0
    ensures Sum(n, f) >= 0.0
    ensures Sum(n, f) == 0.0 ==> forall i: nat | i < n :: f(i) == 0.0
  {
    if n > 0 { SumNonneg(n - 1, f); }
  }

  /** A sum with at most one non-zero term is that term. */
  lemma {:induction false} SumSingle(n: nat, k: nat, f: nat -> real)
    requires k < n
    requires forall i: nat | i < n && i != k :: f(i) == 0.0
    ensures Sum(n, f) == f(k)
  {
    if k == n - 1 { SumZero(n - 1, f); } else { SumSingle(n - 1, k, f); }
  }
}
