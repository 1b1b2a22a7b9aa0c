/** Why the screen's bounds hold (adapter/cert_head.py): group-wise Cauchy-Schwarz on the residual of
    the low-precision copy, an assumed accumulation error, inflation factors, and monotone rounding.
    A weight row is split into NG groups of G columns; w(g)(i) is column i of group g. */
module CertBound {
  import opened RealSums
  import opened CertHead

  type Row = nat -> (nat -> real)

  function Prod(a: nat -> real, b: nat -> real): nat -> real { (i: nat) => Times(a(i), b(i)) }
  function Diff(a: nat -> real, b: nat -> real): nat -> real { (i: nat) => a(i) - b(i) }
  function Dot(G: nat, a: nat -> real, b: nat -> real): real { Sum(G, Prod(a, b)) }

  function RowDot(NG: nat, G: nat, w: Row, x: Row): real { Sum(NG, (g: nat) => Dot(G, w(g), x(g))) }

  function Abs(x: real): real { if x >= 0.0 then x else -x }

  lemma Squares(x: real, y: real)
    requires y >= 0.0 && Times(x, x) <= Times(y, y)
    ensures Abs(x) <= y
  {
    hide Times;
    var a := Abs(x);
    Signs(a - y, a + y);
    DifferenceOfSquares(a, y);
    DifferenceOfSquares(a, x);
    TimesUnits(a + x);
  }

  lemma DifferenceOfSquares(a: real, y: real)
    ensures Times(a - y, a + y) == Times(a, a) - Times(y, y)
    ensures a == -y ==> Times(a, a) == Times(y, y)
  {}

  lemma Signs(p: real, q: real)
    ensures p > 0.0 && q > 0.0 ==> Times(p, q) > 0.0
    ensures Times(p, p) >= 0.0
  {}

  lemma {:induction false} DotSelf(G: nat, a: nat -> real)
    ensures Dot(G, a, a) >= 0.0
  {
    forall i: nat | i < G ensures Prod(a, a)(i) >= 0.0 { Signs(a(i), 0.0); }
    SumNonneg(G, Prod(a, a));
  }

  /** (a . b)^2 <= (a . a)(b . b). */
  lemma {:induction false} CauchySchwarz(G: nat, a: nat -> real, b: nat -> real)
    ensures Times(Dot(G, a, b), Dot(G, a, b)) <= Times(Dot(G, a, a), Dot(G, b, b))
  {
    if G > 0 {
      CauchySchwarz(G - 1, a, b);
      DotSelf(G - 1, a);
      DotSelf(G - 1, b);
      CauchyStep(Dot(G - 1, a, b), Dot(G - 1, a, a), Dot(G - 1, b, b), a(G - 1), b(G - 1));
    }
  }

  lemma CauchyStep(s: real, A: real, B: real, p: real, q: real)
    requires A >= 0.0 && B >= 0.0 && Times(s, s) <= Times(A, B)
    ensures Times(s + Times(p, q), s + Times(p, q)) <= Times(A + Times(p, p), B + Times(q, q))
  {
    var u, v := A * q * q, B * p * p;
    assert u >= 0.0 && v >= 0.0;
    Cross(s, A, B, p, q);
    assert 2.0 * (s * p * q) <= u + v;
    assert (s + p * q) * (s + p * q) == s * s + 2.0 * (s * p * q) + (p * q) * (p * q);
    assert (A + p * p) * (B + q * q) == A * B + u + v + (p * q) * (p * q);
  }

  lemma Cross(s: real, A: real, B: real, p: real, q: real)
    requires A >= 0.0 && B >= 0.0 && Times(s, s) <= Times(A, B)
    ensures 2.0 * (s * p * q) <= A * q * q + B * p * p
  {
    var u, v, c := A * q * q, B * p * p, s * p * q;
    var e := p * q;
    assert u >= 0.0 && v >= 0.0;
    assert u * v == (A * B) * (e * e) && c * c == (s * s) * (e * e);
    assert e * e >= 0.0;
    assert (A * B - s * s) * (e * e) >= 0.0;
    assert c * c <= u * v;
    assert (u + v) * (u + v) - 4.0 * (u * v) == (u - v) * (u - v) >= 0.0;
    Squares(2.0 * c, u + v);
  }

  /** R bounds the residual's norm and X the input's, group by group. */
  ghost predicate NormsBound(NG: nat, G: nat, w: Row, d: Row, x: Row, R: nat -> real, X: nat -> real) {
    forall g: nat | g < NG ::
      && R(g) >= 0.0 && Dot(G, Diff(w(g), d(g)), Diff(w(g), d(g))) <= Times(R(g), R(g))
      && X(g) >= 0.0 && Dot(G, x(g), x(g)) <= Times(X(g), X(g))
  }

  lemma GroupError(G: nat, w: nat -> real, d: nat -> real, x: nat -> real, R: real, X: real)
    requires R >= 0.0 && Dot(G, Diff(w, d), Diff(w, d)) <= Times(R, R)
    requires X >= 0.0 && Dot(G, x, x) <= Times(X, X)
    ensures Abs(Dot(G, w, x) - Dot(G, d, x)) <= Times(R, X)
  {
    var r := Diff(w, d);
    forall i: nat | i < G ensures Prod(w, x)(i) == Times(1.0, Prod(d, x)(i)) + Times(1.0, Prod(r, x)(i)) {
      assert w(i) * x(i) == d(i) * x(i) + (w(i) - d(i)) * x(i);
    }
    SumLinear(G, 1.0, Prod(d, x), 1.0, Prod(r, x), Prod(w, x));
    CauchySchwarz(G, r, x);
    DotSelf(G, r);
    DotSelf(G, x);
    ProductBound(Dot(G, r, r), Times(R, R), Dot(G, x, x), Times(X, X));
    assert Times(Times(R, R), Times(X, X)) == Times(Times(R, X), Times(R, X));
    assert Times(R, X) >= 0.0;
    Squares(Dot(G, r, x), Times(R, X));
  }

  lemma ProductBound(a: real, A: real, b: real, B: real)
    requires 0.0 <= a <= A && 0.0 <= b <= B
    ensures Times(a, b) <= Times(A, B)
  {
    assert (A - a) * b >= 0.0 && A * (B - b) >= 0.0;
  }

  lemma {:induction false} ScreenError(NG: nat, G: nat, w: Row, d: Row, x: Row, R: nat -> real, X: nat -> real)
    requires NormsBound(NG, G, w, d, x, R, X)
    ensures Abs(RowDot(NG, G, w, x) - RowDot(NG, G, d, x)) <= Sum(NG, Prod(R, X))
  {
    var W := (g: nat) => Dot(G, w(g), x(g));
    var D := (g: nat) => Dot(G, d(g), x(g));
    for n := 0 to NG
      invariant Abs(Sum(n, W) - Sum(n, D)) <= Sum(n, Prod(R, X))
    {
      GroupError(G, w(n), d(n), x(n), R(n), X(n));
      assert W(n) == Dot(G, w(n), x(n)) && D(n) == Dot(G, d(n), x(n)) && Prod(R, X)(n) == Times(R(n), X(n));
    }
  }

  /** Stock and screen accumulations, each within c N ||x|| of the exact dot product, differ by at
      most sum_g R_g X_g + 2 c N ||x||. */
  lemma AccumulationGap(NG: nat, G: nat, w: Row, d: Row, x: Row, R: nat -> real, X: nat -> real, stock: real,
          screen: real, e: real)
    requires NormsBound(NG, G, w, d, x, R, X)
    requires Abs(stock - RowDot(NG, G, w, x)) <= e && Abs(screen - RowDot(NG, G, d, x)) <= e
    ensures Abs(stock - screen) <= Sum(NG, Prod(R, X)) + 2.0 * e
  {
    ScreenError(NG, G, w, d, x, R, X);
  }

  /* ------------------------------------------------------------------------- rounded bounds */

  const INFL_Q: real := 1.0 + 1.0 / 262144.0
  const INFL_B: real := 1.0 + 1.0 / 1048576.0
  const SLOP_REL: real := 1.0 / 4194304.0

  ghost predicate Monotone(rn: real -> Val) {
    && (forall a, b | a <= b :: Le(rn(a), rn(b)))
    && (forall a :: !rn(a).NaN?)
  }

  /** B of reference_bounds: qb is the sum of R_g ||x_g||, acc2 is 2 c_acc N_v ||x||. */
  function Bound(qb: real, acc2: real): real { (qb * INFL_Q + acc2) * INFL_B }

  function Slop(screen: real, B: real, abs: real): real { (Abs(screen) + B) * SLOP_REL + abs }

  /** The bounds of one token: infinite when the accumulation or B is not finite (None). */
  function TokenBounds(rn: real -> Val, screen: real, B: real, finite: bool, abs: real): (Val, Val) {
    if !finite then (NegInf, PosInf)
    else (rn(screen - B - Slop(screen, B, abs)), rn(screen + B + Slop(screen, B, abs)))
  }

  /** Any monotone rounding keeps the rounded stock logit between the rounded bounds. */
  lemma TokenCertified(NG: nat, G: nat, w: Row, d: Row, x: Row, R: nat -> real, X: nat -> real, rn: real -> Val,
          stock: real, screen: real, e: real, acc2: real, finite: bool, abs: real)
    requires Monotone(rn) && abs >= 0.0
    requires finite ==>
      && NormsBound(NG, G, w, d, x, R, X)
      && Abs(stock - RowDot(NG, G, w, x)) <= e && Abs(screen - RowDot(NG, G, d, x)) <= e
      && 2.0 * e <= acc2
    ensures var (lo, hi) := TokenBounds(rn, screen, Bound(Sum(NG, Prod(R, X)), acc2), finite, abs);
            !lo.NaN? && !hi.NaN? && Le(lo, rn(stock)) && Le(rn(stock), hi)
  {
    if finite {
      hide Times, RowDot, Dot;
      var qb := Sum(NG, Prod(R, X));
      AccumulationGap(NG, G, w, d, x, R, X, stock, screen, e);
      forall g: nat | g < NG ensures Prod(R, X)(g) >= 0.0 { TimesNonneg(R(g), X(g)); }
      SumNonneg(NG, Prod(R, X));
      assert e >= 0.0;
      Inflated(qb, acc2);
      var B := Bound(qb, acc2);
      assert Slop(screen, B, abs) >= 0.0;
      assert screen - B - Slop(screen, B, abs) <= stock <= screen + B + Slop(screen, B, abs);
    }
  }

  /** Nor are finite bounds wider than the inflation makes them: 2^-17 of the error terms, 2^-22 of the value itself. */
  lemma BoundsTight(rn: real -> Val, screen: real, qb: real, acc2: real, abs: real) returns (d: real)
    requires qb >= 0.0 && acc2 >= 0.0 && abs >= 0.0
    ensures TokenBounds(rn, screen, Bound(qb, acc2), true, abs) == (rn(screen - d), rn(screen + d))
    ensures d >= 0.0
    ensures d <= (qb + acc2) * (1.0 + 1.0 / 131072.0) + (if screen >= 0.0 then screen else -screen) / 4194304.0 + abs
  {
    var B := Bound(qb, acc2);
    d := B + Slop(screen, B, abs);
  }

  lemma Inflated(qb: real, acc2: real)
    requires qb >= 0.0 && acc2 >= 0.0
    ensures Bound(qb, acc2) >= qb + acc2
  {}
}
