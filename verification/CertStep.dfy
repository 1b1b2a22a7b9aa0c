/** What the consumers of the verify logits see (adapter/cert_head.py), from tables to argmax. */
module CertStep {
  import opened Options
  import opened RealSums
  import opened CertHead
  import opened CertBound
  import opened CertTables
  import opened CertBuffers

  /** What the screen knows about one token of one row. */
  datatype Evidence = Evidence(w: Row, d: Row, x: Row, R: nat -> real, X: nat -> real, stock: real, screen: real,
          e: real, acc2: real, finite: bool, logit: Val)

  ghost predicate Sound(v: Evidence, NG: nat, G: nat, rn: real -> Val) {
    v.finite ==>
      && NormsBound(NG, G, v.w, v.d, v.x, v.R, v.X)
      && Abs(v.stock - RowDot(NG, G, v.w, v.x)) <= v.e && Abs(v.screen - RowDot(NG, G, v.d, v.x)) <= v.e
      && 2.0 * v.e <= v.acc2 && v.logit == rn(v.stock)
  }

  /** Token u of row m has the logit and the bounds of sound evidence. */
  ghost predicate Certifies(sh: Shard, m: nat, u: nat, v: Evidence, NG: nat, G: nat, rn: real -> Val, abs: real)
    requires m < |sh.logits| == |sh.lo| == |sh.hi| && u < |sh.logits[m]| == |sh.lo[m]| == |sh.hi[m]|
  {
    && Sound(v, NG, G, rn) && sh.logits[m][u] == v.logit
    && (sh.lo[m][u], sh.hi[m][u])
       == TokenBounds(rn, v.screen, CertBound.Bound(Sum(NG, Prod(v.R, v.X)), v.acc2), v.finite, abs)
  }

  /** Bounds computed from sound tables certify a shard, stop ids aside. */
  lemma TablesCertify(sh: Shard, stops: set<int>, M: nat, NG: nat, G: nat, rn: real -> Val, abs: real,
          ev: (nat, nat) -> Evidence)
    requires Shaped(sh, M) && Monotone(rn) && abs >= 0.0
    requires forall m: nat, u: nat | m < M && u < sh.V :: Certifies(sh, m, u, ev(m, u), NG, G, rn, abs)
    ensures Certified(sh, stops, M)
  {
    forall m: nat, u: nat | m < M && u < sh.V
      ensures !sh.lo[m][u].NaN? && !sh.hi[m][u].NaN?
      ensures Le(sh.lo[m][u], sh.logits[m][u]) && (sh.hi[m][u].PosInf? || Le(sh.logits[m][u], sh.hi[m][u]))
    {
      var v := ev(m, u);
      assert Certifies(sh, m, u, v, NG, G, rn, abs);
      TokenCertified(NG, G, v.w, v.d, v.x, v.R, v.X, rn, v.stock, v.screen, v.e, v.acc2, v.finite, abs);
    }
  }

  /* ------------------------------------------------------------------ from the tables on */

  /** c_acc: the assumed accumulation error of K products, per unit of the two norms. */
  function CAcc(K: nat): (c: real)
    ensures c * 134217728.0 == (17 * K) as real
  {
    (K as real) / 16.0 * 17.0 / 8388608.0
  }

  /** One step on one rank: the inputs of its rows, the arithmetic of xnorm (an inflated square root and an
      added constant), and what stock and screen accumulate; None is not finite. */
  datatype Screen = Screen(x: nat -> Row, root: real -> real, pad: real, rn: real -> Val, abs: real,
          stock: (nat, nat) -> real, screen: (nat, nat) -> Option<real>)

  ghost predicate Arithmetic(k: Screen) {
    && (forall s: real | s >= 0.0 :: k.root(s) >= 0.0 && Times(k.root(s), k.root(s)) >= s)
    && k.pad >= 0.0 && k.abs >= 0.0 && Monotone(k.rn)
  }

  /** xg and xn of reference_bounds. */
  function GroupNorms(k: Screen, G: nat, m: nat): nat -> real {
    (g: nat) => k.root(Dot(G, k.x(m)(g), k.x(m)(g))) + k.pad
  }

  function RowNorm(k: Screen, NG: nat, G: nat, m: nat): real {
    k.root(Sum(NG, Prod(GroupNorms(k, G, m), GroupNorms(k, G, m))))
  }

  /** They are at least the norms they stand for. */
  lemma InputNorms(k: Screen, NG: nat, G: nat, m: nat)
    requires Arithmetic(k)
    ensures forall g: nat | g < NG ::
              var X := GroupNorms(k, G, m)(g); X >= 0.0 && Dot(G, k.x(m)(g), k.x(m)(g)) <= Times(X, X)
    ensures var n := RowNorm(k, NG, G, m); n >= 0.0 && Square(NG, G, k.x(m)) <= Times(n, n)
  {
    hide Times, Dot;
    var X := GroupNorms(k, G, m);
    var own := (g: nat) => Dot(G, k.x(m)(g), k.x(m)(g));
    forall g: nat | g < NG ensures X(g) >= 0.0 && own(g) <= Prod(X, X)(g) && Prod(X, X)(g) == Times(X(g), X(g)) {
      DotSelf(G, k.x(m)(g));
      Grows(k.root(own(g)), X(g));
    }
    SumMono(NG, own, Prod(X, X));
    SquareNonneg(NG, G, k.x(m));
  }

  /** An accumulation of w . x, w being the weight row of token v or its copy, is off by at most c N_v ||x||:
      squared, so that it speaks of the norms themselves. */
  ghost predicate Accumulates(h: Head, v: nat, w: Row, x: Row, acc: real) {
    var err, c := acc - RowDot(h.NG, h.G, w, x), CAcc(h.NG * h.G);
    Times(err, err) <= Times(Times(c, c), Times(Larger(Square(h.NG, h.G, h.w(v)), Square(h.NG, h.G, h.d(v))),
                                                Square(h.NG, h.G, x)))
  }

  /** The table's row norm and the computed input norm then bound the error. */
  lemma AccumulationBound(h: Head, v: nat, w: Row, x: Row, acc: real, n: real, xn: real)
    requires Accumulates(h, v, w, x, acc) && BoundsRow(h, v, n) && xn >= 0.0 && Square(h.NG, h.G, x) <= Times(xn, xn)
    ensures Abs(acc - RowDot(h.NG, h.G, w, x)) <= Times(CAcc(h.NG * h.G), Times(xn, n))
  {
    hide Square, RowDot, CAcc, Times;
    var c, N := CAcc(h.NG * h.G), Larger(Square(h.NG, h.G, h.w(v)), Square(h.NG, h.G, h.d(v)));
    var bound := Times(c, Times(xn, n));
    CAccNonneg(h.NG * h.G);
    SquareNonneg(h.NG, h.G, x);
    SquareNonneg(h.NG, h.G, h.w(v));
    Signs(c, c);
    ProductBound(N, Times(n, n), Square(h.NG, h.G, x), Times(xn, xn));
    TimesNonneg(N, Square(h.NG, h.G, x));
    ProductBound(Times(c, c), Times(c, c), Times(N, Square(h.NG, h.G, x)), Times(Times(n, n), Times(xn, xn)));
    SquareOfProduct(c, xn, n);
    TimesNonneg(xn, n);
    TimesNonneg(c, Times(xn, n));
    Squares(acc - RowDot(h.NG, h.G, w, x), bound);
  }

  lemma CAccNonneg(K: nat)
    ensures CAcc(K) >= 0.0
  {}

  lemma SquareOfProduct(c: real, x: real, n: real)
    ensures Times(Times(c, Times(x, n)), Times(c, Times(x, n))) == Times(Times(c, c), Times(Times(n, n), Times(x, x)))
  {}

  /** Whether a token has finite table entries and a finite screen value in row m. */
  predicate Finite(k: Screen, col: seq<Option<real>>, m: nat, u: nat) {
    k.screen(m, u).Some? && forall g | 0 <= g < |col| :: col[g].Some?
  }

  function ScreenValue(k: Screen, m: nat, u: nat): real {
    if k.screen(m, u).Some? then k.screen(m, u).value else 0.0
  }

  /** reference_bounds for token u of row m, from its table entries. */
  function ScreenBounds(h: Head, k: Screen, col: seq<Option<real>>, n: real, m: nat, u: nat): (Val, Val) {
    var qb := Sum(h.NG, Prod(Column(col), GroupNorms(k, h.G, m)));
    var acc2 := 2.0 * Times(CAcc(h.NG * h.G), Times(RowNorm(k, h.NG, h.G, m), n));
    TokenBounds(k.rn, ScreenValue(k, m, u), CertBound.Bound(qb, acc2), Finite(k, col, m, u), k.abs)
  }

  /** A shard's step: bounds from its tables, rounded stock logits, and both accumulations as accurate as
      assumed, on every row if none is bad. */
  ghost predicate Screened(sh: Shard, M: nat, h: Head, rt: array2<Option<real>>, nv: array<real>, k: Screen)
    reads rt, nv
  {
    && Shaped(sh, M) && sh.V == h.V && rt.Length1 == nv.Length == h.V && Arithmetic(k)
    && ((forall m | 0 <= m < M :: !sh.bad[m]) ==> forall m: nat, u: nat | m < M && u < sh.V ::
          && (sh.lo[m][u], sh.hi[m][u]) == ScreenBounds(h, k, Entries(rt, u), nv[u], m, u)
          && (Finite(k, Entries(rt, u), m, u) ==>
                && sh.logits[m][u] == k.rn(k.stock(m, u)) && Accumulates(h, u, h.w(u), k.x(m), k.stock(m, u))
                && Accumulates(h, u, h.d(u), k.x(m), ScreenValue(k, m, u))))
  }

  function EvidenceOf(h: Head, k: Screen, col: seq<Option<real>>, n: real, m: nat, u: nat, logit: Val): Evidence {
    var e := Times(CAcc(h.NG * h.G), Times(RowNorm(k, h.NG, h.G, m), n));
    Evidence(h.w(u), h.d(u), k.x(m), Column(col), GroupNorms(k, h.G, m),
             k.stock(m, u), ScreenValue(k, m, u), e, 2.0 * e, Finite(k, col, m, u), logit)
  }

  lemma EvidenceSound(h: Head, k: Screen, col: seq<Option<real>>, n: real, m: nat, u: nat, logit: Val)
    requires Arithmetic(k) && |col| == h.NG && (forall g: nat | g < h.NG :: BoundsGroup(h, u, g, col[g]))
    requires BoundsRow(h, u, n)
    requires Finite(k, col, m, u) ==>
      && logit == k.rn(k.stock(m, u)) && Accumulates(h, u, h.w(u), k.x(m), k.stock(m, u))
      && Accumulates(h, u, h.d(u), k.x(m), ScreenValue(k, m, u))
    ensures Sound(EvidenceOf(h, k, col, n, m, u, logit), h.NG, h.G, k.rn)
  {
    hide Arithmetic, BoundsGroup, BoundsRow, Accumulates, RowNorm, Column, Square, Times, CAcc, NormsBound;
    if Finite(k, col, m, u) {
      InputNorms(k, h.NG, h.G, m);
      var xn := RowNorm(k, h.NG, h.G, m);
      AccumulationBound(h, u, h.w(u), k.x(m), k.stock(m, u), n, xn);
      AccumulationBound(h, u, h.d(u), k.x(m), ScreenValue(k, m, u), n, xn);
      ColumnBounds(h, u, k.x(m), GroupNorms(k, h.G, m), col);
    }
  }

  /** The tables that BuildTables leaves certify every step of the shard. */
  lemma BuiltCertifies(sh: Shard, stops: set<int>, M: nat, h: Head, rt: array2<Option<real>>, nv: array<real>,
          k: Screen)
    requires Built(h, rt, nv) && Screened(sh, M, h, rt, nv, k)
    ensures Certified(sh, stops, M)
  {
    hide ScreenBounds, EvidenceOf, TokenBounds, BoundsGroup, BoundsRow, Accumulates, Finite, Arithmetic;
    if forall m | 0 <= m < M :: !sh.bad[m] {
      var cols, ns := seq(h.V, u requires 0 <= u < h.V reads rt => Entries(rt, u)), nv[..];
      var ev := (m: nat, u: nat) =>
        if m < M && u < sh.V then EvidenceOf(h, k, cols[u], ns[u], m, u, sh.logits[m][u])
        else EvidenceOf(h, k, [], 0.0, m, u, NaN);
      forall m: nat, u: nat | m < M && u < sh.V ensures Certifies(sh, m, u, ev(m, u), h.NG, h.G, k.rn, k.abs) {
        assert forall g: nat | g < h.NG :: BoundsGroup(h, u, g, cols[u][g]);
        EvidenceSound(h, k, cols[u], ns[u], m, u, sh.logits[m][u]);
        EvidenceBounds(h, k, cols[u], ns[u], m, u, sh.logits[m][u]);
      }
      ArithmeticRounds(k);
      TablesCertify(sh, stops, M, h.NG, h.G, k.rn, k.abs, ev);
    }
  }

  lemma ArithmeticRounds(k: Screen)
    requires Arithmetic(k)
    ensures Monotone(k.rn) && k.abs >= 0.0
  {}

  lemma EvidenceBounds(h: Head, k: Screen, col: seq<Option<real>>, n: real, m: nat, u: nat, logit: Val)
    ensures var v := EvidenceOf(h, k, col, n, m, u, logit);
      && v.logit == logit
      && ScreenBounds(h, k, col, n, m, u)
         == TokenBounds(k.rn, v.screen, CertBound.Bound(Sum(h.NG, Prod(v.R, v.X)), v.acc2), v.finite, k.abs)
  {}

  /** End to end: for every batch and every request of it, whatever its processors, bias, masks and penalizers do
      to a row, what the step hands on is what it would hand on from the stock logits.  `flag` and `slots` are what
      Buffers.RunNonCompact leaves on the device. */
  lemma StepExact(b: Batch, flag: int, slots: set<int>, shs: seq<Shard>, M: nat, bv: nat, m: nat, r: nat)
    requires flag == 1 <==> StepArmed(b).0
    requires flag == 1 && b.info.Some? && b.info.value.pen.Some? && b.info.value.pen.value.required ==>
               forall q, x | 0 <= q < |b.reqStops| && x in b.reqStops[q] :: x in slots
    requires StopsOnly(b) && r < |b.reqStops|
    requires Laid(shs, M, 0) && m < M && bv > 0 && Stock(shs, M, 0, m) != []
    requires flag == 1 ==> AllCertified(shs, slots, M)
    ensures SeenOf(b, r, Gathered(shs, slots, M, flag != 1, bv, 0, m)) == SeenOf(b, r, Stock(shs, M, 0, m))
    ensures flag != 1 ==> Gathered(shs, slots, M, true, bv, 0, m) == Stock(shs, M, 0, m)
  {
    hide Laid, Stock, Gathered, PostMask, Argmax, AllCertified, Edited, StopsOnly;
    FullIsStock(shs, slots, M, bv, 0, m);
    if flag == 1 {
      var kill := ArmedEdits(b, r);
      CertifiedArgmax(shs, slots, M, false, bv, m, kill);
      ArmedSeen(b, r, Gathered(shs, slots, M, false, bv, 0, m), kill);
      ArmedSeen(b, r, Stock(shs, M, 0, m), kill);
    }
  }

  /** An armed step hands on the argmax of the masked row. */
  lemma ArmedSeen(b: Batch, r: nat, row: seq<Val>, kill: set<int>)
    requires StepArmed(b).0 && row != [] && Edited(b, r, row) == PostMask(row, 0, kill)
    ensures PostMask(row, 0, kill) != [] && SeenOf(b, r, row) == Token(Argmax(PostMask(row, 0, kill)))
  {
    hide Edited, Argmax;
    ArmedIff(b);
  }

  /** One rank in a step: its head, the tables built from it at load, its screen and its shard. */
  datatype Rank = Rank(h: Head, rt: array2<Option<real>>, nv: array<real>, k: Screen, sh: Shard)

  function Shards(ranks: seq<Rank>): (shs: seq<Shard>)
    ensures |shs| == |ranks| && forall i | 0 <= i < |ranks| :: shs[i] == ranks[i].sh
  {
    seq(|ranks|, i requires 0 <= i < |ranks| => ranks[i].sh)
  }

  ghost predicate Ready(r: Rank, M: nat)
    reads r.rt, r.nv
  {
    Built(r.h, r.rt, r.nv) && Screened(r.sh, M, r.h, r.rt, r.nv, r.k)
  }

  /** From weights to tokens: with every rank's tables as BuildTables leaves them and both accumulations within
      c N_v ||x||, every step hands on what it would hand on from the stock logits. */
  lemma TablesToArgmax(b: Batch, flag: int, slots: set<int>, ranks: seq<Rank>, M: nat, bv: nat, m: nat, r: nat)
    requires flag == 1 <==> StepArmed(b).0
    requires flag == 1 && b.info.Some? && b.info.value.pen.Some? && b.info.value.pen.value.required ==>
               forall q, x | 0 <= q < |b.reqStops| && x in b.reqStops[q] :: x in slots
    requires StopsOnly(b) && r < |b.reqStops|
    requires Laid(Shards(ranks), M, 0) && m < M && bv > 0 && Stock(Shards(ranks), M, 0, m) != []
    requires flag == 1 ==> forall i | 0 <= i < |ranks| :: Ready(ranks[i], M)
    ensures SeenOf(b, r, Gathered(Shards(ranks), slots, M, flag != 1, bv, 0, m))
            == SeenOf(b, r, Stock(Shards(ranks), M, 0, m))
    ensures flag != 1 ==> Gathered(Shards(ranks), slots, M, true, bv, 0, m) == Stock(Shards(ranks), M, 0, m)
  {
    hide Laid, Stock, Gathered, StepArmed, SeenOf, Certified, Built, Screened, StopsOnly;
    if flag == 1 {
      forall sh | sh in Shards(ranks) ensures Shaped(sh, M) && Certified(sh, slots, M) {
        var i :| 0 <= i < |ranks| && ranks[i].sh == sh;
        assert Ready(ranks[i], M);
        ReadyCertified(ranks[i], slots, M);
      }
    }
    StepExact(b, flag, slots, Shards(ranks), M, bv, m, r);
  }

  lemma ReadyCertified(r: Rank, stops: set<int>, M: nat)
    requires Ready(r, M)
    ensures Shaped(r.sh, M) && Certified(r.sh, stops, M)
  {
    hide Certified, Built, Shaped;
    BuiltCertifies(r.sh, stops, M, r.h, r.rt, r.nv, r.k);
  }
}
