/** Further laws of block verification: what a drafted prefix is worth, how its mass splits, and
    what the `live` cap and the 1e-30 clamps do. */
module BlockLaws {
  import opened Options
  import opened RealSums
  import opened BlockVerify
  import opened OutputLaw
  import opened Losslessness

  /* --------------------------------------------------------------------- survival identity */

  function AtLeast(k: nat): nat -> real { (t: nat) => if t >= k then 1.0 else 0.0 }

  function Survives(m: Setup, k: nat): Tokens -> real {
    (x: Tokens) => if Full(m, x) then TauExp(Probs(m, x), AtLeast(k)) else 0.0
  }

  /** P(tau >= |pre| | the drafts start with pre). */
  function SurvivalProb(m: Setup, pre: Tokens): real
    requires |pre| <= m.g
  {
    DraftExp(m, pre, m.g - |pre|, Survives(m, |pre|))
  }

  lemma {:induction false} AfterSkip(a: seq<real>, j: nat, k: nat, K: nat -> real)
    requires j <= k <= |a| && forall t: nat | t <= k :: K(t) == 0.0
    ensures After(a, j, K) == After(a, k, K)
    decreases k - j
  {
    hide Times;
    if j < k {
      AfterSkip(a, j + 1, k, K);
      TimesUnits(a[j]);
      TimesUnits(NoneAfter(a, j + 1));
    }
  }

  lemma {:induction false} AfterEq(a: seq<real>, k: nat, K: nat -> real, K': nat -> real)
    requires k <= |a| && forall t: nat | k < t <= |a| :: K(t) == K'(t)
    ensures After(a, k, K) == After(a, k, K')
    decreases |a| - k
  {
    hide Times;
    if k < |a| { AfterEq(a, k + 1, K, K'); }
  }

  lemma SurvivesIsAfter(m: Setup, k: nat, x: Tokens)
    requires Sane(m) && Full(m, x) && k < m.g
    ensures Survives(m, k + 1)(x) == AfterFrom(m, [], k)(x)
  {
    hide Times, EmitAt, AcceptProbs;
    var a, K, E := Probs(m, x), AtLeast(k + 1), EmitValue(BlockOf(m, x), m.p, []);
    TauExpClosed(a, K);
    TimesUnits(NoneAfter(a, 0));
    AfterSkip(a, 0, k, K);
    forall t: nat | k < t <= m.g ensures K(t) == E(t) { CorrectionIsALaw(m, x, t); }
    AfterEq(a, k, K, E);
  }

  /** Given its drafts, a prefix survives with probability exactly its weight w. */
  lemma SurvivalIdentity(m: Setup, pre: Tokens)
    requires Sane(m) && FloorsIdle(m) && Open(m, pre) && Drafted(m, pre)
    ensures SurvivalProb(m, pre) == TW(m, pre)
  {
    hide SurvivalProb, TW, FloorsIdle, Sane;
    var k := |pre|;
    if k == 0 {
      SurvivalRoot(m);
    } else {
      OpenPrefix(m, pre, k - 1);
      SurvivalNext(m, pre[..k - 1], pre[k - 1], pre);
    }
  }

  lemma SurvivalRoot(m: Setup)
    requires Sane(m)
    ensures SurvivalProb(m, []) == TW(m, [])
  {
    hide DraftExp, Survives;
    forall x: Tokens | Extends(m, [], m.g, x) ensures Survives(m, 0)(x) == 1.0 { SurvivesAlways(m, x); }
    DraftExpConst(m, [], m.g, Survives(m, 0), 1.0);
  }

  lemma SurvivalNext(m: Setup, u: Tokens, y: nat, pre: Tokens)
    requires Sane(m) && FloorsIdle(m) && Open(m, u) && !Cut(m, u) && y < m.V
    requires pre == u + [y] && Drafted(m, pre)
    ensures SurvivalProb(m, pre) == TW(m, pre)
  {
    hide *;
    StepUp(m, [], u, y);
    SurvivalIsAfter(m, pre);
    Anything(m, pre);
    Outer(m, [], pre);
    TimesUnits(TW(m, pre));
  }

  lemma Anything(m: Setup, pre: Tokens)
    ensures Continue(m.p, pre, []) == 1.0 && InVocab(m.V, [])
  {}

  lemma SurvivalIsAfter(m: Setup, pre: Tokens)
    requires Sane(m) && 1 <= |pre| && Open(m, pre)
    ensures SurvivalProb(m, pre) == DraftExp(m, pre, m.g - |pre|, AfterFrom(m, [], |pre| - 1))
  {
    hide DraftExp, Times, Survives, AfterFrom;
    var k := |pre|;
    forall x: Tokens | Extends(m, pre, m.g - k, x)
      ensures Survives(m, k)(x) == Times(1.0, AfterFrom(m, [], k - 1)(x)) + 0.0
    {
      SurvivesIsAfter(m, k - 1, x);
      TimesUnits(AfterFrom(m, [], k - 1)(x));
    }
    ExpEq(m, pre, m.g - k, AfterFrom(m, [], k - 1), Survives(m, k));
  }

  lemma SurvivesAlways(m: Setup, x: Tokens)
    requires Sane(m) && Full(m, x)
    ensures Survives(m, 0)(x) == 1.0
  {
    hide Times, AcceptProbs;
    var a, K := Probs(m, x), AtLeast(0);
    TauExpClosed(a, K);
    TotalAfter(a, 0, K);
    TimesUnits(NoneAfter(a, 0));
  }

  lemma ExpEq(m: Setup, pre: Tokens, n: nat, f: Tokens -> real, h: Tokens -> real)
    requires IsKernel(m.V, m.q) && InVocab(m.V, pre)
    requires forall x: Tokens | Extends(m, pre, n, x) :: h(x) == Times(1.0, f(x)) + 0.0
    ensures DraftExp(m, pre, n, h) == DraftExp(m, pre, n, f)
  {
    hide DraftExp, Times;
    var zero := (x: Tokens) => 0.0;
    DraftExpLinear(m, pre, n, 1.0, f, zero, h);
    DraftExpConst(m, pre, n, zero, 0.0);
    TimesUnits(DraftExp(m, pre, n, f));
  }

  /* --------------------------------------------------------- stopping exactly here, with y */

  function StopsWith(m: Setup, k: nat, y: nat): Tokens -> real {
    (x: Tokens) =>
      if Full(m, x) && k <= m.g then Times(TauProb(Probs(m, x), k), CorrProb(BlockOf(m, x), k, y)) else 0.0
  }

  /** P(tau = |pre| and the correction token is y | the drafts start with pre). */
  function StopProb(m: Setup, pre: Tokens, y: nat): real
    requires |pre| <= m.g
  {
    DraftExp(m, pre, m.g - |pre|, StopsWith(m, |pre|, y))
  }

  lemma StopsAgree(m: Setup, x: Tokens, k: nat, y: nat)
    requires Sane(m) && Full(m, x) && k <= m.g && Open(m, x[..k])
    ensures var a := if k == 0 then 1.0 else TA(m, x[..k]);
            StopsWith(m, k, y)(x) == Times(Times(a, TCorr(m, x[..k], y)), NoneFrom(m, k)(x))
  {
    hide Times, TauProb, TA, AcceptProb, Excess, TEx;
    var a, b, pre := Probs(m, x), BlockOf(m, x), x[..k];
    TauLaw(a, k);
    TreeAgrees(m, x, k);
    assert b.tp[k] == m.p(pre);
    TimesLaws(if k == 0 then 1.0 else TA(m, pre), NoneAfter(a, k), TCorr(m, pre, y));
  }

  /** Stopping at pre with correction y has mass max(w p(y) - q(y), 0), where q is 0 at a cut. */
  lemma StopIdentity(m: Setup, pre: Tokens, y: nat)
    requires Sane(m) && FloorsIdle(m) && Open(m, pre) && Drafted(m, pre) && y < m.V
    ensures StopProb(m, pre, y) == Over(TW(m, pre), m.p(pre)(y), if Cut(m, pre) then 0.0 else m.q(pre)(y))
  {
    hide *;
    var k := |pre|;
    var a := if pre == [] then 1.0 else TA(m, pre);
    var zero := (x: Tokens) => 0.0;
    StopsLinear(m, pre, y, a, zero);
    DraftExpLinear(m, pre, m.g - k, Times(a, TCorr(m, pre, y)), NoneFrom(m, k), zero, StopsWith(m, k, y));
    DraftExpConst(m, pre, m.g - k, zero, 0.0);
    StopScale(m, pre, y, a);
    TimesLaws(a, TCorr(m, pre, y), EN(m, pre));
    StopMeans(m, pre, y);
  }

  /** The names unfolded. */
  lemma StopMeans(m: Setup, pre: Tokens, y: nat)
    requires |pre| <= m.g
    ensures StopProb(m, pre, y) == DraftExp(m, pre, m.g - |pre|, StopsWith(m, |pre|, y))
    ensures EN(m, pre) == DraftExp(m, pre, m.g - |pre|, NoneFrom(m, |pre|))
    ensures TEx(m, pre)(y) == Over(TW(m, pre), m.p(pre)(y), if Cut(m, pre) then 0.0 else m.q(pre)(y))
  {
    hide DraftExp, TW, Over, StopsWith, NoneFrom;
  }

  lemma StopsLinear(m: Setup, pre: Tokens, y: nat, a: real, zero: Tokens -> real)
    requires Sane(m) && Open(m, pre) && a == (if pre == [] then 1.0 else TA(m, pre))
    requires forall x: Tokens :: zero(x) == 0.0
    ensures |pre| <= m.g && InVocab(m.V, pre) && IsKernel(m.V, m.q) && ConstOn(m, pre, m.g - |pre|, zero, 0.0)
    ensures LinearOn(m, pre, m.g - |pre|, Times(a, TCorr(m, pre, y)), NoneFrom(m, |pre|), zero, StopsWith(m, |pre|, y))
  {
    hide Times, StopsWith, NoneFrom, TCorr, TA, Cut, IsKernel;
    var k := |pre|;
    forall x: Tokens | Extends(m, pre, m.g - k, x)
      ensures StopsWith(m, k, y)(x) == Times(Times(a, TCorr(m, pre, y)), NoneFrom(m, k)(x)) + zero(x)
    {
      assert x[..k] == pre;
      StopsAgree(m, x, k, y);
    }
  }

  /** a EN is the mass that stops here: S before a cut, w at one. */
  lemma StopScale(m: Setup, pre: Tokens, y: nat, a: real)
    requires Sane(m) && FloorsIdle(m) && Open(m, pre) && Drafted(m, pre) && y < m.V
    requires a == if pre == [] then 1.0 else TA(m, pre)
    ensures Times(Times(a, EN(m, pre)), TCorr(m, pre, y)) == TEx(m, pre)(y)
  {
    hide Times, EN, TEx, TW;
    if Cut(m, pre) {
      AtCut(m, [], pre);
      CutMass(m, pre);
      assert a == TW(m, pre) by { if pre == [] { RootWeight(m); } }
    } else {
      InnerN(m, pre);
      if pre == [] { RootWeight(m); TimesUnits(TS(m, pre)); } else { StopMass(m, pre, EN(m, pre)); }
    }
    TimesUnits(a);
    ResidualNonneg(m, pre);
    Unscale(TEx(m, pre)(y), TS(m, pre), 1.0);
    TimesUnits(TEx(m, pre)(y));
    TimesUnits(TCorr(m, pre, y));
  }

  lemma RootWeight(m: Setup)
    ensures TW(m, []) == 1.0
  {}

  /** What stops here with y and what survives by drafting y are together w p(y). */
  lemma MassBalance(m: Setup, pre: Tokens, y: nat)
    requires Sane(m) && FloorsIdle(m) && Open(m, pre) && Drafted(m, pre) && y < m.V && !Cut(m, pre)
    ensures m.q(pre)(y) > 0.0 ==>
      StopProb(m, pre, y) + Times(m.q(pre)(y), SurvivalProb(m, pre + [y])) == Times(TW(m, pre), m.p(pre)(y))
    ensures m.q(pre)(y) == 0.0 ==> StopProb(m, pre, y) == Times(TW(m, pre), m.p(pre)(y))
  {
    hide Times, TW, StopProb, SurvivalProb, Over;
    StopIdentity(m, pre, y);
    OverAndMin(TW(m, pre), m.p(pre)(y), m.q(pre)(y));
    if m.q(pre)(y) > 0.0 {
      OpenNext(m, pre, y);
      DraftedNext(m, pre, y);
      SurvivalIdentity(m, pre + [y]);
      KeptMass(m, pre, y);
    } else if m.q(pre)(y) == 0.0 {
      KeptNothing(m, pre, y);
    }
  }

  /* ------------------------------------------------------------- one block: cap and clamps */

  /** Every target row is a distribution. */
  ghost predicate GoodRows(b: Block) {
    forall i: nat | i < |b.tp| :: Sum(b.V, b.tp[i]) == 1.0 && forall y: nat | y < b.V :: b.tp[i](y) >= 0.0
  }

  lemma {:induction false} WBounds(b: Block, i: nat)
    requires Shaped(b) && GoodRows(b) && i <= |b.x|
    ensures 0.0 <= W(b, i) <= 1.0
  {
    if i > 0 {
      WBounds(b, i - 1);
      NextWBounds(b, i - 1, W(b, i - 1));
    }
  }

  lemma NextWBounds(b: Block, i: nat, w: real)
    requires Shaped(b) && GoodRows(b) && i < |b.x| && w >= 0.0
    ensures 0.0 <= NextW(b, i, w) <= 1.0
  {
    var r := Ratio(b, i);
    assert b.tp[i](b.x[i]) >= 0.0 && r >= 0.0;
    assert w * r >= 0.0;
  }

  /** Every threshold is a probability, so a uniform draw beats it with exactly that chance. */
  lemma ThresholdsAreProbabilities(b: Block, i: nat)
    requires Shaped(b) && GoodRows(b) && 1 <= i <= |b.x|
    ensures 0.0 <= AcceptProb(b, i) <= 1.0
  {
    hide W, Excess;
    WBounds(b, i);
    assert S(b, i) >= 0.0 by { ExcessNonneg(b, i); }
    QuotientBounds(S(b, i), 1.0 - W(b, i));
  }

  lemma ExcessNonneg(b: Block, i: nat)
    requires Shaped(b) && i <= |b.x|
    ensures S(b, i) >= 0.0
  {
    forall y: nat | y < b.V ensures Excess(b, i)(y) >= 0.0 {
      assert Excess(b, i)(y) == Over(W(b, i), b.tp[i](y), DraftRow(b, i)(y));
    }
    SumNonneg(b.V, Excess(b, i));
  }

  lemma QuotientBounds(a: real, c: real)
    requires a >= 0.0 && c >= 0.0
    ensures 0.0 <= a / Max(a + c, FLOOR) <= 1.0
  {
    var d := Max(a + c, FLOOR);
    assert d > 0.0 && a <= d;
    assert a / d >= 0.0 && (a / d) * d == a;
    assert (1.0 - a / d) * d >= 0.0;
  }

  /** The block of the first L drafts only. */
  function Truncate(b: Block, L: nat): (c: Block)
    requires Shaped(b) && 1 <= L <= |b.x|
    ensures Shaped(c)
  {
    Block(b.V, b.x[..L], b.tp[..L + 1], b.dp[..L], None)
  }

  lemma {:induction false} TruncatedW(b: Block, L: nat, i: nat)
    requires Shaped(b) && 1 <= L <= |b.x| && b.live == Some(L) && i <= L
    ensures W(b, i) == W(Truncate(b, L), i)
  {
    if i > 0 {
      TruncatedW(b, L, i - 1);
      var c := Truncate(b, L);
      assert c.x[i - 1] == b.x[i - 1] && c.tp[i - 1] == b.tp[i - 1] && c.dp[i - 1] == b.dp[i - 1];
      assert Ratio(b, i - 1) == Ratio(c, i - 1);
      SameRatio(b, c, i - 1);
    }
  }

  lemma TruncatedExcess(b: Block, L: nat, i: nat)
    requires Shaped(b) && 1 <= L <= |b.x| && b.live == Some(L) && i <= L
    ensures Excess(b, i) == Excess(Truncate(b, L), i)
  {
    hide W;
    var c := Truncate(b, L);
    TruncatedW(b, L, i);
    assert c.tp[i] == b.tp[i] && DraftRow(b, i) == DraftRow(c, i);
  }

  lemma TruncatedThreshold(b: Block, L: nat, i: nat)
    requires Shaped(b) && GoodRows(b) && 1 <= L <= |b.x| && b.live == Some(L) && 1 <= i <= L
    ensures H(b, i) == H(Truncate(b, L), i)
  {
    hide W;
    TruncatedW(b, L, i);
    TruncatedExcess(b, L, i);
    if i == L < |b.x| {
      WBounds(b, i);
      WholeRow(b.V, W(b, i), b.tp[i]);
      assert W(b, i) / 1.0 == W(b, i);
    }
  }

  /** With nothing drafted after it, a position's residual mass is its weight. */
  lemma WholeRow(V: nat, w: real, p: Dist)
    requires w >= 0.0 && Sum(V, p) == 1.0 && forall y: nat | y < V :: p(y) >= 0.0
    ensures Sum(V, Residual(w, p, ZeroRow())) == w
  {
    forall y: nat | y < V ensures Residual(w, p, ZeroRow())(y) == Times(w, p(y)) { OverZero(w, p(y)); }
    SumScale(V, w, p, Residual(w, p, ZeroRow()));
    TimesUnits(w);
  }

  /** Running with live = L is running the block rule on the first L drafts: same acceptance
      probabilities, nothing accepted behind them, same correction law. */
  lemma LiveIsTruncation(b: Block, L: nat, i: nat)
    requires Shaped(b) && GoodRows(b) && 1 <= L <= |b.x| && b.live == Some(L)
    requires 1 <= i <= |b.x|
    ensures Alive(b, i - 1) <==> i <= L
    ensures AcceptProb(b, i) == if i <= L then AcceptProb(Truncate(b, L), i) else 0.0
    ensures i <= L ==> forall y: nat :: CorrProb(b, i, y) == CorrProb(Truncate(b, L), i, y)
    ensures forall y: nat :: CorrProb(b, 0, y) == CorrProb(Truncate(b, L), 0, y)
  {
    hide H, Excess;
    TruncatedExcess(b, L, 0);
    if i <= L {
      TruncatedThreshold(b, L, i);
      TruncatedExcess(b, L, i);
    }
  }

  /** With nothing verified, nothing is accepted and the correction is drawn from the first target row. */
  lemma NothingLive(b: Block, y: nat)
    requires Shaped(b) && GoodRows(b) && b.live.Some? && b.live.value <= 0 && y < b.V
    ensures forall i: nat | i < |b.x| :: !Alive(b, i)
    ensures forall i: nat | 1 <= i <= |b.x| :: AcceptProb(b, i) == 0.0
    ensures CorrProb(b, 0, y) == b.tp[0](y)
  {
    hide H;
    assert W(b, 0) == 1.0 && DraftRow(b, 0) == ZeroRow();
    WholeRow(b.V, 1.0, b.tp[0]);
    OverZero(1.0, b.tp[0](y));
    TimesUnits(b.tp[0](y));
  }

  /* --------------------------------------------------- the clamp on a drafted probability */

  /** A block of one draft meets the losslessness theorem's assumption as soon as the draft law gives no
      token a positive probability below the clamp. */
  lemma OneDraftIdle(m: Setup)
    requires m.g == 1 && forall y: nat | y < m.V :: m.q([])(y) == 0.0 || m.q([])(y) >= FLOOR
    ensures FloorsIdle(m)
  {
    forall pre: Tokens | Open(m, pre) && Drafted(m, pre) && !Cut(m, pre) ensures pre == [] {}
  }

  /** Two tokens, target and draft equal, the rarer token below twice the clamp. */
  function Rare(): Setup {
    var row: Dist := (y: nat) => if y == 0 then FLOOR / 2.0 else if y == 1 then 1.0 - FLOOR / 2.0 else 0.0;
    Setup(2, 1, (pre: Tokens) => row, (pre: Tokens) => row, None)
  }

  /** The single acceptance probability when y was drafted. */
  lemma RareAccept(y: nat, b: Block)
    requires y < 2 && b == BlockOf(Rare(), [y])
    ensures AcceptProbs(b) == [if y == 0 then 0.5 else 1.0]
  {
    assert W(b, 1) == NextW(b, 0, 1.0);
    assert b.tp[0](y) == b.dp[0](y);
    assert y == 0 ==> Ratio(b, 0) == (FLOOR / 2.0) / FLOOR == 0.5;
    assert y == 1 ==> Ratio(b, 0) == 1.0;
  }

  /** The stream's chance of starting with 0, given that nothing was accepted. */
  lemma RareRejected(y: nat, b: Block)
    requires y < 2 && b == BlockOf(Rare(), [y])
    ensures EmitAt(b, Rare().p, [0], 0) == FLOOR / 2.0
  {
    var p := Rare().p;
    var F0 := (z: nat) => Times(CorrProb(b, 0, z), Continue(p, b.x[..0] + [z], [0]));
    forall z: nat | z < 2 ensures Excess(b, 0)(z) == 0.0 { assert b.tp[0](z) == DraftRow(b, 0)(z); }
    SumZero(2, Excess(b, 0));
    assert CorrProb(b, 0, 0) == FLOOR / 2.0;
    TimesUnits(CorrProb(b, 0, 0));
    TimesUnits(CorrProb(b, 0, 1));
    hide CorrProb, Times;
    StartsWithZero(p, b.x[..0] + [0]);
    StartsWithZero(p, b.x[..0] + [1]);
    assert F0(0) == FLOOR / 2.0;
    assert F0(1) == 0.0;
    SumSingle(2, 0, F0);
  }

  /** And given that the draft was accepted. */
  lemma RareAccepted(y: nat, b: Block)
    requires y < 2 && b == BlockOf(Rare(), [y])
    ensures EmitAt(b, Rare().p, [0], 1) == if y == 0 then 1.0 else 0.0
  {
    var m, p := Rare(), Rare().p;
    RareSane();
    var F1 := (z: nat) => Times(CorrProb(b, 1, z), Continue(p, b.x[..1] + [z], [0]));
    if y == 0 {
      CorrectionIsALaw(m, [y], 1);
      hide CorrProb, Times;
      forall z: nat | z < 2 ensures Continue(p, b.x[..1] + [z], [0]) == 1.0 { StartsWithZero(p, b.x[..1] + [z]); }
      SumEq(2, F1, (z: nat) => Times(CorrProb(b, 1, z), Continue(p, b.x[..1] + [z], [])));
    } else {
      forall z: nat | z < 2 ensures F1(z) == 0.0 {
        StartsWithZero(p, b.x[..1] + [z]);
        TimesUnits(CorrProb(b, 1, z));
      }
      SumZero(2, F1);
    }
  }

  lemma StartsWithZero(p: Kernel, o: Tokens)
    requires o != []
    ensures Continue(p, o, [0]) == if o[0] == 0 then 1.0 else 0.0
  {
    assert [0] <= o <==> o[0] == 0;
  }

  lemma RareSane()
    ensures Sane(Rare())
  {
    var row := Rare().p([]);
    assert Sum(2, row) == Sum(1, row) + row(1) && Sum(1, row) == Sum(0, row) + row(0);
  }

  /** E[K(tau)] over a block of one draft. */
  lemma OneDraft(a: real, K: nat -> real)
    ensures TauExp([a], K) == Times(K(0), 1.0 - a) + Times(a, K(1))
  {
    hide Times, TauExp;
    TauExpClosed([a], K);
    assert NoneAfter([a], 1) == 1.0;
    TimesUnits(1.0 - a);
    TimesUnits(Times(a, K(1)));
    TimesLaws(a, K(1), 1.0);
    assert After([a], 1, K) == 0.0;
  }

  lemma RareGiven(y: nat)
    requires y < 2
    ensures EmitGiven(Rare(), [0])([y]) == if y == 0 then 0.5 + FLOOR / 4.0 else 0.0
  {
    hide EmitAt, AcceptProbs, TauExp;
    var b := BlockOf(Rare(), [y]);
    var K := EmitValue(b, Rare().p, [0]);
    RareAccept(y, b);
    RareRejected(y, b);
    RareAccepted(y, b);
    OneDraft(if y == 0 then 0.5 else 1.0, K);
    assert K(0) == FLOOR / 2.0 && K(1) == if y == 0 then 1.0 else 0.0;
  }

  lemma RareEmit()
    ensures Emit(Rare(), [0]) == Times(FLOOR / 2.0, 0.5 + FLOOR / 4.0)
  {
    hide EmitGiven, Times;
    var m := Rare();
    var E := (y: nat) => Times(m.q([])(y), DraftExp(m, [] + [y], 0, EmitGiven(m, [0])));
    assert Emit(m, [0]) == Sum(2, E) by { hide DraftExp; DraftExpUnfold(m, [], 1, EmitGiven(m, [0]), E); }
    assert [] + [0] == [0] && [] + [1] == [1];
    assert E(0) == Times(FLOOR / 2.0, 0.5 + FLOOR / 4.0) by { RareGiven(0); }
    assert E(1) == 0.0 by { RareGiven(1); TimesUnits(m.q([])(1)); }
    SumSingle(2, 0, E);
  }

  lemma RareTarget()
    ensures Chain(Rare().p, [0], 0) == FLOOR / 2.0
  {
    assert Chain(Rare().p, [0], 1) == 1.0;
  }

  lemma RareFloor()
    ensures !FloorsIdle(Rare())
  {
    var m := Rare();
    assert Open(m, []) && Drafted(m, []) && !Cut(m, []) && m.q([])(0) == FLOOR / 2.0;
  }

  /** A drafted probability under 1e-30 makes the clamp bite: p = q, and yet token 0 is emitted
      with less than its target probability.  FloorsIdle cannot be dropped from the theorem. */
  lemma ClampBites()
    ensures Sane(Rare()) && !FloorsIdle(Rare())
    ensures Emit(Rare(), [0]) < Chain(Rare().p, [0], 0)
  {
    hide Emit, Chain, Sane, FloorsIdle;
    RareSane();
    RareFloor();
    RareEmit();
    RareTarget();
  }
}
